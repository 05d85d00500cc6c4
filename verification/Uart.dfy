/** The emulated 16550 serial port. */
module Uart {
  import opened Bits
  import opened Options
  import opened Ansi

  const REG_DATA: u16 := 0
  const REG_MCR: u16 := 4
  const REG_LSR: u16 := 5
  const REG_MSR: u16 := 6
  const REG_SCR: u16 := 7
  const LSR_TX_READY: u8 := 0x60
  const MSR_READY: u8 := 0xB0

  /** The chunks a channel has carried, as one stream. */
  function Flatten(chunks: seq<seq<u8>>): seq<u8> {
    if chunks == [] then [] else chunks[0] + Flatten(chunks[1..])
  }

  lemma {:induction false} FlattenConcat(a: seq<seq<u8>>, b: seq<seq<u8>>)
    ensures Flatten(a + b) == Flatten(a) + Flatten(b)
  {
    if a == [] {
      assert a + b == b;
    } else {
      FlattenConcat(a[1..], b);
      assert (a + b)[1..] == a[1..] + b && (a + b)[0] == a[0];
      assert a[0] + (Flatten(a[1..]) + Flatten(b)) == a[0] + Flatten(a[1..]) + Flatten(b);
    }
  }

  /** The registers and the stripper; what the guest can observe, and what it has sent. */
  datatype Line = Line(mcr: u8, scr: u8, ansi: State)

  /** What the guest reads at `offset`. */
  function ReadLine(line: Line, offset: u16): u8 {
    if offset == REG_LSR then LSR_TX_READY
    else if offset == REG_MSR then MSR_READY
    else if offset == REG_MCR then line.mcr
    else if offset == REG_SCR then line.scr
    else 0
  }

  /** An `OUT` to `offset`. */
  function WriteLine(line: Line, offset: u16, value: u8): Line {
    if offset == REG_DATA then line.(ansi := Next(line.ansi, value))
    else if offset == REG_MCR then line.(mcr := value)
    else if offset == REG_SCR then line.(scr := value)
    else line
  }

  /** A byte that is filtered out makes no chunk. */
  function ByteChunks(out: seq<u8>): seq<seq<u8>> {
    if out == [] then [] else [out]
  }

  lemma FilterStep(s: State, buf: seq<u8>, i: nat, data: seq<u8>)
    requires i < |buf|
    ensures data + Filter(s, buf[i..]) == data + Emit(s, buf[i]) + Filter(Next(s, buf[i]), buf[i + 1..])
    ensures After(s, buf[i..]) == After(Next(s, buf[i]), buf[i + 1..])
  {
    assert buf[i..][1..] == buf[i + 1..];
  }

  lemma FilterEnd(s: State, rest: seq<u8>, data: seq<u8>)
    requires rest == []
    ensures data + Filter(s, rest) == data && After(s, rest) == s
  {
  }

  class Uart {
    var mcr: u8
    var scr: u8
    /** The chunks sent so far, once a consumer is attached. */
    var sink: Option<seq<seq<u8>>>
    var ansi: State

    constructor ()
      ensures View() == Line(0, 0, Normal) && sink == None
    {
      mcr, scr, sink, ansi := 0, 0, None, Normal;
    }

    function View(): Line
      reads this
    {
      Line(mcr, scr, ansi)
    }

    /** Everything the consumer has received. */
    function Streamed(): seq<u8>
      reads this
    {
      if sink.Some? then Flatten(sink.value) else []
    }

    method AnsiFilter(byte: u8) returns (out: Option<u8>)
      modifies this`ansi
      ensures ansi == Next(old(ansi), byte)
      ensures (if out.Some? then [out.value] else []) == Emit(old(ansi), byte)
    {
      out := None;
      match ansi
      case Normal =>
        if byte == 0x1B {
          ansi := Esc;
        } else if byte == 0x0A || byte == 0x0D || byte == 0x09 {
          out := Some(byte);
        } else if byte <= 0x1F {
        } else {
          out := Some(byte);
        }
      case Esc =>
        ansi := if byte == 0x5B then Csi else Normal;
      case Csi =>
        if 0x40 <= byte <= 0x7E {
          ansi := Normal;
        }
    }

    method Send(chunk: seq<u8>)
      modifies this`sink
      ensures sink == if old(sink).Some? then Some(old(sink).value + [chunk]) else None
    {
      if sink.Some? {
        sink := Some(sink.value + [chunk]);
      }
    }

    method Read(offset: u16) returns (value: u8)
      ensures value == ReadLine(View(), offset)
    {
      value :=
        if offset == REG_LSR then LSR_TX_READY
        else if offset == REG_MSR then MSR_READY
        else if offset == REG_MCR then mcr
        else if offset == REG_SCR then scr
        else 0;
    }

    method Write(offset: u16, value: u8) returns (sent: Option<u8>)
      modifies this
      ensures View() == WriteLine(old(View()), offset, value)
      ensures sent == if offset == REG_DATA then Some(value) else None
      ensures sink == if old(sink).Some? && offset == REG_DATA
                      then Some(old(sink).value + ByteChunks(Emit(old(ansi), value))) else old(sink)
    {
      sent := None;
      if offset == REG_DATA {
        var filtered := AnsiFilter(value);
        if filtered.Some? {
          Send([filtered.value]);
        } else if sink.Some? {
          assert sink.value + [] == sink.value;
        }
        sent := Some(value);
      } else if offset == REG_MCR {
        mcr := value;
      } else if offset == REG_SCR {
        scr := value;
      }
    }

    method WriteBuffer(buf: seq<u8>)
      modifies this`sink, this`ansi
      ensures ansi == After(old(ansi), buf)
      ensures sink == if old(sink).Some? then Some(old(sink).value + [Filter(old(ansi), buf)]) else None
    {
      hide Filter, After, Emit, Next;
      var data: seq<u8> := [];
      var i := 0;
      while i < |buf|
        invariant 0 <= i <= |buf|
        invariant sink == old(sink)
        invariant data + Filter(ansi, buf[i..]) == Filter(old(ansi), buf)
        invariant After(ansi, buf[i..]) == After(old(ansi), buf)
      {
        FilterStep(ansi, buf, i, data);
        var filtered := AnsiFilter(buf[i]);
        if filtered.Some? {
          data := data + [filtered.value];
        } else {
          assert data + [] == data;
        }
        i := i + 1;
      }
      FilterEnd(ansi, buf[i..], data);
      Send(data);
    }
  }
}
