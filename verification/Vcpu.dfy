/** The run loop of a virtual CPU: exits come in from the backend, and end the run, transmit
    bytes, read the serial port, or are ignored. */
module Vcpu {
  import opened Bits
  import opened Options
  import opened Words
  import opened Registers
  import opened Backend
  import opened Bytes
  import opened GuestMemory
  import opened Ansi
  import opened Uart

  const SERIAL_BASE: u16 := 0x800
  const QEMU_EXIT: u16 := 0xF4
  const EXIT_PORT: u16 := 0x540

  datatype Hypercall =
    | Exit | SerialWriteByte | SerialWriteBuffer | FileWrite
    | FileRead | FileOpen | FileClose | FileLseek | FileUnlink | Unsupported

  /** Where the fields of a parameter structure lie. */
  datatype Layout = Layout(fd: u16, buf: u16, len: u16, result: u16)

  /** The interface to the guest: which port is which hypercall, the parameter structures, and
      where in host memory the guest's buffer starts. */
  datatype Abi = Abi(decode: u16 -> Option<Hypercall>, layout: Hypercall -> Layout, start: u64)

  /** One return of the backend: what it reports, the guest's registers, and the host's memory at
      that moment. */
  datatype VmExit = VmExit(res: Result<ExitReason>, regs: GuestRegisters, memory: HostMemory)

  /** What the guest gets back: its registers, and a result stored where it asked. */
  datatype Reaction = Reaction(regs: GuestRegisters, reply: Option<Store>)

  /** How an exit is dealt with. */
  datatype Action = Halt | Call(h: Hypercall) | Input(port: u16) | Output(port: u16) | Ignore

  predicate IsExitPort(port: u16) {
    port == QEMU_EXIT || port == EXIT_PORT
  }

  predicate IsSerial(port: u16) {
    SERIAL_BASE <= port < SERIAL_BASE + 8
  }

  function Classify(res: Result<ExitReason>, abi: Abi): Action {
    match res
    case Err(_) => Halt
    case Ok(Success) => Ignore
    case Ok(Shutdown) => Halt
    case Ok(IoInstruction(q)) =>
      if IsIn(q) then Input(Port(q))
      else if IsExitPort(Port(q)) || abi.decode(Port(q)) == Some(Exit) then Halt
      else if abi.decode(Port(q)).Some? then Call(abi.decode(Port(q)).value)
      else Output(Port(q))
  }

  // --- Parameter structures --------------------------------------------------------------------

  /** The host address of a field of the structure RDI points to. */
  function FieldPtr(x: VmExit, abi: Abi, offset: u16): u64 {
    Offset(GuestPtr(abi.start, x.regs.gprs.rdi), offset)
  }

  function Fd(x: VmExit, abi: Abi, h: Hypercall): nat {
    Load32(x.memory, FieldPtr(x, abi, abi.layout(h).fd))
  }

  function BufPtr(x: VmExit, abi: Abi, h: Hypercall): u64 {
    Load64(x.memory, FieldPtr(x, abi, abi.layout(h).buf))
  }

  function BufLen(x: VmExit, abi: Abi, h: Hypercall): u64 {
    Load64(x.memory, FieldPtr(x, abi, abi.layout(h).len))
  }

  /** The bytes a structure's `buf` and `len` describe. */
  function Buf(x: VmExit, abi: Abi, h: Hypercall): seq<u8> {
    Fetch(x.memory, GuestPtr(abi.start, BufPtr(x, abi, h)), BufLen(x, abi, h))
  }

  /** The result field, and the value stored there. */
  function Answer(x: VmExit, abi: Abi, h: Hypercall, value: u64): Store {
    Store(FieldPtr(x, abi, abi.layout(h).result), value)
  }

  predicate Halts(x: VmExit, abi: Abi) {
    Classify(x.res, abi) == Halt
  }

  predicate Buffered(x: VmExit, abi: Abi) {
    match Classify(x.res, abi)
    case Call(SerialWriteByte) => true
    case Call(SerialWriteBuffer) => true
    case Call(FileWrite) => Fd(x, abi, FileWrite) == 1 || Fd(x, abi, FileWrite) == 2
    case _ => false
  }

  predicate Transmits(x: VmExit, abi: Abi) {
    Classify(x.res, abi) == Output(SERIAL_BASE)
  }

  /** The bytes an exit transmits, by any of the four ways. */
  function Sent(x: VmExit, abi: Abi): seq<u8> {
    if Transmits(x, abi) then [x.regs.gprs.rax % 0x100]
    else if !Buffered(x, abi) then []
    else if Classify(x.res, abi) == Call(SerialWriteByte) then [x.regs.gprs.rdi % 0x100]
    else Buf(x, abi, Classify(x.res, abi).h)
  }

  /** The chunks that makes: always one for a buffer, none for a byte that is dropped. */
  function ChunksOf(x: VmExit, abi: Abi, s: State): seq<seq<u8>> {
    var out := Filter(s, Sent(x, abi));
    if Buffered(x, abi) then [out] else ByteChunks(out)
  }

  function LineAfter(x: VmExit, abi: Abi, line: Line): Line {
    match Classify(x.res, abi)
    case Output(port) => if IsSerial(port) then WriteLine(line, port - SERIAL_BASE, x.regs.gprs.rax % 0x100) else line
    case _ => line.(ansi := After(line.ansi, Sent(x, abi)))
  }

  function InputValue(x: VmExit, abi: Abi, line: Line): u8 {
    match Classify(x.res, abi)
    case Input(port) => if IsSerial(port) then ReadLine(line, port - SERIAL_BASE) else 0
    case _ => 0
  }

  /** The host's -1 in a 64-bit result. */
  const FAILED: u64 := U64_MAX

  function Reply(x: VmExit, abi: Abi): Option<Store> {
    match Classify(x.res, abi)
    case Call(FileWrite) =>
      Some(Answer(x, abi, FileWrite, if Buffered(x, abi) then BufLen(x, abi, FileWrite) else FAILED))
    case Call(FileRead) => Some(Answer(x, abi, FileRead, FAILED))
    case Call(FileOpen) => Some(Answer(x, abi, FileOpen, FAILED))
    case Call(FileClose) => Some(Answer(x, abi, FileClose, FAILED))
    case Call(FileLseek) => Some(Answer(x, abi, FileLseek, FAILED))
    case Call(FileUnlink) => Some(Answer(x, abi, FileUnlink, FAILED))
    case _ => None
  }

  function React(x: VmExit, abi: Abi, line: Line): Reaction {
    Reaction(AfterIo(x.regs, x.res, InputValue(x, abi, line)), Reply(x, abi))
  }

  // --- What an exit transmits and is answered -----------------------------------------------------

  /** The address of a field of the structure RDI points to. */
  function At(x: VmExit, abi: Abi, offset: u16): u64 {
    (abi.start + x.regs.gprs.rdi + offset) % WORD
  }

  /** The structure holds the guest address `b` and the length of `s`, and `s` lies at `b`. */
  ghost predicate Describes(x: VmExit, abi: Abi, h: Hypercall, b: u64, s: seq<u8>) {
    && |s| < WORD
    && Lies(x.memory, At(x, abi, abi.layout(h).buf), Encode(b, 8))
    && Lies(x.memory, At(x, abi, abi.layout(h).len), Encode(|s|, 8))
    && Lies(x.memory, (abi.start + b) % WORD, s)
  }

  lemma BufferIs(x: VmExit, abi: Abi, h: Hypercall, b: u64, s: seq<u8>)
    requires Describes(x, abi, h, b, s)
    ensures Buf(x, abi, h) == s && BufLen(x, abi, h) == |s|
  {
    hide Lies, Fetch, Encode, Load64;
    PointerIs(abi.start, x.regs.gprs.rdi, abi.layout(h).buf);
    PointerIs(abi.start, x.regs.gprs.rdi, abi.layout(h).len);
    PointerIs(abi.start, b, 0);
    LoadIs(x.memory, At(x, abi, abi.layout(h).buf), b);
    LoadIs(x.memory, At(x, abi, abi.layout(h).len), |s|);
    FetchIs(x.memory, (abi.start + b) % WORD, s);
  }

  /** SerialWriteBuffer transmits the bytes that its parameters describe. */
  lemma SerialBufferSends(x: VmExit, abi: Abi, b: u64, s: seq<u8>)
    requires Classify(x.res, abi) == Call(SerialWriteBuffer) && Describes(x, abi, SerialWriteBuffer, b, s)
    ensures Sent(x, abi) == s && Reply(x, abi) == None
  {
    hide Buf, Fd, Describes;
    BufferIs(x, abi, SerialWriteBuffer, b, s);
  }

  /** FileWrite transmits them for descriptors 1 and 2, and answers with their number; for any other
      descriptor it transmits nothing and answers -1. */
  lemma FileWriteSends(x: VmExit, abi: Abi, fd: u32, b: u64, s: seq<u8>)
    requires Classify(x.res, abi) == Call(FileWrite)
    requires Lies(x.memory, At(x, abi, abi.layout(FileWrite).fd), Encode(fd, 4))
    requires fd == 1 || fd == 2 ==> Describes(x, abi, FileWrite, b, s)
    ensures fd == 1 || fd == 2 ==>
              Sent(x, abi) == s && Reply(x, abi) == Some(Store(At(x, abi, abi.layout(FileWrite).result), |s|))
    ensures !(fd == 1 || fd == 2) ==>
              Sent(x, abi) == [] && Reply(x, abi) == Some(Store(At(x, abi, abi.layout(FileWrite).result), 0xFFFF_FFFF_FFFF_FFFF))
  {
    hide Buf, BufLen, Describes, Lies, Load32, Encode;
    PointerIs(abi.start, x.regs.gprs.rdi, abi.layout(FileWrite).fd);
    PointerIs(abi.start, x.regs.gprs.rdi, abi.layout(FileWrite).result);
    LoadIs(x.memory, At(x, abi, abi.layout(FileWrite).fd), fd);
    if fd == 1 || fd == 2 {
      BufferIs(x, abi, FileWrite, b, s);
    }
  }

  /** A byte: the low one of RDI by hypercall, the low one of RAX by OUT to the data register. */
  lemma ByteSends(x: VmExit, abi: Abi)
    ensures Classify(x.res, abi) == Call(SerialWriteByte) ==> Sent(x, abi) == [x.regs.gprs.rdi % 0x100] && Reply(x, abi) == None
    ensures Classify(x.res, abi) == Output(0x800) ==> Sent(x, abi) == [x.regs.gprs.rax % 0x100] && Reply(x, abi) == None
  {
    hide Buf, Fd;
  }

  /** The host has no files: every other file call transmits nothing and is answered with -1. */
  lemma FilesFail(x: VmExit, abi: Abi, h: Hypercall)
    requires Classify(x.res, abi) == Call(h) && h in {FileRead, FileOpen, FileClose, FileLseek, FileUnlink}
    ensures Sent(x, abi) == [] && Reply(x, abi) == Some(Store(At(x, abi, abi.layout(h).result), 0xFFFF_FFFF_FFFF_FFFF))
  {
    hide Buf, Fd, BufLen;
    PointerIs(abi.start, x.regs.gprs.rdi, abi.layout(h).result);
  }

  /** No other exit transmits or is answered. */
  lemma OthersSilent(x: VmExit, abi: Abi)
    requires match Classify(x.res, abi)
             case Call(h) => h == Exit || h == Unsupported
             case Output(port) => port != 0x800
             case _ => true
    ensures Sent(x, abi) == [] && Reply(x, abi) == None
  {
    hide Buf, Fd;
  }

  // --- Host accesses ---------------------------------------------------------------------------

  /** The access to a field of the structure RDI points to. */
  function FieldAt(x: VmExit, offset: u16, len: nat): Access {
    Access(Offset(x.regs.gprs.rdi, offset), len)
  }

  function BufAccesses(x: VmExit, abi: Abi, h: Hypercall): seq<Access> {
    var l := abi.layout(h);
    [FieldAt(x, l.buf, 8), FieldAt(x, l.len, 8), Access(BufPtr(x, abi, h), BufLen(x, abi, h))]
  }

  /** Every access to memory the loop makes for an exit, in the guest's addresses. */
  function Accesses(x: VmExit, abi: Abi): seq<Access> {
    match Classify(x.res, abi)
    case Call(SerialWriteBuffer) => BufAccesses(x, abi, SerialWriteBuffer)
    case Call(FileWrite) =>
      [FieldAt(x, abi.layout(FileWrite).fd, 4), FieldAt(x, abi.layout(FileWrite).result, 8)]
      + if Buffered(x, abi) then BufAccesses(x, abi, FileWrite) else []
    case Call(FileRead) => [FieldAt(x, abi.layout(FileRead).result, 8)]
    case Call(FileOpen) => [FieldAt(x, abi.layout(FileOpen).result, 8)]
    case Call(FileClose) => [FieldAt(x, abi.layout(FileClose).result, 8)]
    case Call(FileLseek) => [FieldAt(x, abi.layout(FileLseek).result, 8)]
    case Call(FileUnlink) => [FieldAt(x, abi.layout(FileUnlink).result, 8)]
    case _ => []
  }

  /** The guest hands over addresses of its own memory only. */
  predicate InBounds(x: VmExit, abi: Abi, size: nat) {
    forall i :: 0 <= i < |Accesses(x, abi)| ==> Bounded(Accesses(x, abi)[i], size)
  }

  /** Exactly then does every host access stay in the guest's buffer. */
  lemma InBoundsIff(x: VmExit, abi: Abi, size: nat)
    requires abi.start + size <= WORD
    ensures InBounds(x, abi, size) <==>
              forall i :: 0 <= i < |Accesses(x, abi)| ==> Within(Accesses(x, abi)[i], abi.start, size)
  {
    hide Accesses, Bounded, Within;
    forall i | 0 <= i < |Accesses(x, abi)|
      ensures Within(Accesses(x, abi)[i], abi.start, size) <==> Bounded(Accesses(x, abi)[i], size)
    {
      WithinIff(Accesses(x, abi)[i], abi.start, size);
    }
  }

  /** The access to a field is at the field's host address. */
  lemma FieldIsAccess(x: VmExit, abi: Abi, offset: u16, len: nat)
    ensures GuestPtr(abi.start, FieldAt(x, offset, len).gpa) == FieldPtr(x, abi, offset)
  {
    OffsetTwice(abi.start, x.regs.gprs.rdi, offset);
  }

  /** A guest that keeps the bounds gets its results in its own memory. */
  lemma ReplyWithin(x: VmExit, abi: Abi, size: nat)
    requires InBounds(x, abi, size) && abi.start + size <= WORD && Reply(x, abi).Some?
    ensures var a := Reply(x, abi).value.address; abi.start <= a && a + 8 <= abi.start + size
  {
    var h := Classify(x.res, abi).h;
    var access := FieldAt(x, abi.layout(h).result, 8);
    assert access in Accesses(x, abi) by { ResultAccess(x, abi); }
    hide Accesses, Classify, FieldAt, FieldPtr;
    WithinIff(access, abi.start, size);
    FieldIsAccess(x, abi, abi.layout(h).result, 8);
    ResultAddress(x, abi);
  }

  lemma ResultAccess(x: VmExit, abi: Abi)
    requires Reply(x, abi).Some?
    ensures Classify(x.res, abi).Call? && FieldAt(x, abi.layout(Classify(x.res, abi).h).result, 8) in Accesses(x, abi)
    ensures FieldAt(x, abi.layout(Classify(x.res, abi).h).result, 8).len == 8
  {
    hide Buffered, BufAccesses, Answer, Offset;
    var h := Classify(x.res, abi).h;
    if h == FileWrite {
      assert Accesses(x, abi)[1] == FieldAt(x, abi.layout(h).result, 8);
    } else {
      assert Accesses(x, abi)[0] == FieldAt(x, abi.layout(h).result, 8);
    }
  }

  lemma ResultAddress(x: VmExit, abi: Abi)
    requires Reply(x, abi).Some?
    ensures Classify(x.res, abi).Call?
    ensures Reply(x, abi).value.address == FieldPtr(x, abi, abi.layout(Classify(x.res, abi).h).result)
  {
    hide Buffered, FieldPtr, BufLen;
  }

  /** Nothing outside its buffer reaches such a guest: what an exit transmits and is answered
      depends on no other byte of host memory. */
  lemma BufferDecides(x: VmExit, m: HostMemory, abi: Abi, size: nat)
    requires InBounds(x, abi, size) && abi.start + size <= WORD && SameBuffer(x.memory, m, abi.start, size)
    ensures var x' := x.(memory := m); Sent(x', abi) == Sent(x, abi) && Reply(x', abi) == Reply(x, abi)
  {
    hide Bounded, Within, Fetch, Offset, FieldAt, SameBuffer;
    if Classify(x.res, abi) == Call(SerialWriteBuffer) {
      BufAgrees(x, m, abi, size, SerialWriteBuffer, 0);
    } else if Classify(x.res, abi) == Call(FileWrite) {
      assert Bounded(Accesses(x, abi)[0], size);
      FieldAgrees(x, m, abi, size, abi.layout(FileWrite).fd, 4);
      if Buffered(x, abi) {
        BufAgrees(x, m, abi, size, FileWrite, 2);
      }
    }
  }

  lemma BufAgrees(x: VmExit, m: HostMemory, abi: Abi, size: nat, h: Hypercall, i: nat)
    requires abi.start + size <= WORD && SameBuffer(x.memory, m, abi.start, size)
    requires InBounds(x, abi, size) && i + 3 <= |Accesses(x, abi)| && Accesses(x, abi)[i..i + 3] == BufAccesses(x, abi, h)
    ensures var x' := x.(memory := m); Buf(x', abi, h) == Buf(x, abi, h) && BufLen(x', abi, h) == BufLen(x, abi, h)
  {
    hide Accesses, Within, Fetch, Offset, SameBuffer, Bounded;
    var b := BufAccesses(x, abi, h);
    assert Bounded(Accesses(x, abi)[i], size) && Bounded(Accesses(x, abi)[i + 1], size) && Bounded(Accesses(x, abi)[i + 2], size);
    assert b[0] == Accesses(x, abi)[i] && b[1] == Accesses(x, abi)[i + 1] && b[2] == Accesses(x, abi)[i + 2];
    FieldAgrees(x, m, abi, size, abi.layout(h).buf, 8);
    FieldAgrees(x, m, abi, size, abi.layout(h).len, 8);
    RangeAgrees(x.memory, m, b[2], abi.start, size);
  }

  lemma FieldAgrees(x: VmExit, m: HostMemory, abi: Abi, size: nat, offset: u16, len: nat)
    requires abi.start + size <= WORD && SameBuffer(x.memory, m, abi.start, size) && Bounded(FieldAt(x, offset, len), size)
    ensures Fetch(m, FieldPtr(x, abi, offset), len) == Fetch(x.memory, FieldPtr(x, abi, offset), len)
  {
    hide Fetch, SameBuffer, Bounded;
    FieldIsAccess(x, abi, offset, len);
    RangeAgrees(x.memory, m, FieldAt(x, offset, len), abi.start, size);
  }

  lemma RangeAgrees(m: HostMemory, m': HostMemory, a: Access, start: u64, size: nat)
    requires start + size <= WORD && SameBuffer(m, m', start, size) && Bounded(a, size)
    ensures Fetch(m', GuestPtr(start, a.gpa), a.len) == Fetch(m, GuestPtr(start, a.gpa), a.len)
  {
    hide Fetch, SameBuffer;
    WithinIff(a, start, size);
    SameFetch(m, m', start, size, GuestPtr(start, a.gpa), a.len);
  }

  // --- Whole runs ------------------------------------------------------------------------------

  /** How many exits are handled before the run ends. */
  function StopAt(trace: seq<VmExit>, abi: Abi): (n: nat)
    ensures n <= |trace|
    ensures n < |trace| ==> Halts(trace[n], abi)
    ensures forall i :: 0 <= i < n ==> !Halts(trace[i], abi)
  {
    if trace == [] || Halts(trace[0], abi) then 0 else 1 + StopAt(trace[1..], abi)
  }

  function AllSent(trace: seq<VmExit>, abi: Abi): seq<u8> {
    if trace == [] || Halts(trace[0], abi) then [] else Sent(trace[0], abi) + AllSent(trace[1..], abi)
  }

  function AllChunks(trace: seq<VmExit>, abi: Abi, s: State): seq<seq<u8>>
    decreases |trace|
  {
    if trace == [] || Halts(trace[0], abi) then []
    else ChunksOf(trace[0], abi, s) + AllChunks(trace[1..], abi, After(s, Sent(trace[0], abi)))
  }

  function FinalLine(trace: seq<VmExit>, abi: Abi, line: Line): Line
    decreases |trace|
  {
    if trace == [] || Halts(trace[0], abi) then line
    else FinalLine(trace[1..], abi, LineAfter(trace[0], abi, line))
  }

  function Reactions(trace: seq<VmExit>, abi: Abi, line: Line): seq<Reaction>
    decreases |trace|
  {
    if trace == [] || Halts(trace[0], abi) then []
    else [React(trace[0], abi, line)] + Reactions(trace[1..], abi, LineAfter(trace[0], abi, line))
  }

  lemma AnsiAfter(x: VmExit, abi: Abi, line: Line)
    ensures LineAfter(x, abi, line).ansi == After(line.ansi, Sent(x, abi))
  {
    if Transmits(x, abi) {
      var b: u8 := x.regs.gprs.rax % 0x100;
      assert After(line.ansi, [b]) == Next(line.ansi, b);
    }
  }

  /** Over any trace, what the consumer receives is the filter applied once to all bytes
      transmitted, however they were transmitted and cut into chunks. */
  lemma {:induction false} WholeStream(trace: seq<VmExit>, abi: Abi, line: Line)
    ensures Flatten(AllChunks(trace, abi, line.ansi)) == Filter(line.ansi, AllSent(trace, abi))
    ensures FinalLine(trace, abi, line).ansi == After(line.ansi, AllSent(trace, abi))
    decreases |trace|
  {
    if trace != [] && !Halts(trace[0], abi) {
      hide Sent, LineAfter, ChunksOf;
      var sent, rest := Sent(trace[0], abi), AllSent(trace[1..], abi);
      WholeStream(trace[1..], abi, LineAfter(trace[0], abi, line));
      AnsiAfter(trace[0], abi, line);
      ChunksAre(trace[0], abi, line.ansi);
      FlattenConcat(ChunksOf(trace[0], abi, line.ansi), AllChunks(trace[1..], abi, After(line.ansi, sent)));
      Chunked(line.ansi, sent, rest);
    }
  }

  lemma ChunksAre(x: VmExit, abi: Abi, s: State)
    ensures Flatten(ChunksOf(x, abi, s)) == Filter(s, Sent(x, abi))
  {
    hide Sent, Buffered, Filter;
    var out := Filter(s, Sent(x, abi));
    assert Flatten([out]) == out + Flatten([]);
  }

  /** The guest hands over `s` with exit `x`, by one of the four ways. */
  ghost predicate HandsOver(x: VmExit, abi: Abi, s: seq<u8>) {
    match Classify(x.res, abi)
    case Output(port) => s == if port == 0x800 then [x.regs.gprs.rax % 0x100] else []
    case Call(SerialWriteByte) => s == [x.regs.gprs.rdi % 0x100]
    case Call(SerialWriteBuffer) => exists b: u64 :: Describes(x, abi, SerialWriteBuffer, b, s)
    case Call(FileWrite) => WritesFile(x, abi, s)
    case _ => s == []
  }

  ghost predicate WritesFile(x: VmExit, abi: Abi, s: seq<u8>) {
    exists fd: u32, b: u64 ::
      && Lies(x.memory, At(x, abi, abi.layout(FileWrite).fd), Encode(fd, 4))
      && if fd == 1 || fd == 2 then Describes(x, abi, FileWrite, b, s) else s == []
  }

  lemma HandedOverIsSent(x: VmExit, abi: Abi, s: seq<u8>)
    requires HandsOver(x, abi, s)
    ensures Sent(x, abi) == s
  {
    hide Describes, Lies, Encode, Buf, Fd;
    match Classify(x.res, abi)
    case Call(SerialWriteBuffer) =>
      var b: u64 :| Describes(x, abi, SerialWriteBuffer, b, s);
      SerialBufferSends(x, abi, b, s);
    case Call(FileWrite) =>
      var fd: u32, b: u64 :|
        && Lies(x.memory, At(x, abi, abi.layout(FileWrite).fd), Encode(fd, 4))
        && if fd == 1 || fd == 2 then Describes(x, abi, FileWrite, b, s) else s == [];
      FileWriteSends(x, abi, fd, b, s);
    case _ =>
  }

  /** Over any trace that does not end the run, what the consumer receives is the filter applied once to
      the bytes the guest handed over, in order. */
  lemma {:induction false} Transcript(trace: seq<VmExit>, abi: Abi, line: Line, ss: seq<seq<u8>>)
    requires |ss| == |trace| && forall k :: 0 <= k < |trace| ==> !Halts(trace[k], abi) && HandsOver(trace[k], abi, ss[k])
    ensures Flatten(AllChunks(trace, abi, line.ansi)) == Filter(line.ansi, Flatten(ss))
  {
    WholeStream(trace, abi, line);
    AllHandedOver(trace, abi, ss);
  }

  lemma {:induction false} AllHandedOver(trace: seq<VmExit>, abi: Abi, ss: seq<seq<u8>>)
    requires |ss| == |trace| && forall k :: 0 <= k < |trace| ==> !Halts(trace[k], abi) && HandsOver(trace[k], abi, ss[k])
    ensures AllSent(trace, abi) == Flatten(ss)
    decreases |trace|
  {
    hide Halts, HandsOver, Sent;
    if trace != [] {
      HandedOverIsSent(trace[0], abi, ss[0]);
      AllHandedOver(trace[1..], abi, ss[1..]);
    }
  }

  /** Only the bytes matter: not the ports, hypercalls or chunks that carried them. */
  lemma ChunkingIrrelevant(a: seq<VmExit>, b: seq<VmExit>, abi: Abi, s: State)
    requires AllSent(a, abi) == AllSent(b, abi)
    ensures Flatten(AllChunks(a, abi, s)) == Flatten(AllChunks(b, abi, s))
  {
    WholeStream(a, abi, Line(0, 0, s));
    WholeStream(b, abi, Line(0, 0, s));
  }

  /** Nothing is emitted, answered or changed after the exit that ends the run. */
  lemma {:induction false} NothingAfterHalt(trace: seq<VmExit>, more: seq<VmExit>, abi: Abi, line: Line)
    requires StopAt(trace, abi) < |trace|
    ensures StopAt(trace + more, abi) == StopAt(trace, abi)
    ensures AllChunks(trace + more, abi, line.ansi) == AllChunks(trace, abi, line.ansi)
    ensures FinalLine(trace + more, abi, line) == FinalLine(trace, abi, line)
    ensures Reactions(trace + more, abi, line) == Reactions(trace, abi, line)
    decreases |trace|
  {
    hide Halts, ChunksOf, LineAfter, React, Sent, After;
    if !Halts(trace[0], abi) {
      NothingAfterHalt(trace[1..], more, abi, LineAfter(trace[0], abi, line));
      AnsiAfter(trace[0], abi, line);
      assert (trace + more)[1..] == trace[1..] + more && (trace + more)[0] == trace[0];
    }
  }

  // --- Reading back ----------------------------------------------------------------------------

  /** The two registers the guest can read back. */
  predicate IsStored(port: u16) {
    port == 0x804 || port == 0x807
  }

  predicate Untouched(trace: seq<VmExit>, abi: Abi, port: u16) {
    forall i :: 0 <= i < |trace| ==> Classify(trace[i].res, abi) != Output(port)
  }

  lemma {:induction false} Retained(trace: seq<VmExit>, abi: Abi, line: Line, port: u16)
    requires IsStored(port) && Untouched(trace, abi, port)
    ensures ReadLine(FinalLine(trace, abi, line), port - SERIAL_BASE) == ReadLine(line, port - SERIAL_BASE)
    decreases |trace|
  {
    if trace != [] && !Halts(trace[0], abi) {
      assert Classify(trace[0].res, abi) != Output(port);
      hide Classify, Sent, After, Halts;
      Retained(trace[1..], abi, LineAfter(trace[0], abi, line), port);
    }
  }

  /** Read-back: an IN from one of them returns the byte of the latest OUT to it, whatever other
      exits lie between, and leaves the other bytes of RAX. */
  lemma {:induction false} ReadBack(trace: seq<VmExit>, abi: Abi, line: Line, j: nat, x: VmExit, port: u16)
    requires IsStored(port) && StopAt(trace, abi) == |trace|
    requires j < |trace| && Classify(trace[j].res, abi) == Output(port) && Untouched(trace[j + 1..], abi, port)
    requires Classify(x.res, abi) == Input(port)
    ensures var rax := React(x, abi, FinalLine(trace, abi, line)).regs.gprs.rax;
            rax % 0x100 == trace[j].regs.gprs.rax % 0x100 && rax / 0x100 == x.regs.gprs.rax / 0x100
    decreases |trace|
  {
    if j == 0 {
      Retained(trace[1..], abi, LineAfter(trace[0], abi, line), port);
    } else {
      hide Classify, Sent, After, React, LineAfter;
      assert trace[j + 1..] == trace[1..][j..];
      ReadBack(trace[1..], abi, LineAfter(trace[0], abi, line), j - 1, x, port);
    }
  }

  /** A polling driver always finds the transmitter empty and no input pending: an IN from the
      line-status register reads so after any trace. */
  lemma AlwaysReady(trace: seq<VmExit>, abi: Abi, line: Line, x: VmExit)
    requires Classify(x.res, abi) == Input(0x805)
    ensures var rax := React(x, abi, FinalLine(trace, abi, line)).regs.gprs.rax;
            Bit(rax % 0x100, 5) && Bit(rax % 0x100, 6) && !Bit(rax % 0x100, 0) && rax / 0x100 == x.regs.gprs.rax / 0x100
  {
    hide FinalLine, Sent;
    assert Bit(LSR_TX_READY, 5) && Bit(LSR_TX_READY, 6) && !Bit(LSR_TX_READY, 0);
  }

  /** The modem is always connected: carrier, data set ready and clear to send, bits 7, 5 and 4. */
  lemma AlwaysConnected(trace: seq<VmExit>, abi: Abi, line: Line, x: VmExit)
    requires Classify(x.res, abi) == Input(0x806)
    ensures React(x, abi, FinalLine(trace, abi, line)).regs.gprs.rax % 0x100 == 0x80 + 0x20 + 0x10
  {
    hide FinalLine, Sent;
  }

  /** Every other port reads as zero, and leaves the other bytes of RAX. */
  lemma OthersReadZero(abi: Abi, line: Line, x: VmExit, port: u16)
    requires Classify(x.res, abi) == Input(port) && !(0x804 <= port <= 0x807)
    ensures var rax := React(x, abi, line).regs.gprs.rax; rax % 0x100 == 0 && rax / 0x100 == x.regs.gprs.rax / 0x100
  {
    hide Sent;
  }

  // --- The loop --------------------------------------------------------------------------------

  class Cpu {
    const uart: Uart
    /** What has been handed back to the guest, exit by exit. */
    var reactions: seq<Reaction>

    constructor (uart: Uart)
      ensures this.uart == uart && reactions == []
    {
      this.uart := uart;
      reactions := [];
    }

    /** The hypercalls other than Exit. */
    method Hyper(h: Hypercall, x: VmExit, abi: Abi) returns (reply: Option<Store>)
      requires Classify(x.res, abi) == Call(h) && h != Exit
      modifies uart
      ensures uart.View() == LineAfter(x, abi, old(uart.View()))
      ensures uart.sink == if old(uart.sink).Some?
                           then Some(old(uart.sink).value + ChunksOf(x, abi, old(uart.ansi))) else None
      ensures reply == Reply(x, abi)
    {
      hide Buf, Fd, BufLen, Answer;
      reply := None;
      NoChunk(uart.sink);
      if h == SerialWriteByte {
        var byte: u8 := x.regs.gprs.rdi % 0x100;
        uart.WriteBuffer([byte]);
      } else if h == SerialWriteBuffer {
        uart.WriteBuffer(Buf(x, abi, h));
      } else if h == FileWrite {
        var fd := Fd(x, abi, h);
        if fd == 1 || fd == 2 {
          uart.WriteBuffer(Buf(x, abi, h));
          reply := Some(Answer(x, abi, h, BufLen(x, abi, h)));
        } else {
          reply := Some(Answer(x, abi, h, FAILED));
        }
      } else if h.FileRead? || h.FileOpen? || h.FileClose? || h.FileLseek? || h.FileUnlink? {
        reply := Some(Answer(x, abi, h, FAILED));
      }
    }

    /** One exit that is an I/O instruction; `stop` when it ends the run. */
    method Io(q: u64, x: VmExit, abi: Abi) returns (stop: bool)
      requires x.res == Ok(IoInstruction(q))
      modifies this, uart
      ensures stop == Halts(x, abi)
      ensures stop ==> reactions == old(reactions) && uart.View() == old(uart.View()) && uart.sink == old(uart.sink)
      ensures !stop ==> uart.View() == LineAfter(x, abi, old(uart.View()))
      ensures !stop ==> uart.sink == if old(uart.sink).Some?
                                     then Some(old(uart.sink).value + ChunksOf(x, abi, old(uart.ansi))) else None
      ensures !stop ==> reactions == old(reactions) + [React(x, abi, old(uart.View()))]
    {
      var isIn, port := IsIn(q), Port(q);
      stop := false;
      if !isIn && IsExitPort(port) {
        stop := true;
        return;
      }
      var call := abi.decode(port);
      if !isIn && call.Some? {
        if call.value == Exit {
          stop := true;
          return;
        }
        var reply := Hyper(call.value, x, abi);
        reactions := reactions + [Reaction(x.regs, reply)];
        return;
      }
      var serial := SERIAL_BASE <= port < SERIAL_BASE + 8;
      var regs, rax := x.regs, x.regs.gprs.rax;
      if isIn {
        var value: u8 := 0;
        if serial {
          value := uart.Read(port - SERIAL_BASE);
        }
        regs := regs.(gprs := regs.gprs.(rax := SetLowByte(rax, value)));
        NoChunk(uart.sink);
      } else if serial {
        var byte: u8 := rax % 0x100;
        ghost var before := uart.sink;
        OneByte(uart.ansi, byte);
        var _ := uart.Write(port - SERIAL_BASE, byte);
        NoChunk(before);
      } else {
        NoChunk(uart.sink);
      }
      reactions := reactions + [Reaction(regs, None)];
    }

    /** One return of the backend. */
    method Handle(x: VmExit, abi: Abi) returns (stop: bool)
      modifies this, uart
      ensures stop == Halts(x, abi)
      ensures stop ==> reactions == old(reactions) && uart.View() == old(uart.View()) && uart.sink == old(uart.sink)
      ensures !stop ==> uart.View() == LineAfter(x, abi, old(uart.View()))
      ensures !stop ==> uart.sink == if old(uart.sink).Some?
                                     then Some(old(uart.sink).value + ChunksOf(x, abi, old(uart.ansi))) else None
      ensures !stop ==> reactions == old(reactions) + [React(x, abi, old(uart.View()))]
    {
      match x.res
      case Ok(IoInstruction(q)) => stop := Io(q, x, abi);
      case Ok(Success) =>
        stop := false;
        NoChunk(uart.sink);
        reactions := reactions + [Reaction(x.regs, None)];
      case _ => stop := true;
    }

    /** `run`, over a finite trace of backend returns: how many were handled, and the result if
        the run ended. */
    method Run(trace: seq<VmExit>, abi: Abi) returns (handled: nat, ended: Option<bool>)
      modifies this, uart
      ensures handled == StopAt(trace, abi)
      ensures ended == if handled == |trace| then None else Some(trace[handled].res.Ok?)
      ensures uart.View() == FinalLine(trace, abi, old(uart.View()))
      ensures uart.sink == if old(uart.sink).Some?
                           then Some(old(uart.sink).value + AllChunks(trace, abi, old(uart.ansi))) else None
      ensures reactions == old(reactions) + Reactions(trace, abi, old(uart.View()))
      ensures old(uart.sink).Some? ==> uart.Streamed() == old(uart.Streamed()) + Filter(old(uart.ansi), AllSent(trace, abi))
    {
      hide Classify, Halts, ChunksOf, LineAfter, React, Sent, StopAt, AllChunks, Reactions, FinalLine, Flatten, Filter, AllSent;
      handled, ended := 0, None;
      assert trace[0..] == trace;
      ghost var sink0, line0, r0 := uart.sink, uart.View(), reactions;
      NoChunk(sink0);
      while handled < |trace|
        invariant handled <= |trace|
        invariant StopAt(trace, abi) == handled + StopAt(trace[handled..], abi)
        invariant FinalLine(trace[handled..], abi, uart.View()) == FinalLine(trace, abi, line0)
        invariant sink0.Some? == uart.sink.Some?
        invariant sink0.Some? ==>
                    Chunks(uart.sink) + AllChunks(trace[handled..], abi, uart.ansi)
                    == Chunks(sink0) + AllChunks(trace, abi, line0.ansi)
        invariant reactions + Reactions(trace[handled..], abi, uart.View()) == r0 + Reactions(trace, abi, line0)
      {
        var x := trace[handled];
        assert trace[handled..][1..] == trace[handled + 1..];
        if Halts(x, abi) {
          Over(trace[handled..], abi, uart.View(), Chunks(uart.sink), reactions);
        } else {
          Round(trace[handled..], abi, uart.View(), Chunks(uart.sink), reactions);
        }
        var stop := Handle(x, abi);
        if stop {
          ended := Some(x.res.Ok?);
          break;
        }
        handled := handled + 1;
      }
      Over(trace[handled..], abi, uart.View(), Chunks(uart.sink), reactions);
      FlattenConcat(Chunks(sink0), AllChunks(trace, abi, line0.ansi));
      WholeStream(trace, abi, line0);
    }
  }

  /** A run that halts, or has no more exits, adds nothing. */
  lemma Over(rest: seq<VmExit>, abi: Abi, line: Line, sent: seq<seq<u8>>, done: seq<Reaction>)
    requires rest == [] || Halts(rest[0], abi)
    ensures StopAt(rest, abi) == 0 && FinalLine(rest, abi, line) == line
    ensures sent + AllChunks(rest, abi, line.ansi) == sent && done + Reactions(rest, abi, line) == done
  {
    hide Halts;
  }

  /** What is left to do before and after one more exit. */
  lemma Round(rest: seq<VmExit>, abi: Abi, line: Line, sent: seq<seq<u8>>, done: seq<Reaction>)
    requires rest != [] && !Halts(rest[0], abi)
    ensures var x, next := rest[0], LineAfter(rest[0], abi, line);
            && StopAt(rest, abi) == 1 + StopAt(rest[1..], abi)
            && FinalLine(rest, abi, line) == FinalLine(rest[1..], abi, next)
            && sent + AllChunks(rest, abi, line.ansi)
               == (sent + ChunksOf(x, abi, line.ansi)) + AllChunks(rest[1..], abi, next.ansi)
            && done + Reactions(rest, abi, line)
               == (done + [React(x, abi, line)]) + Reactions(rest[1..], abi, next)
  {
    hide Halts, ChunksOf, LineAfter, React, Sent;
    AnsiAfter(rest[0], abi, line);
    var next := LineAfter(rest[0], abi, line);
    Reassociate(sent, ChunksOf(rest[0], abi, line.ansi), AllChunks(rest[1..], abi, next.ansi));
    Reassociate(done, [React(rest[0], abi, line)], Reactions(rest[1..], abi, next));
  }

  lemma Reassociate<T>(a: seq<T>, b: seq<T>, c: seq<T>)
    ensures a + (b + c) == (a + b) + c
  {
  }

  function Chunks(sink: Option<seq<seq<u8>>>): seq<seq<u8>> {
    if sink.Some? then sink.value else []
  }

  lemma NoChunk(sink: Option<seq<seq<u8>>>)
    ensures sink.Some? ==> sink.value + [] == sink.value
  {
  }

  lemma OneByte(s: State, b: u8)
    ensures Filter(s, [b]) == Emit(s, b) && After(s, [b]) == Next(s, b)
  {
    assert [b][1..] == [];
  }
}
