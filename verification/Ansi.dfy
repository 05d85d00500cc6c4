/** The escape stripper of the serial port: a three-state transducer, and the token grammar
    it implements. Control sequences are those of section 5.4 of ECMA-48. */
module Ansi {
  import opened Bits

  datatype State = Normal | Esc | Csi

  const ESC: u8 := 0x1B
  const BRACKET: u8 := 0x5B

  /** What passes: printable bytes and newline, carriage return and tab. */
  predicate IsText(b: u8) {
    b == 0x0A || b == 0x0D || b == 0x09 || b >= 0x20
  }

  predicate IsFinal(b: u8) {
    0x40 <= b <= 0x7E
  }

  function Next(s: State, b: u8): State {
    match s
    case Normal => if b == ESC then Esc else Normal
    case Esc => if b == BRACKET then Csi else Normal
    case Csi => if IsFinal(b) then Normal else Csi
  }

  function Emit(s: State, b: u8): seq<u8> {
    if s == Normal && IsText(b) then [b] else []
  }

  /** The state after `bytes`, and what is let through. */
  function After(s: State, bytes: seq<u8>): State
    decreases |bytes|
  {
    if bytes == [] then s else After(Next(s, bytes[0]), bytes[1..])
  }

  function Filter(s: State, bytes: seq<u8>): seq<u8>
    decreases |bytes|
  {
    if bytes == [] then [] else Emit(s, bytes[0]) + Filter(Next(s, bytes[0]), bytes[1..])
  }

  lemma Regroup(a: seq<u8>, b: seq<u8>, c: seq<u8>)
    ensures a + (b + c) == a + b + c
  {
  }

  /** Bytes can be fed in any chunks. */
  lemma {:induction false} Chunked(s: State, a: seq<u8>, b: seq<u8>)
    ensures Filter(s, a + b) == Filter(s, a) + Filter(After(s, a), b)
    ensures After(s, a + b) == After(After(s, a), b)
    decreases |a|
  {
    hide Emit, Next;
    if a == [] {
      assert a + b == b;
    } else {
      var n := Next(s, a[0]);
      assert (a + b)[0] == a[0] && (a + b)[1..] == a[1..] + b;
      Chunked(n, a[1..], b);
      Regroup(Emit(s, a[0]), Filter(n, a[1..]), Filter(After(n, a[1..]), b));
    }
  }

  // --- The grammar ---------------------------------------------------------------------------

  /** A byte shown as it is; a dropped control character; ESC and one byte; ESC, `[`, and a
      body up to a final byte. */
  datatype Token = Text(b: u8) | Control(b: u8) | Escape(b: u8) | Sequence(body: seq<u8>, final: u8)

  /** What may be unfinished at the end. */
  datatype Tail = Complete | AfterEsc | InCsi(body: seq<u8>)

  datatype Parsed = Parsed(tokens: seq<Token>, tail: Tail)

  predicate Inner(body: seq<u8>) {
    forall i :: 0 <= i < |body| ==> !IsFinal(body[i])
  }

  predicate WellFormed(t: Token) {
    match t
    case Text(b) => IsText(b)
    case Control(b) => !IsText(b) && b != ESC
    case Escape(b) => b != BRACKET
    case Sequence(body, final) => Inner(body) && IsFinal(final)
  }

  predicate AllWellFormed(p: Parsed) {
    && (forall i :: 0 <= i < |p.tokens| ==> WellFormed(p.tokens[i]))
    && (p.tail.InCsi? ==> Inner(p.tail.body))
  }

  function Bytes(t: Token): seq<u8> {
    match t
    case Text(b) => [b]
    case Control(b) => [b]
    case Escape(b) => [ESC, b]
    case Sequence(body, final) => [ESC, BRACKET] + body + [final]
  }

  function TailBytes(t: Tail): seq<u8> {
    match t
    case Complete => []
    case AfterEsc => [ESC]
    case InCsi(body) => [ESC, BRACKET] + body
  }

  function Unparse(tokens: seq<Token>, tail: Tail): seq<u8> {
    if tokens == [] then TailBytes(tail) else Bytes(tokens[0]) + Unparse(tokens[1..], tail)
  }

  function TailState(t: Tail): State {
    match t
    case Complete => Normal
    case AfterEsc => Esc
    case InCsi(_) => Csi
  }

  /** The text of a token list, in order. */
  function Shown(tokens: seq<Token>): seq<u8> {
    if tokens == [] then [] else (if tokens[0].Text? then [tokens[0].b] else []) + Shown(tokens[1..])
  }

  // --- Parsing -------------------------------------------------------------------------------

  function Cons(t: Token, p: Parsed): Parsed {
    Parsed([t] + p.tokens, p.tail)
  }

  function Parse(bytes: seq<u8>): Parsed
    decreases |bytes|
  {
    if bytes == [] then Parsed([], Complete)
    else if bytes[0] != ESC then
      Cons(if IsText(bytes[0]) then Text(bytes[0]) else Control(bytes[0]), Parse(bytes[1..]))
    else if |bytes| == 1 then Parsed([], AfterEsc)
    else if bytes[1] != BRACKET then Cons(Escape(bytes[1]), Parse(bytes[2..]))
    else ParseCsi([], bytes[2..])
  }

  function ParseCsi(body: seq<u8>, bytes: seq<u8>): Parsed
    decreases |bytes|
  {
    if bytes == [] then Parsed([], InCsi(body))
    else if IsFinal(bytes[0]) then Cons(Sequence(body, bytes[0]), Parse(bytes[1..]))
    else ParseCsi(body + [bytes[0]], bytes[1..])
  }

  /** Every byte string has a decomposition into well-formed tokens and a tail ... */
  lemma {:induction false} ParseSplits(bytes: seq<u8>)
    ensures AllWellFormed(Parse(bytes)) && Unparse(Parse(bytes).tokens, Parse(bytes).tail) == bytes
    decreases |bytes|
  {
    hide IsFinal, Unparse;
    if bytes == [] {
      UnparseTail(Complete);
    } else if bytes[0] != ESC {
      ParseSplits(bytes[1..]);
      UnparseCons(if IsText(bytes[0]) then Text(bytes[0]) else Control(bytes[0]), Parse(bytes[1..]));
      assert bytes == [bytes[0]] + bytes[1..];
    } else if |bytes| == 1 {
      UnparseTail(AfterEsc);
    } else if bytes[1] != BRACKET {
      ParseSplits(bytes[2..]);
      UnparseCons(Escape(bytes[1]), Parse(bytes[2..]));
      assert bytes == [ESC, bytes[1]] + bytes[2..];
    } else {
      ParseCsiSplits([], bytes[2..]);
      assert bytes == [ESC, BRACKET] + [] + bytes[2..];
    }
  }

  lemma {:induction false} ParseCsiSplits(body: seq<u8>, bytes: seq<u8>)
    requires Inner(body)
    ensures var p := ParseCsi(body, bytes);
            AllWellFormed(p) && Unparse(p.tokens, p.tail) == [ESC, BRACKET] + body + bytes
    decreases |bytes|
  {
    hide IsFinal, IsText, Unparse;
    if bytes == [] {
      UnparseTail(InCsi(body));
      assert [ESC, BRACKET] + body + [] == [ESC, BRACKET] + body;
    } else if IsFinal(bytes[0]) {
      ParseSplits(bytes[1..]);
      UnparseCons(Sequence(body, bytes[0]), Parse(bytes[1..]));
      MoveOne(body, bytes);
    } else {
      ParseCsiSplits(body + [bytes[0]], bytes[1..]);
      MoveOne(body, bytes);
    }
  }

  lemma UnparseTail(tail: Tail)
    ensures Unparse([], tail) == TailBytes(tail)
  {
  }

  lemma MoveOne(body: seq<u8>, bytes: seq<u8>)
    requires bytes != []
    ensures [ESC, BRACKET] + body + bytes == [ESC, BRACKET] + (body + [bytes[0]]) + bytes[1..]
    ensures [ESC, BRACKET] + body + bytes == [ESC, BRACKET] + body + [bytes[0]] + bytes[1..]
  {
  }

  lemma UnparseCons(t: Token, p: Parsed)
    requires WellFormed(t) && AllWellFormed(p)
    ensures AllWellFormed(Cons(t, p))
    ensures Unparse(Cons(t, p).tokens, p.tail) == Bytes(t) + Unparse(p.tokens, p.tail)
  {
    assert Cons(t, p).tokens[1..] == p.tokens;
  }

  /** ... and only one: parsing recovers any well-formed decomposition. */
  lemma {:induction false} ParseRecovers(tokens: seq<Token>, tail: Tail)
    requires AllWellFormed(Parsed(tokens, tail))
    ensures Parse(Unparse(tokens, tail)) == Parsed(tokens, tail)
    decreases |tokens|
  {
    if tokens == [] {
      ParseTail(tail);
    } else {
      ParseRecovers(tokens[1..], tail);
      ParseToken(tokens[0], Unparse(tokens[1..], tail));
      assert tokens == [tokens[0]] + tokens[1..];
    }
  }

  lemma ParseTail(tail: Tail)
    requires tail.InCsi? ==> Inner(tail.body)
    ensures Parse(TailBytes(tail)) == Parsed([], tail)
  {
    match tail
    case Complete =>
    case AfterEsc =>
    case InCsi(body) =>
      assert TailBytes(tail)[2..] == body;
      assert [] + body == body;
      assert body + [] == body;
      ParseInner([], body, []);
  }

  lemma ParseToken(t: Token, rest: seq<u8>)
    requires WellFormed(t)
    ensures Parse(Bytes(t) + rest) == Cons(t, Parse(rest))
  {
    var bytes := Bytes(t) + rest;
    match t
    case Text(b) => assert bytes[1..] == rest;
    case Control(b) => assert bytes[1..] == rest;
    case Escape(b) => assert bytes[2..] == rest;
    case Sequence(body, final) =>
      assert bytes[2..] == body + ([final] + rest);
      ParseInner([], body, [final] + rest);
      assert [] + body == body;
      assert ([final] + rest)[1..] == rest;
  }

  lemma {:induction false} ParseInner(done: seq<u8>, body: seq<u8>, rest: seq<u8>)
    requires Inner(body)
    ensures ParseCsi(done, body + rest) == ParseCsi(done + body, rest)
    decreases |body|
  {
    if body == [] {
      assert body + rest == rest && done + body == done;
    } else {
      assert (body + rest)[1..] == body[1..] + rest && (body + rest)[0] == body[0];
      ParseInner(done + [body[0]], body[1..], rest);
      assert done + [body[0]] + body[1..] == done + body;
    }
  }

  lemma DecompositionIsUnique(p: Parsed, q: Parsed)
    requires AllWellFormed(p) && AllWellFormed(q) && Unparse(p.tokens, p.tail) == Unparse(q.tokens, q.tail)
    ensures p == q
  {
    ParseRecovers(p.tokens, p.tail);
    ParseRecovers(q.tokens, q.tail);
  }

  // --- The transducer implements the grammar ---------------------------------------------------

  /** The output is exactly the text tokens in order, and the final state says what is left. */
  lemma FilterIsText(bytes: seq<u8>)
    ensures Filter(Normal, bytes) == Shown(Parse(bytes).tokens)
    ensures After(Normal, bytes) == TailState(Parse(bytes).tail)
  {
    ParseSplits(bytes);
    FilterUnparsed(Parse(bytes).tokens, Parse(bytes).tail);
  }

  lemma {:induction false} FilterUnparsed(tokens: seq<Token>, tail: Tail)
    requires AllWellFormed(Parsed(tokens, tail))
    ensures Filter(Normal, Unparse(tokens, tail)) == Shown(tokens)
    ensures After(Normal, Unparse(tokens, tail)) == TailState(tail)
    decreases |tokens|
  {
    if tokens == [] {
      FilterTail(tail);
    } else {
      FilterUnparsed(tokens[1..], tail);
      FilterToken(tokens[0]);
      Chunked(Normal, Bytes(tokens[0]), Unparse(tokens[1..], tail));
    }
  }

  lemma FilterTail(tail: Tail)
    requires tail.InCsi? ==> Inner(tail.body)
    ensures Filter(Normal, TailBytes(tail)) == [] && After(Normal, TailBytes(tail)) == TailState(tail)
  {
    match tail
    case Complete =>
    case AfterEsc =>
    case InCsi(body) =>
      FilterIntroducer();
      FilterInner(body);
      Chunked(Normal, [ESC, BRACKET], body);
  }

  lemma FilterToken(t: Token)
    requires WellFormed(t)
    ensures Filter(Normal, Bytes(t)) == (if t.Text? then [t.b] else []) && After(Normal, Bytes(t)) == Normal
  {
    match t
    case Text(b) =>
    case Control(b) =>
    case Escape(b) =>
      assert [ESC, b][1..] == [b];
      assert Filter(Esc, [b]) == [] && After(Esc, [b]) == Normal;
    case Sequence(body, final) =>
      FilterIntroducer();
      FilterInner(body);
      Chunked(Normal, [ESC, BRACKET], body);
      Chunked(Normal, [ESC, BRACKET] + body, [final]);
  }

  lemma FilterIntroducer()
    ensures Filter(Normal, [ESC, BRACKET]) == [] && After(Normal, [ESC, BRACKET]) == Csi
  {
    assert [ESC, BRACKET][1..] == [BRACKET] && [BRACKET][1..] == [];
    assert Filter(Esc, [BRACKET]) == [] && After(Esc, [BRACKET]) == Csi;
  }

  lemma {:induction false} FilterInner(body: seq<u8>)
    requires Inner(body)
    ensures Filter(Csi, body) == [] && After(Csi, body) == Csi
  {
    if body != [] {
      FilterInner(body[1..]);
    }
  }

  /** A control sequence, byte by byte: after ESC and `[` everything is dropped up to and including the
      first byte from 0x40 to 0x7E, and with that byte the sequence is over. */
  lemma SequenceStripped(body: seq<u8>, b: u8)
    requires forall i :: 0 <= i < |body| ==> !(0x40 <= body[i] <= 0x7E)
    ensures var bytes := [0x1B, 0x5B] + body + [b];
            Filter(Normal, bytes) == [] && After(Normal, bytes) == if 0x40 <= b <= 0x7E then Normal else Csi
  {
    FilterIntroducer();
    FilterInner(body);
    Chunked(Normal, [0x1B, 0x5B], body);
    Chunked(Normal, [0x1B, 0x5B] + body, [b]);
    assert Filter(Csi, [b]) == [] && After(Csi, [b]) == Next(Csi, b);
  }

  // --- Filtering twice -------------------------------------------------------------------------

  /** Tab, line feed, carriage return and everything from space on. */
  predicate AllText(bytes: seq<u8>) {
    forall i :: 0 <= i < |bytes| ==> bytes[i] == 0x09 || bytes[i] == 0x0A || bytes[i] == 0x0D || 0x20 <= bytes[i]
  }

  lemma {:induction false} OutputIsText(s: State, bytes: seq<u8>)
    ensures AllText(Filter(s, bytes)) && |Filter(s, bytes)| <= |bytes|
    decreases |bytes|
  {
    if bytes != [] {
      OutputIsText(Next(s, bytes[0]), bytes[1..]);
    }
  }

  /** From Normal, exactly the strings of text bytes pass unchanged. */
  lemma {:induction false} PassesIffText(bytes: seq<u8>)
    ensures Filter(Normal, bytes) == bytes <==> AllText(bytes)
  {
    OutputIsText(Normal, bytes);
    if bytes != [] && AllText(bytes) {
      PassesIffText(bytes[1..]);
      assert bytes == [bytes[0]] + bytes[1..];
    }
  }

  lemma Idempotent(s: State, bytes: seq<u8>)
    ensures Filter(Normal, Filter(s, bytes)) == Filter(s, bytes)
  {
    OutputIsText(s, bytes);
    PassesIffText(Filter(s, bytes));
  }
}
