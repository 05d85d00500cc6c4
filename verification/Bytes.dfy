/** Little-endian words in byte memory. */
module Bytes {
  import opened Bits

  /** The number stored in `s`, least significant byte first. */
  function Value(s: seq<u8>): nat {
    if s == [] then 0 else s[0] + 0x100 * Value(s[1..])
  }

  function Encode(v: nat, k: nat): (s: seq<u8>)
    ensures |s| == k
    decreases k
  {
    if k == 0 then [] else [v % 0x100] + Encode(v / 0x100, k - 1)
  }

  /** `v` needs no more than `k` bytes. */
  predicate Fits(v: nat, k: nat)
    decreases k
  {
    if k == 0 then v == 0 else Fits(v / 0x100, k - 1)
  }

  lemma {:induction false} ValueOfEncode(v: nat, k: nat)
    requires Fits(v, k)
    ensures Value(Encode(v, k)) == v
    decreases k
  {
    if k > 0 {
      ValueOfEncode(v / 0x100, k - 1);
      assert Encode(v, k)[1..] == Encode(v / 0x100, k - 1);
    }
  }

  lemma {:induction false} EncodeOfValue(s: seq<u8>)
    ensures Fits(Value(s), |s|) && Encode(Value(s), |s|) == s
  {
    if s != [] {
      EncodeOfValue(s[1..]);
      assert Value(s) % 0x100 == s[0] && Value(s) / 0x100 == Value(s[1..]);
      assert s == [s[0]] + s[1..];
    }
  }

  lemma WordFits(v: u64)
    ensures Fits(v, 8)
  {
    var a := v / 0x100;
    var b := a / 0x100;
    var c := b / 0x100;
    var d := c / 0x100;
    assert d < 0x1_0000_0000;
    assert Fits(d, 4);
  }

  /** The `k`-byte field at `off`. */
  function Read(s: seq<u8>, off: nat, k: nat): nat
    requires off + k <= |s|
  {
    Value(s[off..off + k])
  }

  function Write(s: seq<u8>, off: nat, v: nat, k: nat): (t: seq<u8>)
    requires off + k <= |s|
    ensures |t| == |s|
  {
    s[..off] + Encode(v, k) + s[off + k..]
  }

  /** A 64-bit word and the bytes it is made of. */
  lemma WordBytes(s: seq<u8>, off: nat)
    requires off + 8 <= |s|
    ensures var v := Read(s, off, 8);
            && v < WORD && v % 0x100 == s[off] && v % 2 == s[off] % 2
            && v / 0x1_0000 % 0x1_0000 == s[off + 2] as int + 0x100 * s[off + 3] as int
            && v % 0x1_0000_0000 == Read(s, off, 4)
  {
    hide Value;
    var b := s[off..off + 8];
    FourBytes(b[..4]);
    FourBytes(b[4..]);
    FourMore(b);
    assert b[..4] == s[off..off + 4];
    Parts(s[off], s[off + 1], s[off + 2] as int + 0x100 * s[off + 3] as int, Value(b[4..]));
  }

  lemma Parts(a: nat, b: nat, q: nat, h: nat)
    requires a < 0x100 && b < 0x100 && q < 0x1_0000
    ensures var v := a + 0x100 * b + 0x1_0000 * q + 0x1_0000_0000 * h;
            && v % 0x100 == a && v % 2 == a % 2 && v / 0x1_0000 % 0x1_0000 == q
            && v % 0x1_0000_0000 == a + 0x100 * b + 0x1_0000 * q
  {
    var v := a + 0x100 * b + 0x1_0000 * q + 0x1_0000_0000 * h;
    var rest := b + 0x100 * q + 0x100_0000 * h;
    QuotientIs(v, 0x1_0000_0000, h, a + 0x100 * b + 0x1_0000 * q);
    QuotientIs(v, 0x1_0000, q + 0x1_0000 * h, a + 0x100 * b);
    QuotientIs(q + 0x1_0000 * h, 0x1_0000, h, q);
    QuotientIs(v, 0x100, rest, a);
    QuotientIs(v, 2, a / 2 + 0x80 * rest, a % 2);
  }

  lemma FourBytes(b: seq<u8>)
    requires |b| == 4
    ensures Value(b) == b[0] as int + 0x100 * b[1] as int + 0x1_0000 * b[2] as int + 0x100_0000 * b[3] as int < 0x1_0000_0000
  {
    assert Value(b[1..]) == b[1] + 0x100 * Value(b[1..][1..]) && b[1..][1..] == b[2..];
    assert Value(b[2..]) == b[2] + 0x100 * Value(b[2..][1..]) && b[2..][1..] == b[3..];
    assert Value(b[3..]) == b[3] + 0x100 * Value(b[3..][1..]) && b[3..][1..] == [];
  }

  lemma FourMore(b: seq<u8>)
    requires |b| == 8
    ensures Value(b) == Value(b[..4]) + 0x1_0000_0000 * Value(b[4..])
  {
    FourBytes(b[..4]);
    assert Value(b[1..]) == b[1] + 0x100 * Value(b[1..][1..]) && b[1..][1..] == b[2..];
    assert Value(b[2..]) == b[2] + 0x100 * Value(b[2..][1..]) && b[2..][1..] == b[3..];
    assert Value(b[3..]) == b[3] + 0x100 * Value(b[3..][1..]) && b[3..][1..] == b[4..];
  }

  lemma ReadWritten(s: seq<u8>, off: nat, v: nat, k: nat)
    requires off + k <= |s| && Fits(v, k)
    ensures Read(Write(s, off, v, k), off, k) == v
  {
    assert Write(s, off, v, k)[off..off + k] == Encode(v, k);
    ValueOfEncode(v, k);
  }

  lemma ReadElsewhere(s: seq<u8>, off: nat, v: nat, k: nat, off': nat, k': nat)
    requires off + k <= |s| && off' + k' <= |s|
    requires off + k <= off' || off' + k' <= off
    ensures Read(Write(s, off, v, k), off', k') == Read(s, off', k')
  {
    assert Write(s, off, v, k)[off'..off' + k'] == s[off'..off' + k'];
  }

  lemma {:induction false} ZeroValue(s: seq<u8>)
    requires forall i :: 0 <= i < |s| ==> s[i] == 0
    ensures Value(s) == 0
  {
    if s != [] {
      ZeroValue(s[1..]);
    }
  }

  /** The unaligned store of a `k`-byte value. */
  method Store(a: array<u8>, off: nat, v: nat, k: nat)
    requires off + k <= a.Length
    modifies a
    ensures a[..] == Write(old(a[..]), off, v, k)
  {
    hide Fits, Value;
    var rest, i := v, 0;
    while i < k
      invariant 0 <= i <= k
      invariant Encode(v, k) == a[off..off + i] + Encode(rest, k - i)
      invariant a[..off] == old(a[..off]) && a[off + k..] == old(a[off + k..])
    {
      assert Encode(rest, k - i) == [rest % 0x100] + Encode(rest / 0x100, k - i - 1);
      a[off + i] := rest % 0x100;
      rest, i := rest / 0x100, i + 1;
      assert a[off..off + i] == a[off..off + i - 1] + [a[off + i - 1]];
    }
    assert a[..] == a[..off] + a[off..off + k] + a[off + k..];
  }

  /** The unaligned load of a `k`-byte value. */
  method Load(a: array<u8>, off: nat, k: nat) returns (v: nat)
    requires off + k <= a.Length
    ensures v == Read(a[..], off, k)
  {
    v := 0;
    var i := k;
    while 0 < i
      invariant 0 <= i <= k
      invariant v == Value(a[off + i..off + k])
    {
      i := i - 1;
      assert a[off + i..off + k][1..] == a[off + i + 1..off + k];
      v := a[off + i] + 0x100 * v;
    }
    assert a[off..off + k] == a[..][off..off + k];
  }
}
