/** The host's accesses to memory on behalf of a guest: hypercalls hand over guest-physical
    addresses, and the vCPU loop turns them into host addresses by adding the buffer's start. */
module GuestMemory {
  import opened Bits
  import opened Bytes

  /** Host memory by virtual address. */
  type HostMemory = u64 -> u8

  /** `start + offset` in 64 bits. */
  function Offset(start: u64, offset: u64): u64 {
    if start + offset < WORD then start + offset else start + offset - WORD
  }

  /** `guest_ptr`: the host address of guest-physical `gpa`; there is no bound. */
  function GuestPtr(start: u64, gpa: u64): u64 {
    Offset(start, gpa)
  }

  /** An 8-byte store at a host address. */
  datatype Store = Store(address: u64, value: u64)

  /** A host access of `len` bytes that starts where the guest said. */
  datatype Access = Access(gpa: u64, len: nat)

  /** The access touches only the buffer of `size` bytes at `start`. */
  predicate Within(a: Access, start: u64, size: nat) {
    var p := GuestPtr(start, a.gpa);
    a.len == 0 || (start <= p && p + a.len <= start + size)
  }

  /** The bound a guest has to keep, in its own terms. */
  predicate Bounded(a: Access, size: nat) {
    a.len == 0 || a.gpa + a.len <= size
  }

  /** An access stays in the buffer exactly when its guest-physical range does. */
  lemma WithinIff(a: Access, start: u64, size: nat)
    requires start + size <= WORD
    ensures Within(a, start, size) <==> Bounded(a, size)
  {
  }

  lemma OffsetTwice(start: u64, gpa: u64, offset: u64)
    ensures Offset(Offset(start, gpa), offset) == Offset(start, Offset(gpa, offset))
  {
  }

  // --- Loads ---------------------------------------------------------------------------------

  function Fetch(m: HostMemory, address: u64, k: nat): (s: seq<u8>)
    ensures |s| == k
    decreases k
  {
    if k == 0 then [] else [m(address)] + Fetch(m, Offset(address, 1), k - 1)
  }

  /** The bytes `s` lie in memory from `address` on, wrapping at 2^64. */
  ghost predicate Lies(m: HostMemory, address: u64, s: seq<u8>) {
    forall i :: 0 <= i < |s| ==> m((address + i) % WORD) == s[i]
  }

  lemma {:induction false} FetchIs(m: HostMemory, address: u64, s: seq<u8>)
    requires Lies(m, address, s)
    ensures Fetch(m, address, |s|) == s
    decreases |s|
  {
    if s != [] {
      var next := Offset(address, 1);
      forall i | 0 <= i < |s| - 1
        ensures m((next + i) % WORD) == s[1..][i]
      {
        WrapOn(address, i);
        assert m((address + (i + 1)) % WORD) == s[i + 1];
      }
      FetchIs(m, next, s[1..]);
      assert s == [s[0]] + s[1..];
    }
  }

  lemma WrapOn(address: u64, i: nat)
    ensures (Offset(address, 1) + i) % WORD == (address + (i + 1)) % WORD
  {
    if address + 1 == WORD {
      Division(i, WORD);
      QuotientIs(WORD + i, WORD, 1 + i / WORD, i % WORD);
    }
  }

  /** A pointer into a structure is one sum in 64 bits. */
  lemma PointerIs(start: u64, gpa: u64, offset: u64)
    ensures Offset(GuestPtr(start, gpa), offset) == (start + gpa + offset) % WORD
    ensures GuestPtr(start, gpa) == (start + gpa) % WORD
  {
    var a, b := start + gpa, start + gpa + offset;
    if b < WORD {
      QuotientIs(b, WORD, 0, b);
    } else if b < 2 * WORD {
      QuotientIs(b, WORD, 1, b - WORD);
    } else {
      QuotientIs(b, WORD, 2, b - 2 * WORD);
    }
    QuotientIs(a, WORD, if a < WORD then 0 else 1, if a < WORD then a else a - WORD);
  }

  /** A little-endian number in memory is loaded as that number. */
  lemma LoadIs(m: HostMemory, address: u64, v: u64)
    ensures Lies(m, address, Encode(v, 8)) ==> Load64(m, address) == v
    ensures v < 0x1_0000_0000 && Lies(m, address, Encode(v, 4)) ==> Load32(m, address) == v
  {
    hide Lies, Fetch, Value, Encode;
    if Lies(m, address, Encode(v, 8)) {
      FetchIs(m, address, Encode(v, 8));
      WordFits(v);
      ValueOfEncode(v, 8);
    }
    if v < 0x1_0000_0000 && Lies(m, address, Encode(v, 4)) {
      FetchIs(m, address, Encode(v, 4));
      QuadFits(v);
      ValueOfEncode(v, 4);
    }
  }

  lemma QuadFits(v: nat)
    requires v < 0x1_0000_0000
    ensures Fits(v, 4)
  {
    var b := v / 0x100 / 0x100;
    assert b < 0x1_0000;
    assert Fits(b, 2);
  }

  function Load32(m: HostMemory, address: u64): nat {
    Value(Fetch(m, address, 4))
  }

  function Load64(m: HostMemory, address: u64): u64 {
    Value(Fetch(m, address, 8)) % WORD
  }

  /** Two memories with the same bytes in the buffer. */
  ghost predicate SameBuffer(m: HostMemory, m': HostMemory, start: u64, size: nat) {
    forall a: u64 :: start <= a < start + size ==> m'(a) == m(a)
  }

  lemma {:induction false} SameFetch(m: HostMemory, m': HostMemory, start: u64, size: nat, address: u64, k: nat)
    requires SameBuffer(m, m', start, size) && start + size <= WORD
    requires k == 0 || (start <= address && address + k <= start + size)
    ensures Fetch(m', address, k) == Fetch(m, address, k)
    decreases k
  {
    if k > 0 {
      SameFetch(m, m', start, size, Offset(address, 1), k - 1);
    }
  }
}
