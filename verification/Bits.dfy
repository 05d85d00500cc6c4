/** Machine words as bounded integers, and the bitwise operators on them.

    Every operator is defined bit by bit, with no bound on the width; `Bit` is
    the independent reading of one bit. The masks and shifts of the code are
    turned into division and remainder once, here.

    Some lemmas about fixed bit positions take a parameter `k` that is required to
    be zero and say `k + 12` for 12: with a literal the verifier unrolls the
    recursive definitions down to the last bit, with a variable it uses the lemmas. */
module Bits {

  type u8 = x: int | 0 <= x < 0x100
  type u16 = x: int | 0 <= x < 0x1_0000
  type u32 = x: int | 0 <= x < 0x1_0000_0000
  type u64 = x: int | 0 <= x < 0x1_0000_0000_0000_0000

  const WORD: nat := 0x1_0000_0000_0000_0000
  const U64_MAX: u64 := 0xFFFF_FFFF_FFFF_FFFF

  /** Bit `k` of `x`. */
  predicate Bit(x: nat, k: nat)
    decreases k
  {
    if k == 0 then x % 2 == 1 else Bit(x / 2, k - 1)
  }

  function And(a: nat, b: nat): nat {
    if a == 0 || b == 0 then 0
    else (if a % 2 == 1 && b % 2 == 1 then 1 else 0) + 2 * And(a / 2, b / 2)
  }

  function Or(a: nat, b: nat): nat {
    if a == 0 then b else if b == 0 then a
    else (if a % 2 == 1 || b % 2 == 1 then 1 else 0) + 2 * Or(a / 2, b / 2)
  }

  function Shr(x: nat, k: nat): nat
    decreases k
  {
    if k == 0 then x else Shr(x / 2, k - 1)
  }

  function Shl(x: nat, k: nat): nat
    decreases k
  {
    if k == 0 then x else 2 * Shl(x, k - 1)
  }

  /** The low `k` bits of `x`. */
  function Low(x: nat, k: nat): nat
    decreases k
  {
    if k == 0 then 0 else x % 2 + 2 * Low(x / 2, k - 1)
  }

  /** The word whose low `k` bits are ones. */
  function Ones(k: nat): nat {
    if k == 0 then 0 else 1 + 2 * Ones(k - 1)
  }

  /** The lowest bit and the rest. */
  lemma AndStep(a: nat, b: nat)
    ensures And(a, b) == (if a % 2 == 1 && b % 2 == 1 then 1 else 0) + 2 * And(a / 2, b / 2)
  {
  }

  lemma AndOne(y: nat)
    ensures And(y, 1) == y % 2
  {
  }

  lemma OrStep(a: nat, b: nat)
    ensures Or(a, b) == (if a % 2 == 1 || b % 2 == 1 then 1 else 0) + 2 * Or(a / 2, b / 2)
  {
  }

  lemma Halve(c: nat, x: nat)
    requires c < 2
    ensures (c + 2 * x) / 2 == x && (c + 2 * x) % 2 == c
  {
  }

  /** The bit-by-bit meaning of `And` and `Or`. */
  lemma {:induction false} AndOrBits(a: nat, b: nat, k: nat)
    ensures Bit(And(a, b), k) <==> Bit(a, k) && Bit(b, k)
    ensures Bit(Or(a, b), k) <==> Bit(a, k) || Bit(b, k)
    decreases k
  {
    hide And, Or;
    AndStep(a, b);
    OrStep(a, b);
    Halve(if a % 2 == 1 && b % 2 == 1 then 1 else 0, And(a / 2, b / 2));
    Halve(if a % 2 == 1 || b % 2 == 1 then 1 else 0, Or(a / 2, b / 2));
    if k > 0 {
      AndOrBits(a / 2, b / 2, k - 1);
    }
  }

  /** The bits of a number shifted up by `m`, and of one with the lowest bit set below that. */
  lemma {:induction false} ShiftedBit(x: nat, m: nat, k: nat)
    ensures Bit(Shl(x, m), k) <==> m <= k && Bit(x, k - m)
    ensures 0 < m ==> (Bit(1 + Shl(x, m), k) <==> k == 0 || (m <= k && Bit(x, k - m)))
    decreases m
  {
    if m > 0 {
      Halve(0, Shl(x, m - 1));
      Halve(1, Shl(x, m - 1));
      if k > 0 {
        ShiftedBit(x, m - 1, k - 1);
      }
    }
  }

  lemma {:induction false} NoBits(k: nat)
    ensures !Bit(0, k)
  {
    if k > 0 {
      NoBits(k - 1);
    }
  }

  lemma {:induction false} AndAtMost(a: nat, b: nat)
    ensures And(a, b) <= b
    decreases a
  {
    if a > 0 && b > 0 {
      AndAtMost(a / 2, b / 2);
    }
  }

  lemma {:induction false} OrFits(a: nat, b: nat, k: nat)
    requires a <= Ones(k) && b <= Ones(k)
    ensures Or(a, b) <= Ones(k)
    decreases k
  {
    if k > 0 {
      OrFits(a / 2, b / 2, k - 1);
    }
  }

  /** Flags below bit `k` and a word whose low `k` bits are clear add up. */
  lemma {:induction false} OrDisjoint(x: nat, lo: nat, k: nat)
    requires Low(x, k) == 0 && Shr(lo, k) == 0
    ensures Or(x, lo) == x + lo
    decreases k
  {
    if k > 0 {
      OrDisjoint(x / 2, lo / 2, k - 1);
    }
  }

  /** `Or` works on the low `k` bits alone when one operand has no others. */
  lemma {:induction false} OrLow(h: nat, f: nat, g: nat, k: nat)
    requires Shr(f, k) == 0 && Shr(g, k) == 0
    ensures Or(Shl(h, k) + f, g) == Shl(h, k) + Or(f, g)
    decreases k
  {
    if k > 0 {
      assert (Shl(h, k) + f) / 2 == Shl(h, k - 1) + f / 2;
      OrLow(h, f / 2, g / 2, k - 1);
    }
  }

  /** Operators above bit `k` leave the bits below it alone. */
  lemma {:induction false} OrHigh(a: nat, b: nat, l: nat, k: nat)
    requires Shr(l, k) == 0
    ensures Or(Shl(a, k) + l, Shl(b, k)) == Shl(Or(a, b), k) + l
    decreases k
  {
    hide Or;
    if k > 0 {
      OrHigh(a, b, l / 2, k - 1);
      OrStep(Shl(a, k) + l, Shl(b, k));
      Halve(l % 2, Shl(a, k - 1) + l / 2);
    } else {
      assert l == 0;
    }
  }

  lemma {:induction false} AndHigh(a: nat, b: nat, l: nat, k: nat)
    requires Shr(l, k) == 0
    ensures And(Shl(a, k) + l, Shl(b, k) + Ones(k)) == Shl(And(a, b), k) + l
    decreases k
  {
    hide And;
    if k > 0 {
      AndHigh(a, b, l / 2, k - 1);
      AndStep(Shl(a, k) + l, Shl(b, k) + Ones(k));
      Halve(l % 2, Shl(a, k - 1) + l / 2);
      Halve(1, Shl(b, k - 1) + Ones(k - 1));
    } else {
      assert l == 0;
    }
  }

  /** Masking with the field of width `w` at bit `s` keeps exactly that field. */
  lemma {:induction false} AndField(x: nat, s: nat, w: nat)
    ensures And(x, Shl(Ones(w), s)) == Shl(Low(Shr(x, s), w), s)
    decreases s, w
  {
    hide And;
    AndStep(x, Shl(Ones(w), s));
    if s > 0 {
      AndField(x / 2, s - 1, w);
      Halve(0, Shl(Ones(w), s - 1));
    } else if w > 0 {
      AndField(x / 2, 0, w - 1);
      Halve(1, Ones(w - 1));
    } else {
      AndZero(x);
    }
  }

  lemma AndZero(x: nat)
    ensures And(x, 0) == 0
  {
  }

  /** Splitting a word at bit `k`. */
  lemma {:induction false} Split(x: nat, k: nat)
    ensures x == Shl(Shr(x, k), k) + Low(x, k) && Low(x, k) <= Ones(k)
    decreases k
  {
    if k > 0 {
      Split(x / 2, k - 1);
    }
  }

  lemma {:induction false} ShlIsProduct(x: nat, k: nat)
    ensures Shl(x, k) == x * (Ones(k) + 1)
    decreases k
  {
    if k > 0 {
      ShlIsProduct(x, k - 1);
      assert x * (Ones(k) + 1) == x * (2 * (Ones(k - 1) + 1)) == 2 * (x * (Ones(k - 1) + 1));
    }
  }

  lemma {:induction false} ProductGrows(d: int, a: int, b: int)
    requires 0 < d && a < b
    ensures d * a + d <= d * b
    decreases b - a
  {
    if a + 1 < b {
      ProductGrows(d, a + 1, b);
    }
    assert d * (a + 1) == d * a + d;
  }

  lemma QuotientIsUnique(d: int, q: int, r: int, q': int, r': int)
    requires 0 <= r < d && 0 <= r' < d
    requires d * q + r == d * q' + r'
    ensures q == q' && r == r'
  {
    if q < q' {
      ProductGrows(d, q, q');
    } else if q' < q {
      ProductGrows(d, q', q);
    }
  }

  /** Shifts, low bits and products in terms of `c`, the `k`-th power of two. */
  lemma Arithmetic(x: nat, k: nat, c: nat)
    requires Ones(k) + 1 == c
    ensures Shr(x, k) == x / c && Low(x, k) == x % c && Shl(x, k) == x * c
  {
    hide Shr, Low, Shl, Ones;
    ShlIsProduct(x, k);
    var q, r := Shr(x, k), Low(x, k);
    assert x == c * q + r && r < c by {
      Split(x, k);
      ShlIsProduct(q, k);
    }
    Division(x, c);
    QuotientIsUnique(c, q, r, x / c, x % c);
  }

  lemma Division(x: nat, c: nat)
    requires 0 < c
    ensures x == c * (x / c) + x % c && 0 <= x % c < c
  {
  }

  /** Division by its defining equation. */
  lemma QuotientIs(x: nat, c: nat, q: nat, r: nat)
    requires x == c * q + r && r < c
    ensures x / c == q && x % c == r
  {
    Division(x, c);
    QuotientIsUnique(c, q, r, x / c, x % c);
  }

  lemma Plus3(k: nat)
    ensures Ones(k + 3) == 8 * Ones(k) + 7
  {
    assert Ones(k + 2) == 2 * Ones(k + 1) + 1;
  }

  lemma Plus9(k: nat)
    ensures Ones(k + 9) == 0x200 * Ones(k) + 0x1FF
  {
    Plus3(k);
    Plus3(k + 3);
    Plus3(k + 6);
  }

  lemma Plus12(k: nat)
    ensures Ones(k + 12) == 0x1000 * Ones(k) + 0xFFF
  {
    Plus9(k);
    Plus3(k + 9);
  }

  /** 2^12 and 2^40, the page size and the number of page frames. */
  lemma PagePowers(k: nat)
    requires k == 0
    ensures Ones(k + 12) == 0xFFF && Ones(k + 40) == 0xFF_FFFF_FFFF
  {
    Plus12(k);
    Plus12(k + 12);
    Plus12(k + 24);
    Plus3(k + 36);
    assert Ones(k + 40) == 2 * Ones(k + 39) + 1;
  }

  /** `AndField` in terms of the powers `c` = 2^s and `d` = 2^w. */
  lemma AndFieldArithmetic(x: nat, s: nat, w: nat, c: nat, d: nat, mask: nat)
    requires Ones(s) + 1 == c && Ones(w) + 1 == d && mask == Ones(w) * c
    ensures And(x, mask) == x / c % d * c
  {
    AndField(x, s, w);
    Arithmetic(Ones(w), s, c);
    Arithmetic(x, s, c);
    Arithmetic(Shr(x, s), w, d);
    Arithmetic(Low(Shr(x, s), w), s, c);
  }
}
