/** The few bit operations on 64-bit words that the exit handlers use, and what they
    mean: single flags, the EDX:EAX split, and the fields of an I/O qualification. */
module Words {
  import opened Bits

  const LOW32: nat := 0xFFFF_FFFF

  lemma Powers32(k: nat)
    requires k == 0
    ensures Ones(k + 32) == 0xFFFF_FFFF && Ones(k + 8) == 0xFF && Ones(k + 16) == 0xFFFF && Ones(k + 3) == 7
  {
    Plus3(k);
    Plus3(k + 3);
    assert Ones(k + 8) == 2 * (2 * Ones(k + 6) + 1) + 1 by { assert Ones(k + 7) == 2 * Ones(k + 6) + 1; }
    Plus12(k + 8);
    Plus12(k + 20);
    Plus9(k);
    Plus3(k + 9);
    Plus3(k + 12);
    assert Ones(k + 16) == 2 * Ones(k + 15) + 1;
  }

  lemma Low32(x: nat, k: nat)
    requires k == 0
    ensures And(x, LOW32) == x % 0x1_0000_0000
  {
    Powers32(k);
    AndFieldArithmetic(x, k, k + 32, 1, 0x1_0000_0000, LOW32);
  }

  /** `(rdx << 32) | (rax & 0xffff_ffff)`. */
  function Join(rdx: u64, rax: u64): (v: u64)
    ensures v == rdx % 0x1_0000_0000 * 0x1_0000_0000 + rax % 0x1_0000_0000
  {
    hide Or, And;
    Low32(rax, 0);
    HighHalf(rdx);
    OrHalves(rdx % 0x1_0000_0000, rax % 0x1_0000_0000, 0);
    Or(rdx * 0x1_0000_0000 % WORD, And(rax, LOW32))
  }

  lemma HighHalf(x: nat)
    ensures x * 0x1_0000_0000 % WORD == x % 0x1_0000_0000 * 0x1_0000_0000
  {
    var q, r := x / 0x1_0000_0000, x % 0x1_0000_0000;
    assert x * 0x1_0000_0000 == WORD * q + r * 0x1_0000_0000;
  }

  lemma OrHalves(h: nat, l: nat, k: nat)
    requires k == 0 && l < 0x1_0000_0000
    ensures Or(h * 0x1_0000_0000, l) == h * 0x1_0000_0000 + l
  {
    hide Or, Shr, Shl, Low, Ones;
    Powers32(k);
    Arithmetic(h * 0x1_0000_0000, k + 32, 0x1_0000_0000);
    Arithmetic(l, k + 32, 0x1_0000_0000);
    OrDisjoint(h * 0x1_0000_0000, l, k + 32);
  }

  /** RDMSR returns what WRMSR was given, half by half. */
  lemma SplitJoin(rdx: u64, rax: u64)
    ensures Join(rdx, rax) % 0x1_0000_0000 == rax % 0x1_0000_0000
    ensures Join(rdx, rax) / 0x1_0000_0000 == rdx % 0x1_0000_0000
  {
  }

  // --- EFER.SVME ------------------------------------------------------------------------

  const SVME: nat := 0x1000
  /** `!EFER_SVME`. */
  const NOT_SVME: nat := 0xFFFF_FFFF_FFFF_EFFF

  /** Forcing the bit on, and hiding it: bit 12 is set, or cleared, and nothing else. */
  lemma SvmeForced(v: u64, k: nat)
    requires k == 0
    ensures Or(v, SVME) == v - v / SVME % 2 * SVME + SVME < WORD
    ensures And(v, NOT_SVME) == v - v / SVME % 2 * SVME
  {
    hide Or, And;
    var a, l := v / SVME, v % SVME;
    SvmeMasks(a, k);
    SvmeAbove(a, l, k);
    assert v == a * SVME + l;
  }

  /** Bit 12 of a word with the bit cleared, and with the bit set. */
  lemma SvmeBit(v: u64)
    ensures var off := v - v / SVME % 2 * SVME;
            && off / SVME % 2 == 0 && (off + SVME) / SVME % 2 == 1 && (off + SVME) - (off + SVME) / SVME % 2 * SVME == off
  {
    var a, l := v / SVME, v % SVME;
    var h := a / 2;
    assert v - v / SVME % 2 * SVME == (2 * h) * SVME + l;
    assert ((2 * h) * SVME + l) / SVME == 2 * h && ((2 * h + 1) * SVME + l) / SVME == 2 * h + 1;
  }

  function ForceSvme(v: u64): (r: u64)
    ensures r / SVME % 2 == 1 && HideSvme(r) == HideSvme(v)
  {
    hide Or, And;
    SvmeForced(v, 0);
    SvmeForced(Or(v, SVME), 0);
    SvmeBit(v);
    Or(v, SVME)
  }

  function HideSvme(v: u64): (r: u64)
    ensures r / SVME % 2 == 0 && (v == r || v == r + SVME)
  {
    hide Or, And;
    SvmeForced(v, 0);
    SvmeBit(v);
    And(v, NOT_SVME)
  }

  lemma SvmeAbove(a: nat, l: nat, k: nat)
    requires k == 0 && l < SVME
    ensures Or(a * SVME + l, SVME) == Or(a, 1) * SVME + l
    ensures And(a * SVME + l, NOT_SVME) == And(a, 0xF_FFFF_FFFF_FFFE) * SVME + l
  {
    hide Or, And, Shr, Shl, Ones;
    OnesBase(k);
    Plus12(k);
    Arithmetic(a, k + 12, SVME);
    Arithmetic(1, k + 12, SVME);
    Arithmetic(0xF_FFFF_FFFF_FFFE, k + 12, SVME);
    Arithmetic(Or(a, 1), k + 12, SVME);
    Arithmetic(And(a, 0xF_FFFF_FFFF_FFFE), k + 12, SVME);
    Arithmetic(l, k + 12, SVME);
    OrHigh(a, 1, l, k + 12);
    AndHigh(a, 0xF_FFFF_FFFF_FFFE, l, k + 12);
  }

  lemma OnesBase(k: nat)
    requires k == 0
    ensures Ones(k) == 0
  {
  }

  lemma SvmeMasks(a: nat, k: nat)
    requires k == 0 && a < 0x10_0000_0000_0000
    ensures Or(a, 1) == a - a % 2 + 1 && And(a, 0xF_FFFF_FFFF_FFFE) == a - a % 2
  {
    hide Or, And, Ones;
    OnesBase(k);
    Plus12(k);
    Plus12(k + 12);
    Plus12(k + 24);
    Plus12(k + 36);
    Plus3(k + 48);
    AndFieldArithmetic(a / 2, k, k + 51, 1, 0x8_0000_0000_0000, 0x7_FFFF_FFFF_FFFF);
    AndStep(a, 0xF_FFFF_FFFF_FFFE);
    OrStep(a, 1);
    OrZero(a / 2);
  }

  lemma OrZero(a: nat)
    ensures Or(a, 0) == a
  {
  }

  // --- Interrupt delivery -------------------------------------------------------------

  const RFLAGS_IF: nat := 0x200

  /** The interrupt flag is bit 9. */
  lemma IfFlag(rflags: u64, k: nat)
    requires k == 0
    ensures And(rflags, RFLAGS_IF) != 0 <==> rflags / 0x200 % 2 == 1
  {
    hide And;
    Plus9(k);
    assert Ones(k + 1) == 2 * Ones(k) + 1;
    AndFieldArithmetic(rflags, k + 9, k + 1, 0x200, 2, RFLAGS_IF);
  }

  /** Blocking by STI and by MOV SS are the two lowest bits of the interruptibility state. */
  lemma LowTwo(x: u64, k: nat)
    requires k == 0
    ensures And(x, 3) == x % 4
  {
    hide And;
    assert Ones(k + 2) == 2 * Ones(k + 1) + 1 && Ones(k + 1) == 2 * Ones(k) + 1;
    AndFieldArithmetic(x, k, k + 2, 1, 4, 3);
  }

  /** An event word, as both control structures encode it: valid bit 31, type bits 10:8,
      vector bits 7:0. */
  predicate EventValid(e: nat) {
    e / 0x8000_0000 % 2 == 1
  }

  function EventType(e: nat): nat {
    e / 0x100 % 8
  }

  function EventVector(e: nat): u8 {
    e % 0x100
  }

  /** `(1 << 31) | vector`. */
  function EventWord(vector: u8): (e: u64)
    ensures e == 0x8000_0000 + vector
    ensures EventValid(e) && EventType(e) == 0 && EventVector(e) == vector
  {
    hide Or;
    OrAbove(0x80_0000, vector, 0);
    EventFields(vector);
    Or(0x8000_0000, vector)
  }

  lemma EventFields(vector: u8)
    ensures var e := 0x8000_0000 + vector; EventValid(e) && EventType(e) == 0 && EventVector(e) == vector
  {
    var e := 0x8000_0000 + vector;
    QuotientIs(e, 0x8000_0000, 1, vector);
    QuotientIs(e, 0x100, 0x80_0000, vector);
  }

  /** A byte below a multiple of 256. */
  lemma OrAbove(h: nat, l: nat, k: nat)
    requires k == 0 && l < 0x100
    ensures Or(h * 0x100, l) == h * 0x100 + l
  {
    hide Or, Shr, Shl, Low, Ones;
    Powers32(k);
    Arithmetic(h * 0x100, k + 8, 0x100);
    Arithmetic(l, k + 8, 0x100);
    OrDisjoint(h * 0x100, l, k + 8);
  }

  // --- Port I/O ----------------------------------------------------------------------------

  /** `!0xff`. */
  const NOT_FF: nat := 0xFFFF_FFFF_FFFF_FF00

  lemma ClearLowByte(x: u64, k: nat)
    requires k == 0
    ensures And(x, NOT_FF) == x / 0x100 * 0x100
  {
    hide And, Ones;
    Powers32(k);
    Plus12(k + 32);
    Plus12(k + 44);
    AndFieldArithmetic(x, k + 8, k + 56, 0x100, 0x100_0000_0000_0000, NOT_FF);
    assert x / 0x100 < 0x100_0000_0000_0000;
  }

  /** `(rax & !0xff) | value`: the low byte is replaced. */
  function SetLowByte(rax: u64, value: u8): (r: u64)
    ensures r % 0x100 == value && r / 0x100 == rax / 0x100
  {
    hide Or, And;
    ClearLowByte(rax, 0);
    OrAbove(rax / 0x100, value, 0);
    QuotientIs(rax / 0x100 * 0x100 + value, 0x100, rax / 0x100, value);
    Or(And(rax, NOT_FF), value)
  }

  /** The qualification both backends report: bit 3 for IN, the port in bits 31:16. */
  function Qualification(port: u16, isIn: bool): (q: u64)
    ensures IsIn(q) == isIn && Port(q) == port
  {
    hide Or, And;
    OrAbove(port * 0x100, if isIn then 8 else 0, 0);
    DirectionField(port, if isIn then 1 else 0);
    PortField(port, if isIn then 1 else 0);
    assert Or(port * 0x1_0000, if isIn then 8 else 0) == port * 0x1_0000 + 8 * (if isIn then 1 else 0);
    Or(port * 0x1_0000, if isIn then 8 else 0)
  }

  lemma DirectionField(port: u16, b: nat)
    requires b < 2
    ensures And((port * 0x1_0000 + 8 * b) / 8, 1) == b
  {
    hide And;
    var y := 2 * (port * 0x1000) + b;
    QuotientIs(port * 0x1_0000 + 8 * b, 8, y, 0);
    AndOne(y);
    QuotientIs(y, 2, port * 0x1000, b);
  }

  lemma PortField(port: u16, b: nat)
    requires b < 2
    ensures (port * 0x1_0000 + 8 * b) / 0x1_0000 == port
  {
    QuotientIs(port * 0x1_0000 + 8 * b, 0x1_0000, port, 8 * b);
  }

  /** `(q >> 3) & 1 != 0`. */
  predicate IsIn(q: u64) {
    And(q / 8, 1) != 0
  }

  /** `(q >> 16) as u16`. */
  function Port(q: u64): u16 {
    q / 0x1_0000 % 0x1_0000
  }

  // --- Interrupt-window exiting ---------------------------------------------------------

  const WINDOW: nat := 4
  /** `!INTERRUPT_WINDOW_EXITING`. */
  const NOT_WINDOW: nat := 0xFFFF_FFFF_FFFF_FFFB

  predicate WindowOn(controls: nat) {
    controls / WINDOW % 2 == 1
  }

  lemma WindowMask(a: nat, k: nat)
    requires k == 0 && a < 0x4000_0000_0000_0000
    ensures And(a, 0x3FFF_FFFF_FFFF_FFFE) == a - a % 2
  {
    hide And;
    Plus12(k);
    Plus12(k + 12);
    Plus12(k + 24);
    Plus12(k + 36);
    Plus12(k + 48);
    assert Ones(k + 61) == 2 * Ones(k + 60) + 1;
    AndFieldArithmetic(a / 2, k, k + 61, 1, 0x2000_0000_0000_0000, 0x1FFF_FFFF_FFFF_FFFF);
    AndStep(a, 0x3FFF_FFFF_FFFF_FFFE);
  }

  lemma WindowForced(v: u64)
    ensures Or(v, WINDOW) == v - v / 4 % 2 * 4 + 4 < WORD
    ensures And(v, NOT_WINDOW) == v - v / 4 % 2 * 4
  {
    hide And, Or;
    var a := v / 2 / 2;
    WindowMask(a, 0);
    AndStep(v, NOT_WINDOW);
    AndStep(v / 2, 0x7FFF_FFFF_FFFF_FFFD);
    OrStep(v, WINDOW);
    OrStep(v / 2, 2);
    OrStep(a, 1);
    OrZero(a / 2);
    QuarterWord(v);
  }

  lemma QuarterWord(v: u64)
    ensures v / 4 == v / 2 / 2 && v == v % 2 + 2 * (v / 2 % 2) + 4 * (v / 2 / 2) && v / 2 / 2 < 0x4000_0000_0000_0000
  {
  }

  lemma WindowBit(v: nat)
    ensures var off := v - v / 4 % 2 * 4; off / 4 % 2 == 0 && (off + 4) / 4 % 2 == 1
  {
    var l, h := v % 4, v / 4 / 2;
    assert v - v / 4 % 2 * 4 == l + 4 * (2 * h);
  }

  /** Switching the window bit changes that bit and no other. */
  function SetWindow(controls: u64, enable: bool): (r: u64)
    ensures WindowOn(r) == enable
    ensures r - r / 4 % 2 * 4 == controls - controls / 4 % 2 * 4
  {
    WindowForced(controls);
    WindowBit(controls);
    if enable then Or(controls, WINDOW) else And(controls, NOT_WINDOW)
  }

  /** Switching the window bit keeps a 32-bit value a 32-bit value, and every other bit. */
  lemma WindowBits(c: u64, enable: bool, k: nat)
    ensures c < 0x1_0000_0000 ==> SetWindow(c, enable) < 0x1_0000_0000
    ensures Bit(SetWindow(c, enable), k) <==> if k == 2 then enable else Bit(c, k)
  {
    hide SetWindow, Bit;
    var r := SetWindow(c, enable);
    SameOutside(r);
    SameOutside(c);
    if k == 2 {
      BitTwo(r);
    } else {
      OtherBits(r, c, k);
    }
  }

  lemma BitTwo(x: nat)
    ensures Bit(x, 2) <==> x / 4 % 2 == 1
  {
    assert Bit(x, 2) == Bit(x / 2, 1) && Bit(x / 2, 1) == Bit(x / 2 / 2, 0);
  }

  lemma OtherBits(x: nat, y: nat, k: nat)
    requires x % 4 == y % 4 && x / 8 == y / 8 && k != 2
    ensures Bit(x, k) <==> Bit(y, k)
  {
    hide Bit;
    if k >= 3 {
      HighBits(x, k);
      HighBits(y, k);
    } else {
      LowBits(x);
      LowBits(y);
    }
  }

  lemma LowBits(x: nat)
    ensures Bit(x, 0) <==> x % 4 % 2 == 1
    ensures Bit(x, 1) <==> x % 4 / 2 == 1
  {
    LowFour(x);
    assert Bit(x, 1) == Bit(x / 2, 0);
  }

  lemma LowFour(x: nat)
    ensures x % 2 == x % 4 % 2 && x / 2 % 2 == x % 4 / 2
  {
    hide Bit;
    var l, h := x % 4, x / 4;
    Halves(l, 2 * h);
    Halves(l / 2, h);
  }

  lemma Halves(l: nat, h: nat)
    ensures (l + 2 * h) % 2 == l % 2 && (l + 2 * h) / 2 == l / 2 + h
  {
  }

  lemma HighBits(x: nat, k: nat)
    requires k >= 3
    ensures Bit(x, k) == Bit(x / 8, k - 3)
  {
    assert Bit(x, k) == Bit(x / 2, k - 1) && Bit(x / 2, k - 1) == Bit(x / 2 / 2, k - 2);
    assert Bit(x / 2 / 2, k - 2) == Bit(x / 2 / 2 / 2, k - 3) && x / 2 / 2 / 2 == x / 8;
  }

  lemma SameOutside(x: nat)
    ensures var y := x - x / 4 % 2 * 4; y % 4 == x % 4 && y / 8 == x / 8
  {
    var l, q := x % 4, x / 4;
    var b, h := q % 2, q / 2;
    assert x == l + 4 * q && q == b + 2 * h;
    Eighths(l, b, h);
    Eighths(l, 0, h);
  }

  lemma Eighths(l: nat, b: nat, h: nat)
    requires l < 4 && b < 2
    ensures (l + 4 * b + 8 * h) / 8 == h && (l + 4 * b + 8 * h) % 4 == l
  {
    var x := l + 4 * b + 8 * h;
    QuotientIs(x, 8, h, l + 4 * b);
    QuotientIs(x, 4, b + 2 * h, l);
  }
}
