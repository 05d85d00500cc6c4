/** A small register-and-stack machine, enough to execute the two VM-entry trampolines
    instruction by instruction. */
module Machine {
  import opened Bits
  import opened Registers

  /** Memory in 64-bit words, by address. The trampolines only access words at multiples of
      eight, given an aligned stack and register block; only such addresses mean anything. */
  type Memory = imap<int, u64>

  ghost function At(mem: Memory, a: int): u64 {
    if a in mem then mem[a] else 0
  }

  datatype Machine = Machine(gprs: Gprs, rsp: int, mem: Memory, flags: u64) {
    ghost function Get(r: Reg): u64 {
      gprs.Get(r)
    }

    ghost function Set(r: Reg, v: u64): Machine {
      this.(gprs := gprs.Set(r, v))
    }

    ghost function Put(a: int, v: u64): Machine {
      this.(mem := mem[a := v])
    }
  }

  predicate Aligned(a: int) {
    a % 8 == 0
  }

  /** The offset of a register in the block. */
  function Offset(r: Reg): int {
    match r
    case RAX => 0x00 case RBX => 0x08 case RCX => 0x10 case RDX => 0x18 case RDI => 0x20
    case RSI => 0x28 case RBP => 0x30 case R8 => 0x38 case R9 => 0x40 case R10 => 0x48
    case R11 => 0x50 case R12 => 0x58 case R13 => 0x60 case R14 => 0x68 case R15 => 0x70
  }

  /** The register block at `b` holds the registers `g`. */
  ghost predicate Holds(mem: Memory, b: int, g: Gprs) {
    forall r :: At(mem, b + Offset(r)) == g.Get(r)
  }

  /** The block is the registers in the order of the fields of `GuestRegisters`, a word each. */
  lemma BlockLayout(mem: Memory, b: int, g: Gprs)
    ensures Holds(mem, b, g) <==>
              && At(mem, b) == g.rax && At(mem, b + 0x08) == g.rbx && At(mem, b + 0x10) == g.rcx && At(mem, b + 0x18) == g.rdx
              && At(mem, b + 0x20) == g.rdi && At(mem, b + 0x28) == g.rsi && At(mem, b + 0x30) == g.rbp
              && At(mem, b + 0x38) == g.r8 && At(mem, b + 0x40) == g.r9
              && At(mem, b + 0x48) == g.r10 && At(mem, b + 0x50) == g.r11
              && At(mem, b + 0x58) == g.r12 && At(mem, b + 0x60) == g.r13
              && At(mem, b + 0x68) == g.r14 && At(mem, b + 0x70) == g.r15
  {
    hide At;
    if Holds(mem, b, g) {
      assert At(mem, b + Offset(RAX)) == g.Get(RAX) && At(mem, b + Offset(RBX)) == g.Get(RBX);
      assert At(mem, b + Offset(RCX)) == g.Get(RCX) && At(mem, b + Offset(RDX)) == g.Get(RDX);
      assert At(mem, b + Offset(RDI)) == g.Get(RDI) && At(mem, b + Offset(RSI)) == g.Get(RSI);
      assert At(mem, b + Offset(RBP)) == g.Get(RBP) && At(mem, b + Offset(R8)) == g.Get(R8);
      assert At(mem, b + Offset(R9)) == g.Get(R9) && At(mem, b + Offset(R10)) == g.Get(R10);
      assert At(mem, b + Offset(R11)) == g.Get(R11) && At(mem, b + Offset(R12)) == g.Get(R12);
      assert At(mem, b + Offset(R13)) == g.Get(R13) && At(mem, b + Offset(R14)) == g.Get(R14);
      assert At(mem, b + Offset(R15)) == g.Get(R15);
    }
  }

  lemma OffsetsDiffer(r: Reg, q: Reg)
    ensures Offset(r) == Offset(q) <==> r == q
    ensures 0 <= Offset(r) < 0x78 && Offset(r) % 8 == 0
  {
  }

  datatype Instr =
    | Push(r: Reg) | Pop(r: Reg) | Mov(dst: Reg, src: Reg)
    | Load(dst: Reg, base: Reg)      // mov dst, [base + offset of dst]
    | Store(base: Reg, src: Reg)     // mov [base + offset of src], src
    | LoadStack(dst: Reg, off: int)  // mov dst, [rsp + off]
    | Xchg(r: Reg, off: int)         // xchg r, [rsp + off]
    | StoreAs(base: Reg, slot: Reg, src: Reg)  // mov [base + offset of slot], src
    | AddRsp(n: int)
    | Pushf | Popf

  ghost function Do(m: Machine, i: Instr): Machine {
    match i
    case Push(r) => m.Put(m.rsp - 8, m.Get(r)).(rsp := m.rsp - 8)
    case Pop(r) => m.Set(r, At(m.mem, m.rsp)).(rsp := m.rsp + 8)
    case Mov(dst, src) => m.Set(dst, m.Get(src))
    case Load(dst, base) => m.Set(dst, At(m.mem, m.Get(base) + Offset(dst)))
    case Store(base, src) => m.Put(m.Get(base) + Offset(src), m.Get(src))
    case LoadStack(dst, off) => m.Set(dst, At(m.mem, m.rsp + off))
    case Xchg(r, off) => m.Put(m.rsp + off, m.Get(r)).Set(r, At(m.mem, m.rsp + off))
    case StoreAs(base, slot, src) => m.Put(m.Get(base) + Offset(slot), m.Get(src))
    case AddRsp(n) => m.(rsp := m.rsp + n)
    case Pushf => m.Put(m.rsp - 8, m.flags).(rsp := m.rsp - 8)
    case Popf => m.(flags := At(m.mem, m.rsp), rsp := m.rsp + 8)
  }

  ghost function Exec(m: Machine, code: seq<Instr>): Machine
    decreases |code|
  {
    if code == [] then m else Exec(Do(m, code[0]), code[1..])
  }

  lemma {:induction false} ExecConcat(m: Machine, a: seq<Instr>, b: seq<Instr>)
    ensures Exec(m, a + b) == Exec(Exec(m, a), b)
    decreases |a|
  {
    if a == [] {
      assert a + b == b;
    } else {
      ExecConcat(Do(m, a[0]), a[1..], b);
      assert (a + b)[1..] == a[1..] + b;
    }
  }

  lemma ExecOne(m: Machine, i: Instr)
    ensures Exec(m, [i]) == Do(m, i)
  {
    assert Exec(Do(m, i), []) == Do(m, i);
  }

  lemma ExecTwo(m: Machine, i: Instr, j: Instr)
    ensures Exec(m, [i, j]) == Do(Do(m, i), j)
  {
    assert [i, j][1..] == [j];
    ExecOne(Do(m, i), j);
  }

  lemma LoadSelf(m: Machine, base: Reg, r: Reg)
    ensures var l := Do(m, Load(base, base));
            && l.rsp == m.rsp && l.mem == m.mem
            && l.Get(r) == if r == base then At(m.mem, m.Get(base) + Offset(r)) else m.Get(r)
  {
    hide Gprs.Get, Gprs.Set, Offset, At;
  }

  lemma MovEffect(m: Machine, dst: Reg, src: Reg, r: Reg)
    ensures var l := Do(m, Mov(dst, src));
            l.rsp == m.rsp && l.mem == m.mem && l.Get(r) == m.Get(if r == dst then src else r)
  {
    hide Gprs.Get, Gprs.Set;
  }

  // --- Runs of one kind of instruction ------------------------------------------------------

  function Pushes(rs: seq<Reg>): seq<Instr> {
    if rs == [] then [] else [Push(rs[0])] + Pushes(rs[1..])
  }

  function Pops(rs: seq<Reg>): seq<Instr> {
    if rs == [] then [] else [Pop(rs[0])] + Pops(rs[1..])
  }

  function Loads(base: Reg, rs: seq<Reg>): seq<Instr> {
    if rs == [] then [] else [Load(rs[0], base)] + Loads(base, rs[1..])
  }

  function Stores(base: Reg, rs: seq<Reg>): seq<Instr> {
    if rs == [] then [] else [Store(base, rs[0])] + Stores(base, rs[1..])
  }

  ghost predicate Distinct(rs: seq<Reg>) {
    forall i, j :: 0 <= i < j < |rs| ==> rs[i] != rs[j]
  }

  /** Pushes move only RSP, fill the words below it, and touch no other memory. */
  lemma {:induction false} PushesEffect(m: Machine, rs: seq<Reg>, a: int)
    ensures var m' := Exec(m, Pushes(rs));
            && m'.gprs == m.gprs && m'.flags == m.flags && m'.rsp == m.rsp - 8 * |rs|
            && (!(m'.rsp <= a < m.rsp) ==> At(m'.mem, a) == At(m.mem, a))
    decreases |rs|
  {
    if rs != [] {
      hide Gprs.Get;
      PushesEffect(Do(m, Push(rs[0])), rs[1..], a);
      assert Pushes(rs)[1..] == Pushes(rs[1..]);
    }
  }

  /** The `i`-th word pushed below `rsp`. */
  function Slot(rsp: int, i: nat): (a: int)
    ensures a <= rsp - 8 && (i < 15 ==> rsp - 0x78 <= a)
  {
    rsp - 8 * (i + 1)
  }

  lemma {:induction false} PushedAt(m: Machine, rs: seq<Reg>, i: nat)
    requires i < |rs|
    ensures At(Exec(m, Pushes(rs)).mem, Slot(m.rsp, i)) == m.Get(rs[i])
    decreases |rs|
  {
    hide Gprs.Get;
    var next := Do(m, Push(rs[0]));
    assert Pushes(rs)[1..] == Pushes(rs[1..]);
    if i == 0 {
      PushesEffect(next, rs[1..], m.rsp - 8);
    } else {
      PushedAt(next, rs[1..], i - 1);
    }
  }

  lemma PopEffect(m: Machine, dst: Reg, r: Reg)
    ensures var m' := Do(m, Pop(dst));
            && m'.mem == m.mem && m'.flags == m.flags && m'.rsp == m.rsp + 8
            && m'.Get(r) == if r == dst then At(m.mem, m.rsp) else m.Get(r)
  {
    hide Gprs.Get, Gprs.Set, At;
  }

  /** Pops move RSP and change no register but those popped. */
  lemma {:induction false} PopsFrame(m: Machine, rs: seq<Reg>, r: Reg)
    ensures var m' := Exec(m, Pops(rs));
            && m'.mem == m.mem && m'.flags == m.flags && m'.rsp == m.rsp + 8 * |rs|
            && (r !in rs ==> m'.Get(r) == m.Get(r))
    decreases |rs|
  {
    hide Do, At, Machine.Get;
    if rs != [] {
      PopEffect(m, rs[0], r);
      PopsFrame(Do(m, Pop(rs[0])), rs[1..], r);
      assert Pops(rs)[1..] == Pops(rs[1..]);
    }
  }

  /** The `i`-th register popped holds the `i`-th word of the stack. */
  lemma {:induction false} PopsValue(m: Machine, rs: seq<Reg>, i: nat)
    requires Distinct(rs) && i < |rs|
    ensures Exec(m, Pops(rs)).Get(rs[i]) == At(m.mem, m.rsp + 8 * i)
    decreases |rs|
  {
    hide Do, At, Machine.Get;
    var next := Do(m, Pop(rs[0]));
    PopEffect(m, rs[0], rs[0]);
    assert Pops(rs)[1..] == Pops(rs[1..]);
    if i == 0 {
      PopsFrame(next, rs[1..], rs[0]);
    } else {
      PopsValue(next, rs[1..], i - 1);
    }
  }

  lemma {:induction false} LoadsEffect(m: Machine, base: Reg, rs: seq<Reg>, r: Reg)
    requires base !in rs
    ensures var m' := Exec(m, Loads(base, rs));
            && m'.mem == m.mem && m'.flags == m.flags && m'.rsp == m.rsp
            && m'.Get(r) == if r in rs then At(m.mem, m.Get(base) + Offset(r)) else m.Get(r)
    decreases |rs|
  {
    if rs != [] {
      hide Gprs.Get, Offset;
      var next := Do(m, Load(rs[0], base));
      LoadsEffect(next, base, rs[1..], r);
      assert Loads(base, rs)[1..] == Loads(base, rs[1..]);
    }
  }

  lemma StoreEffect(m: Machine, base: Reg, src: Reg, a: int)
    ensures var m' := Do(m, Store(base, src));
            && m'.gprs == m.gprs && m'.flags == m.flags && m'.rsp == m.rsp
            && At(m'.mem, a) == if a == m.Get(base) + Offset(src) then m.Get(src) else At(m.mem, a)
  {
    hide Gprs.Get, Offset;
  }

  lemma {:induction false} StoresEffect(m: Machine, base: Reg, rs: seq<Reg>, r: Reg, a: int)
    requires !(m.Get(base) <= a < m.Get(base) + 0x78)
    ensures var m' := Exec(m, Stores(base, rs));
            && m'.gprs == m.gprs && m'.flags == m.flags && m'.rsp == m.rsp && At(m'.mem, a) == At(m.mem, a)
            && At(m'.mem, m.Get(base) + Offset(r)) == if r in rs then m.Get(r) else At(m.mem, m.Get(base) + Offset(r))
    decreases |rs|
  {
    hide Gprs.Get, Offset, Do, At;
    if rs != [] {
      OffsetsDiffer(rs[0], r);
      var next := Do(m, Store(base, rs[0]));
      StoreEffect(m, base, rs[0], a);
      StoreEffect(m, base, rs[0], m.Get(base) + Offset(r));
      StoresEffect(next, base, rs[1..], r, a);
      assert Stores(base, rs)[1..] == Stores(base, rs[1..]);
    }
  }
}
