/** The AMD-V trampoline `run_svm_vm`, executed on an arbitrary guest: general-purpose
    registers, the hidden segment state, and the global interrupt flag. */
module SvmTrampoline {
  import opened Bits
  import opened Registers
  import opened Machine
  import opened Backend

  /** FS, GS, TR, LDTR and the system-call MSRs: what VMSAVE and VMLOAD move. */
  datatype Hidden = Hidden(values: seq<u64>)

  /** The processor: the machine, its hidden state, the save area of each VMCB by physical
      address, and the global interrupt flag. */
  datatype World = World(m: Machine, hidden: Hidden, areas: imap<u64, Hidden>, gif: bool) {
    ghost function Area(pa: u64): Hidden {
      if pa in areas then areas[pa] else Hidden([])
    }
  }

  /** What the guest leaves behind at the #VMEXIT. */
  datatype Guest = Guest(gprs: Gprs, hidden: Hidden)

  /** An ordinary instruction, or one of the SVM instructions, all of which use RAX. */
  datatype Op = Basic(i: Instr) | Vmsave | Vmload | Vmrun | Clgi | Stgi

  ghost function Step(w: World, g: Guest, op: Op): World {
    match op
    case Basic(i) => w.(m := Do(w.m, i))
    case Vmsave => w.(areas := w.areas[w.m.Get(RAX) := w.hidden])
    case Vmload => w.(hidden := w.Area(w.m.Get(RAX)))
    // The host's RAX, RSP and RIP come back; the other registers stay the guest's, and so
    // does the hidden state. #VMEXIT leaves GIF clear.
    case Vmrun => w.(m := w.m.(gprs := g.gprs.Set(RAX, w.m.Get(RAX)), flags := 2), hidden := g.hidden, gif := false)
    case Clgi => w.(gif := false)
    case Stgi => w.(gif := true)
  }

  ghost function Run(w: World, g: Guest, ops: seq<Op>): World
    decreases |ops|
  {
    if ops == [] then w else Run(Step(w, g, ops[0]), g, ops[1..])
  }

  /** At every instruction boundary, the hidden state is the host's or interrupts are masked. */
  ghost predicate Guarded(w: World, g: Guest, ops: seq<Op>, host: Hidden)
    decreases |ops|
  {
    Masked(w, host) && (ops == [] || Guarded(Step(w, g, ops[0]), g, ops[1..], host))
  }

  ghost predicate Masked(w: World, host: Hidden) {
    w.hidden == host || !w.gif
  }

  function Basics(code: seq<Instr>): seq<Op> {
    if code == [] then [] else [Basic(code[0])] + Basics(code[1..])
  }

  // --- The code ------------------------------------------------------------------------------

  function Saved(): seq<Reg> {
    [RBX, RBP, R12, R13, R14, R15, RDI, RSI, RDX]
  }

  function Restored(): seq<Reg> {
    [R15, R14, R13, R12, RBP, RBX]
  }

  function Loaded(): seq<Reg> {
    [RBX, RCX, RDX, RSI, RBP, R8, R9, R10, R11, R12, R13, R14, R15]
  }

  function Stored(): seq<Reg> {
    [RBX, RCX, RDX, RSI, RDI, RBP, R8, R9, R10, R11, R12, R13, R14, R15]
  }

  function Save(): seq<Instr> {
    Pushes(Saved()) + [Mov(RAX, RDX)]
  }

  function LoadGuest(): seq<Instr> {
    Loads(RDI, Loaded()) + [Load(RDI, RDI)]
  }

  function Capture(): seq<Instr> {
    [Xchg(RAX, 16)] + Stores(RAX, Stored()) + [AddRsp(24)] + Pops(Restored())
  }

  function EnterGuest(): seq<Op> {
    [Clgi, Basic(LoadStack(RAX, 8)), Vmload, Vmrun]
  }

  function LeaveGuest(): seq<Op> {
    [Vmsave, Basic(LoadStack(RAX, 0)), Vmload, Stgi]
  }

  /** `run_svm_vm` up to its `ret`. */
  function Code(): seq<Op> {
    Basics(Save()) + ([Vmsave] + (Basics(LoadGuest()) + (EnterGuest() + (LeaveGuest() + Basics(Capture())))))
  }

  // --- Composition ---------------------------------------------------------------------------

  lemma {:induction false} RunConcat(w: World, g: Guest, a: seq<Op>, b: seq<Op>, host: Hidden)
    ensures Run(w, g, a + b) == Run(Run(w, g, a), g, b)
    ensures Guarded(w, g, a, host) && Guarded(Run(w, g, a), g, b, host) ==> Guarded(w, g, a + b, host)
    decreases |a|
  {
    hide Step, Masked;
    if a == [] {
      assert a + b == b;
    } else {
      RunConcat(Step(w, g, a[0]), g, a[1..], b, host);
      assert (a + b)[1..] == a[1..] + b;
    }
  }

  /** Ordinary instructions change only the machine. */
  lemma {:induction false} RunBasics(w: World, g: Guest, code: seq<Instr>, host: Hidden)
    ensures Run(w, g, Basics(code)) == w.(m := Exec(w.m, code))
    ensures Masked(w, host) ==> Guarded(w, g, Basics(code), host)
    decreases |code|
  {
    if code != [] {
      hide Do;
      var next := Step(w, g, Basic(code[0]));
      RunBasics(next, g, code[1..], host);
      assert Basics(code)[1..] == Basics(code[1..]);
    }
  }

  lemma RunOne(w: World, g: Guest, op: Op, host: Hidden)
    ensures Run(w, g, [op]) == Step(w, g, op)
    ensures Masked(w, host) && Masked(Step(w, g, op), host) ==> Guarded(w, g, [op], host)
  {
    hide Step, Masked;
    assert [op][1..] == [];
    assert Run(Step(w, g, op), g, []) == Step(w, g, op);
  }

  lemma RunFour(w: World, g: Guest, a: Op, b: Op, c: Op, d: Op, host: Hidden)
    ensures var w1 := Step(w, g, a); var w2 := Step(w1, g, b); var w3 := Step(w2, g, c); var w4 := Step(w3, g, d);
            && Run(w, g, [a, b, c, d]) == w4
            && (Masked(w, host) && Masked(w1, host) && Masked(w2, host) && Masked(w3, host) && Masked(w4, host) ==>
                  Guarded(w, g, [a, b, c, d], host))
  {
    hide Step, Masked;
    var w1 := Step(w, g, a);
    var w2 := Step(w1, g, b);
    var w3 := Step(w2, g, c);
    assert [a, b, c, d][1..] == [b, c, d] && [b, c, d][1..] == [c, d] && [c, d][1..] == [d];
    RunOne(w3, g, d, host);
    assert Run(w2, g, [c, d]) == Run(w3, g, [d]);
    assert Run(w1, g, [b, c, d]) == Run(w2, g, [c, d]);
    if Masked(w, host) && Masked(w1, host) && Masked(w2, host) && Masked(w3, host) && Masked(Step(w3, g, d), host) {
      assert Guarded(w2, g, [c, d], host);
      assert Guarded(w1, g, [b, c, d], host);
    }
  }

  // --- The stages of a call --------------------------------------------------------------------

  /** After the pushes, with the host's hidden state in the scratch VMCB. */
  ghost function AtSaved(w: World): World {
    var m := Exec(w.m, Save());
    World(m, w.hidden, w.areas[m.Get(RAX) := w.hidden], w.gif)
  }

  ghost function AtLoaded(w: World): World {
    AtSaved(w).(m := Exec(AtSaved(w).m, LoadGuest()))
  }

  /** When VMRUN is executed. */
  ghost function AtVmrun(w: World): World {
    var m := Do(AtLoaded(w).m, LoadStack(RAX, 8));
    AtLoaded(w).(m := m, hidden := AtLoaded(w).Area(m.Get(RAX)), gif := false)
  }

  ghost function AtExit(w: World, g: Guest): World {
    Step(AtVmrun(w), g, Vmrun)
  }

  /** Host state back in place, interrupts unmasked. */
  ghost function AtHost(w: World, g: Guest): World {
    var x := AtExit(w, g);
    var m := Do(x.m, LoadStack(RAX, 0));
    var areas := x.areas[x.m.Get(RAX) := x.hidden];
    World(m, World(m, x.hidden, areas, false).Area(m.Get(RAX)), areas, true)
  }

  ghost function AtReturn(w: World, g: Guest): World {
    AtHost(w, g).(m := Exec(AtHost(w, g).m, Capture()))
  }

  lemma EnterSteps(w: World, g: Guest)
    ensures Run(AtLoaded(w), g, EnterGuest()) == AtExit(w, g)
    ensures Masked(AtLoaded(w), w.hidden) ==> Guarded(AtLoaded(w), g, EnterGuest(), w.hidden)
  {
    hide Run, Guarded, AtLoaded, Do;
    RunFour(AtLoaded(w), g, Clgi, Basic(LoadStack(RAX, 8)), Vmload, Vmrun, w.hidden);
  }

  lemma LeaveSteps(w: World, g: Guest)
    ensures Run(AtExit(w, g), g, LeaveGuest()) == AtHost(w, g)
    ensures Masked(AtHost(w, g), w.hidden) ==> Guarded(AtExit(w, g), g, LeaveGuest(), w.hidden)
  {
    hide Run, Guarded, AtVmrun, Do;
    RunFour(AtExit(w, g), g, Vmsave, Basic(LoadStack(RAX, 0)), Vmload, Stgi, w.hidden);
  }

  /** The stages are those of the code, and the whole call is guarded if its last stage is. */
  lemma Stages(w: World, g: Guest)
    ensures Run(w, g, Code()) == AtReturn(w, g)
    ensures AtHost(w, g).hidden == w.hidden ==> Guarded(w, g, Code(), w.hidden)
  {
    hide Run, Guarded, Exec, Save, LoadGuest, Capture, EnterGuest, LeaveGuest, AtExit, AtHost, Basics;
    var h := w.hidden;
    var c4 := Basics(Capture());
    var c3 := LeaveGuest() + c4;
    var c2 := EnterGuest() + c3;
    var c1 := Basics(LoadGuest()) + c2;
    RunBasics(w, g, Save(), h);
    RunConcat(w, g, Basics(Save()), [Vmsave] + c1, h);
    var s := w.(m := Exec(w.m, Save()));
    RunOne(s, g, Vmsave, h);
    RunConcat(s, g, [Vmsave], c1, h);
    RunBasics(AtSaved(w), g, LoadGuest(), h);
    RunConcat(AtSaved(w), g, Basics(LoadGuest()), c2, h);
    EnterSteps(w, g);
    RunConcat(AtLoaded(w), g, EnterGuest(), c3, h);
    LeaveSteps(w, g);
    RunConcat(AtExit(w, g), g, LeaveGuest(), c4, h);
    RunBasics(AtHost(w, g), g, Capture(), h);
  }

  // --- The machine ---------------------------------------------------------------------------

  /** The caller's register block lies outside the stack the trampoline uses, and both are aligned. */
  ghost predicate Apart(m: Machine) {
    var b := m.Get(RDI);
    Aligned(m.rsp) && Aligned(b) && (b + 0x78 <= m.rsp - 0x48 || m.rsp + 8 <= b)
  }

  ghost predicate InStack(m: Machine, a: int) {
    m.rsp - 0x48 <= a < m.rsp
  }

  ghost predicate InBlock(m: Machine, a: int) {
    m.Get(RDI) <= a < m.Get(RDI) + 0x78
  }

  lemma SaveSteps(m: Machine)
    ensures Exec(m, Save()) == Do(Exec(m, Pushes(Saved())), Mov(RAX, RDX))
  {
    hide Exec, Pushes, Saved, Do;
    ExecConcat(m, Pushes(Saved()), [Mov(RAX, RDX)]);
    ExecOne(Exec(m, Pushes(Saved())), Mov(RAX, RDX));
  }

  lemma SaveEffect(m: Machine, r: Reg, a: int)
    ensures var s := Exec(m, Save());
            && s.rsp == m.rsp - 0x48 && s.Get(r) == m.Get(if r == RAX then RDX else r)
            && (!InStack(m, a) ==> At(s.mem, a) == At(m.mem, a))
  {
    assert |Saved()| == 9;
    hide Exec, Pushes, Saved, Save, Gprs.Get, Do, At;
    SaveSteps(m);
    PushesEffect(m, Saved(), a);
    MovEffect(Exec(m, Pushes(Saved())), RAX, RDX, r);
  }

  lemma SaveCell(m: Machine, i: nat)
    requires i < 9
    ensures At(Exec(m, Save()).mem, Slot(m.rsp, i)) == m.Get(Saved()[i])
  {
    assert |Saved()| == 9;
    hide Exec, Pushes, Saved, Save, Gprs.Get, Slot, At, Do;
    SaveSteps(m);
    MovEffect(Exec(m, Pushes(Saved())), RAX, RDX, RAX);
    PushedAt(m, Saved(), i);
  }

  lemma LoadedCovers(r: Reg)
    ensures r == RAX || r == RDI <==> r !in Loaded()
  {
    match r
    case RBX => assert Loaded()[0] == r;
    case RCX => assert Loaded()[1] == r;
    case RDX => assert Loaded()[2] == r;
    case RSI => assert Loaded()[3] == r;
    case RBP => assert Loaded()[4] == r;
    case R8 => assert Loaded()[5] == r;
    case R9 => assert Loaded()[6] == r;
    case R10 => assert Loaded()[7] == r;
    case R11 => assert Loaded()[8] == r;
    case R12 => assert Loaded()[9] == r;
    case R13 => assert Loaded()[10] == r;
    case R14 => assert Loaded()[11] == r;
    case R15 => assert Loaded()[12] == r;
    case RAX =>
    case RDI =>
  }

  lemma StoredCovers(r: Reg)
    ensures r == RAX <==> r !in Stored()
  {
    match r
    case RBX => assert Stored()[0] == r;
    case RCX => assert Stored()[1] == r;
    case RDX => assert Stored()[2] == r;
    case RSI => assert Stored()[3] == r;
    case RDI => assert Stored()[4] == r;
    case RBP => assert Stored()[5] == r;
    case R8 => assert Stored()[6] == r;
    case R9 => assert Stored()[7] == r;
    case R10 => assert Stored()[8] == r;
    case R11 => assert Stored()[9] == r;
    case R12 => assert Stored()[10] == r;
    case R13 => assert Stored()[11] == r;
    case R14 => assert Stored()[12] == r;
    case R15 => assert Stored()[13] == r;
    case RAX =>
  }

  /** RDI, the base, is loaded last; RAX is left to VMRUN. */
  lemma LoadGuestEffect(m: Machine, r: Reg)
    ensures var l := Exec(m, LoadGuest());
            && l.rsp == m.rsp && l.mem == m.mem
            && l.Get(r) == if r == RAX then m.Get(r) else At(m.mem, m.Get(RDI) + Offset(r))
  {
    hide Exec, Loads, Loaded, Gprs.Get, Gprs.Set, Offset, At, Do;
    ExecConcat(m, Loads(RDI, Loaded()), [Load(RDI, RDI)]);
    var u := Exec(m, Loads(RDI, Loaded()));
    ExecOne(u, Load(RDI, RDI));
    LoadedCovers(RDI);
    LoadedCovers(r);
    LoadsEffect(m, RDI, Loaded(), RDI);
    LoadsEffect(m, RDI, Loaded(), r);
    LoadSelf(u, RDI, r);
  }

  // --- The exit path --------------------------------------------------------------------------

  ghost function Swapped(x: Machine): Machine {
    Do(x, Xchg(RAX, 16))
  }

  ghost function Written(x: Machine): Machine {
    Exec(Swapped(x), Stores(RAX, Stored()))
  }

  lemma CaptureSteps(x: Machine)
    ensures Exec(x, Capture()) == Exec(Do(Written(x), AddRsp(24)), Pops(Restored()))
  {
    hide Exec, Stores, Stored, Pops, Restored, Do;
    var c := [Xchg(RAX, 16)] + Stores(RAX, Stored());
    ExecConcat(x, c + [AddRsp(24)], Pops(Restored()));
    ExecConcat(x, c, [AddRsp(24)]);
    ExecConcat(x, [Xchg(RAX, 16)], Stores(RAX, Stored()));
    ExecOne(x, Xchg(RAX, 16));
    ExecOne(Written(x), AddRsp(24));
  }

  lemma SwapEffect(x: Machine, r: Reg, a: int)
    ensures var y := Swapped(x);
            && y.rsp == x.rsp
            && (a != x.rsp + 16 ==> At(y.mem, a) == At(x.mem, a))
            && y.Get(r) == if r == RAX then At(x.mem, x.rsp + 16) else x.Get(r)
  {
    hide Gprs.Get, Gprs.Set;
  }

  lemma RestoredDistinct()
    ensures Distinct(Restored()) && |Restored()| == 6
  {
  }

  lemma CaptureMemory(x: Machine)
    ensures Exec(x, Capture()).mem == Written(x).mem && Exec(x, Capture()).rsp == Written(x).rsp + 72
  {
    hide Exec, Stores, Stored, Pops, Restored, Written, Capture, Gprs.Get, Gprs.Set, At;
    CaptureSteps(x);
    RestoredDistinct();
    PopsFrame(Do(Written(x), AddRsp(24)), Restored(), RAX);
  }

  lemma CaptureRestores(x: Machine, i: nat)
    requires i < 6
    ensures Exec(x, Capture()).Get(Restored()[i]) == At(Written(x).mem, Written(x).rsp + 24 + 8 * i)
  {
    hide Exec, Stores, Stored, Pops, Restored, Written, Capture, Gprs.Get, Gprs.Set, At;
    CaptureSteps(x);
    RestoredDistinct();
    PopsValue(Do(Written(x), AddRsp(24)), Restored(), i);
  }

  /** Every slot of the block but RAX's is overwritten ... */
  lemma WritesBlock(x: Machine, r: Reg)
    requires !(At(x.mem, x.rsp + 16) <= x.rsp + 16 < At(x.mem, x.rsp + 16) + 0x78)
    ensures var a := At(x.mem, x.rsp + 16) + Offset(r);
            At(Written(x).mem, a) == if r == RAX then At(x.mem, a) else x.Get(r)
  {
    hide Exec, Stores, Stored, Swapped, Gprs.Get, Offset;
    var a := At(x.mem, x.rsp + 16) + Offset(r);
    OffsetsDiffer(r, r);
    StoredCovers(r);
    SwapEffect(x, r, a);
    SwapEffect(x, RAX, a);
    StoresEffect(Swapped(x), RAX, Stored(), r, x.rsp + 16);
  }

  /** ... and otherwise only one word of the stack. */
  lemma WritesElsewhere(x: Machine, a: int)
    ensures Written(x).rsp == x.rsp
    ensures !(At(x.mem, x.rsp + 16) <= a < At(x.mem, x.rsp + 16) + 0x78) && a != x.rsp + 16 ==>
              At(Written(x).mem, a) == At(x.mem, a)
  {
    hide Exec, Stores, Stored, Swapped, Gprs.Get, Offset;
    SwapEffect(x, RAX, a);
    var b: int := At(x.mem, x.rsp + 16);
    StoresEffect(Swapped(x), RAX, Stored(), RAX, if b <= a < b + 0x78 then b - 1 else a);
  }

  // --- The whole call ------------------------------------------------------------------------

  /** The state in which VMRUN is executed: the guest's registers from the block (RAX comes
      from the VMCB), its hidden state from its VMCB, RAX naming the VMCB, interrupts masked. */
  lemma AtVmrunState(w: World)
    requires Apart(w.m)
    ensures var v := AtVmrun(w); var m := w.m;
            && !v.gif && v.m.Get(RAX) == m.Get(RSI)
            && v.areas == w.areas[m.Get(RDX) := w.hidden]
            && v.hidden == (if m.Get(RSI) == m.Get(RDX) then w.hidden else w.Area(m.Get(RSI)))
            && (forall r | r != RAX :: v.m.Get(r) == At(m.mem, m.Get(RDI) + Offset(r)))
  {
    hide Exec, Save, LoadGuest, Gprs.Get, Gprs.Set, Offset, At, Do, Apart;
    VmrunMachine(w, RAX);
    SaveEffect(w.m, RAX, 0);
    forall r | r != RAX ensures AtVmrun(w).m.Get(r) == At(w.m.mem, w.m.Get(RDI) + Offset(r)) { VmrunMachine(w, r); }
  }

  lemma VmrunMachine(w: World, r: Reg)
    requires Apart(w.m)
    ensures var v := AtVmrun(w).m; var m := w.m;
            && v.rsp == m.rsp - 0x48 && v.mem == Exec(m, Save()).mem
            && v.Get(r) == if r == RAX then m.Get(RSI) else At(m.mem, m.Get(RDI) + Offset(r))
  {
    hide Exec, Save, LoadGuest, Gprs.Get, Gprs.Set, Offset, At, Do, InStack, Saved;
    var s := Exec(w.m, Save());
    var l := Exec(s, LoadGuest());
    BlockSlot(w.m, r);
    SaveEffect(w.m, RDI, w.m.Get(RDI) + Offset(r));
    LoadGuestEffect(s, r);
    LoadStackEffect(l, 8, r);
    GuestPointer(w.m);
  }

  lemma LoadStackEffect(m: Machine, off: int, r: Reg)
    ensures var l := Do(m, LoadStack(RAX, off));
            l.rsp == m.rsp && l.mem == m.mem && l.Get(r) == if r == RAX then At(m.mem, m.rsp + off) else m.Get(r)
  {
    hide Gprs.Get, Gprs.Set, At;
  }

  lemma BlockSlot(m: Machine, r: Reg)
    requires Apart(m)
    ensures !InStack(m, m.Get(RDI) + Offset(r))
  {
    hide Offset, Gprs.Get;
    OffsetsDiffer(r, r);
  }

  /** Where the three pointers are kept. */
  lemma GuestPointer(m: Machine)
    ensures var s := Exec(m, Save());
            && At(s.mem, m.rsp - 0x48 + 16) == m.Get(RDI)
            && At(s.mem, m.rsp - 0x48 + 8) == m.Get(RSI)
            && At(s.mem, m.rsp - 0x48) == m.Get(RDX)
  {
    hide Exec, Save, Gprs.Get, At;
    SaveCell(m, 6);
    SaveCell(m, 7);
    SaveCell(m, 8);
  }

  /** The host is back: its hidden state is restored if and only if the two VMCBs are
      distinct, or the guest happens to leave the same hidden state. */
  lemma HostState(w: World, g: Guest)
    requires Apart(w.m)
    ensures var h := AtHost(w, g); var m := w.m;
            && h.gif && (h.hidden == w.hidden <==> m.Get(RSI) != m.Get(RDX) || g.hidden == w.hidden)
            && h.areas == w.areas[m.Get(RDX) := w.hidden][m.Get(RSI) := g.hidden]
  {
    hide Exec, Save, LoadGuest, Gprs.Get, Offset, At, Do, Apart, AtVmrun;
    AtVmrunState(w);
    VmrunMachine(w, RAX);
    GuestPointer(w.m);
    LoadStackEffect(AtExit(w, g).m, 0, RAX);
  }

  lemma HostMachine(w: World, g: Guest, r: Reg)
    requires Apart(w.m)
    ensures var h := AtHost(w, g).m;
            && h.rsp == w.m.rsp - 0x48 && h.mem == Exec(w.m, Save()).mem
            && (r != RAX ==> h.Get(r) == g.gprs.Get(r))
  {
    hide Exec, Save, LoadGuest, Gprs.Get, Offset, At, Do, Apart, AtVmrun;
    VmrunMachine(w, RAX);
    LoadStackEffect(AtExit(w, g).m, 0, r);
  }

  /** What the caller relies on: the registers that the System V ABI makes a callee preserve, the
      guest's registers in the block, and the rest of memory. */
  ghost predicate Correct(m: Machine, f: Machine, g: Guest) {
    && f.rsp == m.rsp
    && f.Get(RBX) == m.Get(RBX) && f.Get(RBP) == m.Get(RBP) && f.Get(R12) == m.Get(R12)
    && f.Get(R13) == m.Get(R13) && f.Get(R14) == m.Get(R14) && f.Get(R15) == m.Get(R15)
    && (forall r | r != RAX :: At(f.mem, m.Get(RDI) + Offset(r)) == g.gprs.Get(r))
    && At(f.mem, m.Get(RDI) + Offset(RAX)) == At(m.mem, m.Get(RDI) + Offset(RAX))
    && (forall a | Aligned(a) && !InStack(m, a) && !InBlock(m, a) :: At(f.mem, a) == At(m.mem, a))
  }

  lemma CallCorrect(w: World, g: Guest)
    requires Apart(w.m)
    ensures Correct(w.m, AtReturn(w, g).m, g)
  {
    var f := AtReturn(w, g).m;
    hide Exec, Save, Capture, AtHost, Gprs.Get, Offset, At, Apart, AtReturn, InStack, InBlock, Restored;
    ReturnDepth(w, g);
    ReturnPreserves(w, g);
    forall r ensures At(f.mem, w.m.Get(RDI) + Offset(r))
                  == if r == RAX then At(w.m.mem, w.m.Get(RDI) + Offset(r)) else g.gprs.Get(r) { ReturnBlock(w, g, r); }
    forall a | !InStack(w.m, a) && !InBlock(w.m, a) ensures At(f.mem, a) == At(w.m.mem, a) { ReturnMemory(w, g, a); }
  }

  lemma ReturnPreserves(w: World, g: Guest)
    requires Apart(w.m)
    ensures var f, m := AtReturn(w, g).m, w.m;
            && f.Get(RBX) == m.Get(RBX) && f.Get(RBP) == m.Get(RBP) && f.Get(R12) == m.Get(R12)
            && f.Get(R13) == m.Get(R13) && f.Get(R14) == m.Get(R14) && f.Get(R15) == m.Get(R15)
  {
    hide AtReturn, Apart, Gprs.Get;
    ReturnRegister(w, g, 0);
    ReturnRegister(w, g, 1);
    ReturnRegister(w, g, 2);
    ReturnRegister(w, g, 3);
    ReturnRegister(w, g, 4);
    ReturnRegister(w, g, 5);
  }

  lemma ReturnDepth(w: World, g: Guest)
    requires Apart(w.m)
    ensures AtReturn(w, g).m.rsp == w.m.rsp
  {
    hide Exec, Save, Capture, AtHost, Gprs.Get, Offset, At, Apart, Written;
    HostMachine(w, g, RAX);
    CaptureMemory(AtHost(w, g).m);
    WritesElsewhere(AtHost(w, g).m, 0);
  }

  lemma ReturnRegister(w: World, g: Guest, i: nat)
    requires Apart(w.m) && i < |Restored()|
    ensures AtReturn(w, g).m.Get(Restored()[i]) == w.m.Get(Restored()[i])
  {
    hide Exec, Save, Capture, AtHost, Gprs.Get, At, Written, Restored, Saved, Slot, Apart;
    RestoredDistinct();
    SameOrder(i);
    var x := AtHost(w, g).m;
    CaptureRestores(x, i);
    SaveCell(w.m, 5 - i);
    SavedWord(w, g, i);
  }

  lemma SameOrder(i: nat)
    requires i < 6
    ensures Restored()[i] == Saved()[5 - i]
  {
  }

  lemma SavedWord(w: World, g: Guest, i: nat)
    requires Apart(w.m) && i < 6
    ensures var x := AtHost(w, g).m;
            At(Written(x).mem, Written(x).rsp + 24 + 8 * i) == At(Exec(w.m, Save()).mem, Slot(w.m.rsp, 5 - i))
  {
    hide Exec, Save, AtHost, Gprs.Get, At, Written;
    var x := AtHost(w, g).m;
    HostMachine(w, g, RAX);
    GuestPointer(w.m);
    WritesElsewhere(x, x.rsp + 24 + 8 * i);
  }

  lemma ReturnBlock(w: World, g: Guest, r: Reg)
    requires Apart(w.m)
    ensures At(AtReturn(w, g).m.mem, w.m.Get(RDI) + Offset(r))
         == if r == RAX then At(w.m.mem, w.m.Get(RDI) + Offset(r)) else g.gprs.Get(r)
  {
    hide Exec, Save, Capture, AtHost, Gprs.Get, Offset, At, Written;
    var x := AtHost(w, g).m;
    HostMachine(w, g, r);
    GuestPointer(w.m);
    CaptureMemory(x);
    WritesBlock(x, r);
    BlockSlot(w.m, r);
    SaveEffect(w.m, r, w.m.Get(RDI) + Offset(r));
  }

  lemma ReturnMemory(w: World, g: Guest, a: int)
    requires Apart(w.m) && !InStack(w.m, a) && !InBlock(w.m, a)
    ensures At(AtReturn(w, g).m.mem, a) == At(w.m.mem, a)
  {
    hide Exec, Save, Capture, AtHost, Gprs.Get, Offset, At, Written;
    var x := AtHost(w, g).m;
    HostMachine(w, g, RAX);
    GuestPointer(w.m);
    CaptureMemory(x);
    WritesElsewhere(x, a);
    SaveEffect(w.m, RAX, a);
  }

  /** The whole code on any guest. With distinct VMCBs the host never runs unmasked on the
      guest's hidden state, and gets its own back; the guest's is kept in its VMCB. */
  lemma Transparent(w: World, g: Guest)
    requires Apart(w.m)
    ensures var f := Run(w, g, Code());
            && Correct(w.m, f.m, g) && f.gif
            && (f.hidden == w.hidden <==> w.m.Get(RSI) != w.m.Get(RDX) || g.hidden == w.hidden)
            && f.Area(w.m.Get(RSI)) == g.hidden
    ensures w.m.Get(RSI) != w.m.Get(RDX) ==> Guarded(w, g, Code(), w.hidden)
  {
    hide Run, Guarded, Code, Correct, AtHost, Exec, Capture, Apart, Gprs.Get;
    Stages(w, g);
    CallCorrect(w, g);
    HostState(w, g);
  }

  /** A call on a block that holds `block`, as the backend makes it: the guest starts with those
      registers, RAX apart, and the block then holds what the backend takes back. */
  lemma BlockAfter(w: World, g: Guest, block: Gprs)
    requires Apart(w.m) && Holds(w.m.mem, w.m.Get(RDI), block)
    ensures forall r | r != RAX :: AtVmrun(w).m.Get(r) == block.Get(r)
    ensures Holds(Run(w, g, Code()).m.mem, w.m.Get(RDI), AfterSvm(block, g.gprs))
  {
    hide Run, Code, AtVmrun, Gprs.Get, Offset, Apart, InStack, InBlock, Restored, AfterSvm;
    AtVmrunState(w);
    Transparent(w, g);
    var f := Run(w, g, Code());
    forall r ensures At(f.m.mem, w.m.Get(RDI) + Offset(r)) == AfterSvm(block, g.gprs).Get(r) {
      AfterSvmGet(block, g.gprs, r);
    }
  }

  lemma AfterSvmGet(block: Gprs, guest: Gprs, r: Reg)
    ensures AfterSvm(block, guest).Get(r) == if r == RAX then block.Get(RAX) else guest.Get(r)
  {
  }
}
