/** The VT-x trampoline `run_vmx_vm`, executed on an arbitrary guest: VMRESUME first, and
    VMLAUNCH when the VMCS was never launched. */
module VmxTrampoline {
  import opened Bits
  import opened Registers
  import opened Machine

  /** The order in which the host's registers are pushed. */
  function Saved(): seq<Reg> {
    [RAX, RCX, RDX, RBX, RBP, RSI, RDI, R8, R9, R10, R11, R12, R13, R14, R15]
  }

  function Restored(): seq<Reg> {
    [R15, R14, R13, R12, R11, R10, R9, R8, RDI, RSI, RBP, RBX, RDX, RCX, RAX]
  }

  function Loaded(): seq<Reg> {
    [RAX, RBX, RCX, RDX, RDI, RSI, RBP, R8, R9, R10, R11, R12, R13, R14]
  }

  function Stored(): seq<Reg> {
    [RAX, RBX, RCX, RDX, RSI, RDI, RBP, R8, R9, R10, R11, R12, R13, R14]
  }

  function Enter(): seq<Instr> {
    Pushes(Saved()) + [Mov(R15, RDI), Push(R15)] + Loads(R15, Loaded()) + [Load(R15, R15)]
  }

  /** From the launch label: the saved flags are dropped, the block is found again. */
  function Relaunch(): seq<Instr> {
    [LoadStack(R15, 0), Load(R14, R15), Load(R15, R15)]
  }

  /** From the VM-exit label. */
  function Capture(): seq<Instr> {
    [Xchg(R15, 0)] + Stores(R15, Stored()) + [LoadStack(RAX, 0), StoreAs(R15, R15, RAX)]
  }

  /** From the exit label, up to the `ret`. */
  function Finish(): seq<Instr> {
    [Pop(RAX)] + Pops(Restored()) + [Pushf, Pop(RAX)]
  }

  /** The outcome of VMRESUME or VMLAUNCH: it fails, with these flags, or the guest runs and
      then leaves these registers. */
  datatype Outcome = Fails(flags: u64) | Exits(guest: Gprs)

  /** What the processor does during one call: `error` is what VMREAD of the
      VM-instruction-error field leaves in R15, and `junk` what LEA and VMREAD clobber. */
  datatype Processor = Processor(resume: Outcome, error: u64, launch: Outcome, junk: u64)

  /** After a VM-exit: RSP from the VMCS, RFLAGS reset, registers as the guest left them. */
  ghost function AfterExit(m: Machine, hostRsp: int, guest: Gprs): Machine {
    m.(gprs := guest, rsp := hostRsp, flags := 2)
  }

  ghost function Return(m: Machine): Machine {
    Exec(m, Finish())
  }

  ghost function Caught(m: Machine, hostRsp: int, guest: Gprs): Machine {
    Return(Exec(AfterExit(m, hostRsp, guest), Capture()))
  }

  /** The state at VMLAUNCH, and the host RSP recorded for it. */
  ghost function AtLaunch(m: Machine, p: Processor): Machine
    requires p.resume.Fails?
  {
    Exec(Dropped(m, p), Relaunch())
  }

  /** `run_vmx_vm` up to its `ret`: the final state, and the host RSP in the VMCS. */
  ghost function Run(m: Machine, hostRsp: int, p: Processor): (Machine, int) {
    var e := Exec(m, Enter());
    match p.resume
    case Exits(guest) => (Caught(e, hostRsp, guest), hostRsp)
    case Fails(flags) =>
      if p.error != 5 then (Return(Do(Do(e.(flags := flags), Pushf).Set(R15, p.error).(flags := p.junk), Popf)), hostRsp)
      else
        var l := AtLaunch(m, p);
        match p.launch
        case Exits(guest) => (Caught(l, l.rsp, guest), l.rsp)
        case Fails(flags') => (Return(l.(flags := flags')), l.rsp)
  }

  // --- What the code relies on and keeps --------------------------------------------------

  /** The caller's register block lies outside the stack the trampoline uses, and both are aligned. */
  ghost predicate Apart(m: Machine) {
    var b := m.Get(RDI);
    Aligned(m.rsp) && Aligned(b) && (b + 0x78 <= m.rsp - 0x88 || m.rsp + 8 <= b)
  }

  /** `m` is inside a call made in state `m0`: the block pointer is on top of the stack,
      the host's registers are below it, and other memory is as it was. */
  ghost predicate Inside(m0: Machine, m: Machine) {
    m.rsp == m0.rsp - 0x80 && At(m.mem, m.rsp) == m0.Get(RDI) && Kept(m0, m)
  }

  ghost predicate Kept(m0: Machine, m: Machine) {
    && (forall i: nat | i < 15 :: Cell(m0, m, i))
    && (forall a | !InStack(m0, a) && !InBlock(m0, a) :: SameAt(m0, m, a))
  }

  /** Stack slot `i` holds the host register pushed there. */
  ghost predicate Cell(m0: Machine, m: Machine, i: nat)
    requires i < 15
  {
    At(m.mem, Slot(m0.rsp, i)) == m0.Get(Saved()[i])
  }

  ghost predicate SameAt(m0: Machine, m: Machine, a: int) {
    At(m.mem, a) == At(m0.mem, a)
  }

  predicate InStack(m0: Machine, a: int) {
    m0.rsp - 0x88 <= a < m0.rsp
  }

  ghost predicate InBlock(m0: Machine, a: int) {
    m0.Get(RDI) <= a < m0.Get(RDI) + 0x78
  }

  /** On entry the host's registers and the block pointer are saved ... */
  lemma EnterSaves(m: Machine)
    requires Apart(m)
    ensures var e := Exec(m, Enter());
            Inside(m, e) && (forall a | InBlock(m, a) :: SameAt(m, e, a))
  {
    hide Exec, Enter, SameAt, Cell, InBlock, InStack;
    EnterTop(m);
    var e := Exec(m, Enter());
    forall i: nat | i < 15 ensures Cell(m, e, i) { EnterCell(m, i); }
    forall a | !InStack(m, a) ensures SameAt(m, e, a) { EnterElsewhere(m, a); }
    forall a | InBlock(m, a) ensures SameAt(m, e, a) { BlockIsNotStack(m, a); }
  }

  lemma BlockIsNotStack(m: Machine, a: int)
    requires Apart(m) && InBlock(m, a)
    ensures !InStack(m, a)
  {
  }

  /** Entering changes memory only by its pushes. */
  lemma EnterIsPushes(m: Machine)
    ensures Exec(m, Enter()).mem == AfterPushes(m).mem && Exec(m, Enter()).rsp == AfterPushes(m).rsp
  {
    LoadedCovers(R15);
    hide Exec, Enter, Loads, AfterPushes, Loaded, Gprs.Get, Gprs.Set;
    EnterSteps(m);
    LoadsEffect(AfterPushes(m), R15, Loaded(), R15);
  }

  lemma EnterTop(m: Machine)
    ensures var e := Exec(m, Enter()); e.rsp == m.rsp - 0x80 && At(e.mem, e.rsp) == m.Get(RDI)
  {
    hide Exec, Enter, Pushes, Saved, Gprs.Get, Gprs.Set, AfterPushes;
    EnterIsPushes(m);
    AfterPushesEffect(m, 0);
  }

  lemma EnterCell(m: Machine, i: nat)
    requires i < 15
    ensures Cell(m, Exec(m, Enter()), i)
  {
    assert |Saved()| == 15;
    hide Exec, Enter, Pushes, Saved, Gprs.Get, Gprs.Set, AfterPushes;
    EnterIsPushes(m);
    hide At, Slot;
    PushedAt(m, Saved(), i);
    AfterPushesEffect(m, Slot(m.rsp, i));
  }

  lemma EnterElsewhere(m: Machine, a: int)
    requires !InStack(m, a)
    ensures SameAt(m, Exec(m, Enter()), a)
  {
    assert |Saved()| == 15;
    hide Exec, Enter, Pushes, Saved, Gprs.Get, Gprs.Set, AfterPushes;
    EnterIsPushes(m);
    AfterPushesEffect(m, a);
    PushesEffect(m, Saved(), a);
  }

  lemma AfterPushesEffect(m: Machine, a: int)
    ensures var t := AfterPushes(m);
            && t.rsp == m.rsp - 0x80 && At(t.mem, t.rsp) == m.Get(RDI) == t.Get(R15)
            && (a != m.rsp - 0x80 ==> At(t.mem, a) == At(Exec(m, Pushes(Saved())).mem, a))
  {
    hide Exec, Pushes, Saved, Gprs.Get, Gprs.Set, Do;
    PushedState(m);
    MovPush(Exec(m, Pushes(Saved())), a);
  }

  lemma PushedState(m: Machine)
    ensures var s := Exec(m, Pushes(Saved())); s.rsp == m.rsp - 0x78 && s.gprs == m.gprs
  {
    assert |Saved()| == 15;
    hide Exec, Pushes, Saved, Gprs.Get, Gprs.Set, Do, At;
    PushesEffect(m, Saved(), 0);
  }

  lemma MovPush(x: Machine, a: int)
    ensures var t := Do(Do(x, Mov(R15, RDI)), Push(R15));
            && t.rsp == x.rsp - 8 && At(t.mem, t.rsp) == x.Get(RDI) == t.Get(R15)
            && (a != x.rsp - 8 ==> At(t.mem, a) == At(x.mem, a))
  {
    hide Gprs.Get, Gprs.Set;
  }

  /** ... and every register is loaded from its slot in the block. */
  lemma EnterLoads(m: Machine, r: Reg)
    requires Apart(m)
    ensures Exec(m, Enter()).Get(r) == At(m.mem, m.Get(RDI) + Offset(r))
  {
    hide Exec, Loads, Pushes, Enter, AfterPushes, Apart, Offset, Loaded, Gprs.Get, Gprs.Set, Do, At;
    EnterSteps(m);
    AfterPushesEffect(m, 0);
    EnterIsPushes(m);
    BlockSlot(m, r);
    EnterElsewhere(m, m.Get(RDI) + Offset(r));
    LoadedCovers(r);
    LoadedCovers(R15);
    LoadsEffect(AfterPushes(m), R15, Loaded(), r);
    LoadsEffect(AfterPushes(m), R15, Loaded(), R15);
    var u := Exec(AfterPushes(m), Loads(R15, Loaded()));
    LoadSelf(u, R15, r);
  }

  lemma BlockSlot(m: Machine, r: Reg)
    requires Apart(m)
    ensures !InStack(m, m.Get(RDI) + Offset(r))
  {
    hide Offset, Gprs.Get;
    OffsetsDiffer(r, r);
  }

  lemma LoadedCovers(r: Reg)
    ensures r == R15 <==> r !in Loaded()
  {
    match r
    case RAX => assert Loaded()[0] == r;
    case RBX => assert Loaded()[1] == r;
    case RCX => assert Loaded()[2] == r;
    case RDX => assert Loaded()[3] == r;
    case RDI => assert Loaded()[4] == r;
    case RSI => assert Loaded()[5] == r;
    case RBP => assert Loaded()[6] == r;
    case R8 => assert Loaded()[7] == r;
    case R9 => assert Loaded()[8] == r;
    case R10 => assert Loaded()[9] == r;
    case R11 => assert Loaded()[10] == r;
    case R12 => assert Loaded()[11] == r;
    case R13 => assert Loaded()[12] == r;
    case R14 => assert Loaded()[13] == r;
    case R15 =>
  }

  lemma StoredCovers(r: Reg)
    ensures r == R15 <==> r !in Stored()
  {
    match r
    case RAX => assert Stored()[0] == r;
    case RBX => assert Stored()[1] == r;
    case RCX => assert Stored()[2] == r;
    case RDX => assert Stored()[3] == r;
    case RSI => assert Stored()[4] == r;
    case RDI => assert Stored()[5] == r;
    case RBP => assert Stored()[6] == r;
    case R8 => assert Stored()[7] == r;
    case R9 => assert Stored()[8] == r;
    case R10 => assert Stored()[9] == r;
    case R11 => assert Stored()[10] == r;
    case R12 => assert Stored()[11] == r;
    case R13 => assert Stored()[12] == r;
    case R14 => assert Stored()[13] == r;
    case R15 =>
  }

  ghost function AfterPushes(m: Machine): Machine {
    Do(Do(Exec(m, Pushes(Saved())), Mov(R15, RDI)), Push(R15))
  }

  lemma EnterSteps(m: Machine)
    ensures Exec(m, Enter())
         == Do(Exec(AfterPushes(m), Loads(R15, Loaded())), Load(R15, R15))
  {
    var two, last := [Mov(R15, RDI), Push(R15)], [Load(R15, R15)];
    ExecConcat(m, Pushes(Saved()) + two + Loads(R15, Loaded()), last);
    ExecConcat(m, Pushes(Saved()) + two, Loads(R15, Loaded()));
    ExecConcat(m, Pushes(Saved()), two);
    ExecTwo(Exec(m, Pushes(Saved())), Mov(R15, RDI), Push(R15));
    ExecOne(Exec(m, Pushes(Saved()) + two + Loads(R15, Loaded())), Load(R15, R15));
  }

  // --- The launch path ---------------------------------------------------------------------

  /** At VMLAUNCH the stack is as on entry, and so are the registers. */
  lemma LaunchState(m: Machine, p: Processor)
    requires Apart(m) && p.resume.Fails?
    ensures Inside(m, AtLaunch(m, p))
    ensures forall a | InBlock(m, a) :: SameAt(m, AtLaunch(m, p), a)
  {
    hide Enter, Exec, SameAt, Cell, InBlock, InStack, AtLaunch;
    EnterSaves(m);
    LaunchTop(m, p);
    var e, l := Exec(m, Enter()), AtLaunch(m, p);
    forall i: nat | i < 15 ensures Cell(m, l, i) {
      LaunchMemory(m, p, Slot(m.rsp, i));
      SameCell(m, e, l, i);
    }
    forall a | !InStack(m, a) ensures SameAt(m, e, a) ==> SameAt(m, l, a) { LaunchElsewhere(m, p, a); }
    forall a | InBlock(m, a) ensures SameAt(m, l, a) { BlockIsNotStack(m, a); }
  }

  lemma SameCell(m0: Machine, m: Machine, m': Machine, i: nat)
    requires i < 15 && Cell(m0, m, i) && At(m'.mem, Slot(m0.rsp, i)) == At(m.mem, Slot(m0.rsp, i))
    ensures Cell(m0, m', i)
  {
  }

  lemma LaunchElsewhere(m: Machine, p: Processor, a: int)
    requires p.resume.Fails? && !InStack(m, a)
    ensures SameAt(m, Exec(m, Enter()), a) ==> SameAt(m, AtLaunch(m, p), a)
  {
    hide Enter, Exec, AtLaunch;
    LaunchMemory(m, p, a);
  }

  lemma LaunchMemory(m: Machine, p: Processor, a: int)
    requires p.resume.Fails? && a != m.rsp - 0x88
    ensures At(AtLaunch(m, p).mem, a) == At(Exec(m, Enter()).mem, a)
  {
    hide Enter, Exec, Gprs.Get, Gprs.Set, Dropped, Relaunch;
    RelaunchKeeps(Dropped(m, p), a);
    EnterTop(m);
    DroppedMemory(m, p, a);
  }

  lemma RelaunchKeeps(x: Machine, a: int)
    ensures At(Exec(x, Relaunch()).mem, a) == At(x.mem, a) && Exec(x, Relaunch()).rsp == x.rsp
  {
    hide Exec, Gprs.Get, Gprs.Set, Offset, Relaunch;
    RelaunchSteps(x);
  }

  lemma DroppedMemory(m: Machine, p: Processor, a: int)
    requires p.resume.Fails?
    ensures a != Exec(m, Enter()).rsp - 8 ==> At(Dropped(m, p).mem, a) == At(Exec(m, Enter()).mem, a)
    ensures Dropped(m, p).rsp == Exec(m, Enter()).rsp
  {
    hide Enter, Exec, Gprs.Get, Gprs.Set;
  }

  lemma LaunchTop(m: Machine, p: Processor)
    requires p.resume.Fails?
    ensures var l := AtLaunch(m, p); l.rsp == m.rsp - 0x80 && At(l.mem, l.rsp) == m.Get(RDI)
  {
    hide Enter, Exec, Gprs.Get, Gprs.Set, Dropped, Relaunch;
    EnterTop(m);
    LaunchMemory(m, p, m.rsp - 0x80);
    RelaunchKeeps(Dropped(m, p), 0);
    DroppedMemory(m, p, 0);
  }

  /** VMLAUNCH too sees the whole block in the registers. */
  lemma LaunchLoads(m: Machine, p: Processor, r: Reg)
    requires Apart(m) && p.resume.Fails?
    ensures AtLaunch(m, p).Get(r) == At(m.mem, m.Get(RDI) + Offset(r))
  {
    hide Enter, Exec, Gprs.Get, Gprs.Set, Offset, Relaunch, Apart, Dropped;
    LaunchTop(m, p);
    RelaunchKeeps(Dropped(m, p), m.rsp - 0x80);
    EnterLoads(m, r);
    RelaunchLoads(Dropped(m, p), r);
    BlockMemory(m, p, r);
    if r != R14 && r != R15 { DroppedRegisters(m, p, r); }
  }

  lemma RelaunchLoads(x: Machine, r: Reg)
    ensures Exec(x, Relaunch()).Get(r) == if r == R14 || r == R15 then At(x.mem, At(x.mem, x.rsp) + Offset(r)) else x.Get(r)
  {
    hide Exec, Gprs.Get, Gprs.Set, Offset, Relaunch;
    RelaunchSteps(x);
  }

  lemma DroppedRegisters(m: Machine, p: Processor, r: Reg)
    requires p.resume.Fails? && r != R14 && r != R15
    ensures Dropped(m, p).Get(r) == Exec(m, Enter()).Get(r)
  {
    hide Enter, Exec, Gprs.Get, Gprs.Set;
  }

  lemma BlockMemory(m: Machine, p: Processor, r: Reg)
    requires Apart(m) && p.resume.Fails?
    ensures var a := m.Get(RDI) + Offset(r); At(Dropped(m, p).mem, a) == At(m.mem, a)
  {
    hide Enter, Exec, Gprs.Get, Gprs.Set, Offset, Dropped;
    OffsetsDiffer(r, r);
    EnterTop(m);
    EnterElsewhere(m, m.Get(RDI) + Offset(r));
    DroppedMemory(m, p, m.Get(RDI) + Offset(r));
  }

  /** After the saved flags are dropped and the VMCS host fields are written. */
  ghost function Dropped(m: Machine, p: Processor): Machine
    requires p.resume.Fails?
  {
    Do(Do(Exec(m, Enter()).(flags := p.resume.flags), Pushf).Set(R15, p.error), Pop(R15)).Set(R14, p.junk).Set(R15, p.junk)
  }

  lemma RelaunchSteps(m: Machine)
    ensures Exec(m, Relaunch()) == Do(Do(Do(m, LoadStack(R15, 0)), Load(R14, R15)), Load(R15, R15))
  {
    assert Relaunch() == [LoadStack(R15, 0)] + [Load(R14, R15), Load(R15, R15)];
    ExecConcat(m, [LoadStack(R15, 0)], [Load(R14, R15), Load(R15, R15)]);
    ExecOne(m, LoadStack(R15, 0));
    ExecTwo(Do(m, LoadStack(R15, 0)), Load(R14, R15), Load(R15, R15));
  }

  // --- The exit path -----------------------------------------------------------------------

  ghost function Swapped(x: Machine): Machine {
    Do(x, Xchg(R15, 0))
  }

  lemma CaptureSteps(x: Machine)
    ensures Exec(x, Capture())
         == Do(Do(Exec(Swapped(x), Stores(R15, Stored())), LoadStack(RAX, 0)), StoreAs(R15, R15, RAX))
  {
    var last := [LoadStack(RAX, 0), StoreAs(R15, R15, RAX)];
    ExecConcat(x, [Xchg(R15, 0)] + Stores(R15, Stored()), last);
    ExecConcat(x, [Xchg(R15, 0)], Stores(R15, Stored()));
    ExecOne(x, Xchg(R15, 0));
    ExecTwo(Exec(Swapped(x), Stores(R15, Stored())), LoadStack(RAX, 0), StoreAs(R15, R15, RAX));
  }

  lemma SwapEffect(x: Machine, r: Reg, a: int)
    ensures var y := Swapped(x);
            && y.rsp == x.rsp && y.flags == x.flags && At(y.mem, x.rsp) == x.Get(R15)
            && (a != x.rsp ==> At(y.mem, a) == At(x.mem, a))
            && y.Get(r) == if r == R15 then At(x.mem, x.rsp) else x.Get(r)
  {
    hide Gprs.Get, Gprs.Set;
  }

  lemma LastStore(z: Machine, a: int)
    ensures var w := Do(Do(z, LoadStack(RAX, 0)), StoreAs(R15, R15, RAX)); var last := z.Get(R15) + Offset(R15);
            && w.rsp == z.rsp && w.flags == z.flags
            && At(w.mem, a) == if a == last then At(z.mem, z.rsp) else At(z.mem, a)
  {
    hide Gprs.Get, Gprs.Set, Offset;
  }

  /** The exit path writes every guest register to its slot in the block ... */
  lemma CaptureStores(x: Machine, r: Reg)
    requires !(At(x.mem, x.rsp) <= x.rsp < At(x.mem, x.rsp) + 0x78)
    ensures At(Exec(x, Capture()).mem, At(x.mem, x.rsp) + Offset(r)) == x.Get(r)
  {
    hide Exec, Capture, Stores, Stored, Gprs.Get, Offset, Swapped, Do;
    CaptureSteps(x);
    StoredCovers(r);
    OffsetsDiffer(r, R15);
    SwapEffect(x, R15, x.rsp);
    SwapEffect(x, r, x.rsp);
    StoresEffect(Swapped(x), R15, Stored(), r, x.rsp);
    LastStore(Exec(Swapped(x), Stores(R15, Stored())), At(x.mem, x.rsp) + Offset(r));
  }

  /** ... and otherwise only the top of the stack. */
  lemma CaptureKeeps(x: Machine, a: int)
    requires !(At(x.mem, x.rsp) <= x.rsp < At(x.mem, x.rsp) + 0x78)
    ensures var w := Exec(x, Capture());
            && w.rsp == x.rsp && w.flags == x.flags
            && (!(At(x.mem, x.rsp) <= a < At(x.mem, x.rsp) + 0x78) && a != x.rsp ==> At(w.mem, a) == At(x.mem, a))
  {
    hide Exec, Capture, Stores, Stored, Gprs.Get, Offset, Swapped, Do;
    CaptureSteps(x);
    OffsetsDiffer(R15, R15);
    SwapEffect(x, R15, a);
    var b := if At(x.mem, x.rsp) <= a < At(x.mem, x.rsp) + 0x78 then x.rsp else a;
    StoresEffect(Swapped(x), R15, Stored(), R15, b);
    LastStore(Exec(Swapped(x), Stores(R15, Stored())), a);
  }

  // --- The return path ---------------------------------------------------------------------

  lemma FinishSteps(x: Machine)
    ensures Exec(x, Finish()) == Do(Do(Exec(Do(x, Pop(RAX)), Pops(Restored())), Pushf), Pop(RAX))
  {
    ExecConcat(x, [Pop(RAX)] + Pops(Restored()), [Pushf, Pop(RAX)]);
    ExecConcat(x, [Pop(RAX)], Pops(Restored()));
    ExecOne(x, Pop(RAX));
    ExecTwo(Exec(Do(x, Pop(RAX)), Pops(Restored())), Pushf, Pop(RAX));
  }

  /** The place of each register among those restored. */
  function Place(r: Reg): (i: nat)
    ensures i < 15 && Restored()[i] == r && Saved()[14 - i] == r
  {
    match r
    case R15 => 0 case R14 => 1 case R13 => 2 case R12 => 3 case R11 => 4 case R10 => 5 case R9 => 6
    case R8 => 7 case RDI => 8 case RSI => 9 case RBP => 10 case RBX => 11 case RDX => 12 case RCX => 13 case RAX => 14
  }

  lemma RestoredDistinct()
    ensures Distinct(Restored())
  {
    forall i, j | 0 <= i < j < |Restored()|
      ensures Restored()[i] != Restored()[j]
    {
      assert Place(Restored()[i]) == i;
    }
  }

  lemma FinishRestores(m0: Machine, x: Machine, r: Reg)
    requires Kept(m0, x) && x.rsp == m0.rsp - 0x80
    ensures Return(x).Get(r) == if r == RAX then x.flags else m0.Get(r)
  {
    hide Exec, Finish, Pops, Gprs.Get, Gprs.Set;
    FinishSteps(x);
    RestoredDistinct();
    assert |Restored()| == 15;
    var i := Place(r);
    hide Restored, Saved, Place;
    PopsFrame(Do(x, Pop(RAX)), Restored(), r);
    PopsValue(Do(x, Pop(RAX)), Restored(), i);
    assert Cell(m0, x, 14 - i);
  }

  lemma FinishKeeps(x: Machine)
    ensures Return(x).rsp == x.rsp + 0x80
    ensures forall a :: a != x.rsp + 0x78 ==> At(Return(x).mem, a) == At(x.mem, a)
  {
    hide Exec, Finish, Pops, Gprs.Get, Gprs.Set;
    FinishSteps(x);
    RestoredDistinct();
    assert |Restored()| == 15;
    hide Restored;
    PopsFrame(Do(x, Pop(RAX)), Restored(), RAX);
  }

  // --- Whole calls -------------------------------------------------------------------------

  /** What the caller relies on: RSP and every register but RAX are as before the call, and
      so is all memory other than the block and the words below the caller's stack. */
  ghost predicate Returns(m: Machine, f: Machine) {
    && f.rsp == m.rsp
    && (forall r | r != RAX :: f.Get(r) == m.Get(r))
    && (forall a | Aligned(a) && !InStack(m, a) && !InBlock(m, a) :: SameAt(m, f, a))
  }

  lemma FinishReturns(m0: Machine, x: Machine)
    requires Kept(m0, x) && x.rsp == m0.rsp - 0x80
    ensures Returns(m0, Return(x)) && Return(x).Get(RAX) == x.flags
    ensures forall a | !InStack(m0, a) :: SameAt(x, Return(x), a)
  {
    hide Return, Kept, Gprs.Get;
    FinishKeeps(x);
    FinishRestores(m0, x, RAX);
    forall r | r != RAX ensures Return(x).Get(r) == m0.Get(r) { FinishRestores(m0, x, r); }
    forall a | !InStack(m0, a) && !InBlock(m0, a) ensures SameAt(m0, Return(x), a) { Elsewhere(m0, x, a); }
  }

  lemma Elsewhere(m0: Machine, x: Machine, a: int)
    requires Kept(m0, x) && !InStack(m0, a) && !InBlock(m0, a)
    ensures At(x.mem, a) == At(m0.mem, a)
  {
    assert SameAt(m0, x, a);
  }

  /** After a VM-exit in a state whose stack is intact, the call returns with the guest's
      registers in the block. */
  lemma CaughtReturns(m0: Machine, m: Machine, guest: Gprs)
    requires Apart(m0) && Inside(m0, m)
    ensures var f := Caught(m, m.rsp, guest);
            Returns(m0, f) && f.Get(RAX) == 2 && Holds(f.mem, m0.Get(RDI), guest)
  {
    var x := AfterExit(m, m.rsp, guest);
    var w := Exec(x, Capture());
    hide Exec, Capture, Return, Gprs.Get, Offset;
    InsideByMemory(m0, m, x);
    CaptureInside(m0, x);
    FinishReturns(m0, w);
    forall r
      ensures At(Return(w).mem, m0.Get(RDI) + Offset(r)) == guest.Get(r)
    {
      CaptureStores(x, r);
      BlockSlot(m0, r);
      assert SameAt(w, Return(w), m0.Get(RDI) + Offset(r));
    }
  }

  lemma CaptureInside(m0: Machine, x: Machine)
    requires Apart(m0) && Inside(m0, x)
    ensures var w := Exec(x, Capture()); Kept(m0, w) && w.rsp == x.rsp && w.flags == x.flags
  {
    hide Exec, Capture, Cell, SameAt, Gprs.Get, Slot;
    var w := Exec(x, Capture());
    CaptureKeeps(x, 0);
    forall i: nat | i < 15 ensures Cell(m0, w, i) {
      CaptureKeeps(x, Slot(m0.rsp, i));
      SameCell(m0, x, w, i);
    }
    forall a | !InStack(m0, a) && !InBlock(m0, a) ensures SameAt(m0, w, a) {
      CaptureKeeps(x, a);
      SameThrough(m0, x, w, a);
    }
  }

  lemma InsideByMemory(m0: Machine, m: Machine, x: Machine)
    requires Inside(m0, m) && x.mem == m.mem && x.rsp == m.rsp
    ensures Inside(m0, x)
  {
    forall i: nat | i < 15 ensures Cell(m0, x, i) { assert Cell(m0, m, i); }
    forall a | !InStack(m0, a) && !InBlock(m0, a) ensures SameAt(m0, x, a) { assert SameAt(m0, m, a); }
  }

  lemma SameThrough(m0: Machine, x: Machine, w: Machine, a: int)
    requires SameAt(m0, x, a) && At(w.mem, a) == At(x.mem, a)
    ensures SameAt(m0, w, a)
  {
  }

  /** After a failure in a state whose stack is intact, the block is as it was. */
  lemma FailedReturns(m0: Machine, x: Machine)
    requires Apart(m0) && Inside(m0, x) && (forall a | InBlock(m0, a) :: SameAt(m0, x, a))
    ensures var f := Return(x);
            Returns(m0, f) && f.Get(RAX) == x.flags && (forall a | InBlock(m0, a) :: SameAt(m0, f, a))
  {
    hide Return, Kept, Gprs.Get, Apart, InBlock, InStack;
    FinishReturns(m0, x);
    forall a | InBlock(m0, a) ensures SameAt(m0, Return(x), a) {
      BlockIsNotStack(m0, a);
      assert SameAt(x, Return(x), a) && SameAt(m0, x, a);
    }
  }

  /** How the call ends: with a VM-exit, or with the flags of the instruction that failed. */
  function Ending(p: Processor): Outcome {
    if p.resume.Exits? || p.error != 5 then p.resume else p.launch
  }

  /** VMRESUME failing for want of a launch is what sends the call to VMLAUNCH. */
  predicate Launches(p: Processor) {
    p.resume.Fails? && p.error == 5
  }

  /** A whole call: the host side is restored, RAX reports the flags, and the block holds
      the guest's registers exactly when the guest ran. */
  ghost predicate Correct(m: Machine, f: Machine, ending: Outcome) {
    && Returns(m, f)
    && match ending
       case Exits(guest) => f.Get(RAX) == 2 && Holds(f.mem, m.Get(RDI), guest)
       case Fails(flags) => f.Get(RAX) == flags && (forall a | Aligned(a) && InBlock(m, a) :: SameAt(m, f, a))
  }

  lemma CallCorrect(m: Machine, hostRsp: int, p: Processor)
    requires Apart(m) && (p.resume.Exits? ==> hostRsp == m.rsp - 0x80)
    ensures Correct(m, Run(m, hostRsp, p).0, Ending(p))
  {
    hide Exec, Enter, Returns, Inside, Holds, Return, Caught, AtLaunch, Apart, InBlock, SameAt, Do, Gprs.Get, Gprs.Set;
    EnterSaves(m);
    EnterTop(m);
    match p.resume
    case Exits(guest) => CaughtReturns(m, Exec(m, Enter()), guest);
    case Fails(flags) =>
      if p.error != 5 {
        NotLaunched(m, p);
      } else {
        LaunchState(m, p);
        LaunchTop(m, p);
        match p.launch
        case Exits(guest) => CaughtReturns(m, AtLaunch(m, p), guest);
        case Fails(flags') =>
          var l := AtLaunch(m, p).(flags := flags');
          InsideByMemory(m, AtLaunch(m, p), l);
          SameBlock(m, AtLaunch(m, p), l);
          FailedReturns(m, l);
      }
  }

  /** Only the launch path records the stack pointer. */
  lemma Records(m: Machine, hostRsp: int, p: Processor)
    ensures Run(m, hostRsp, p).1 == if Launches(p) then m.rsp - 0x80 else hostRsp
  {
    hide Exec, Enter, Return, Caught, AtLaunch, Do, Gprs.Get, Gprs.Set;
    if Launches(p) { LaunchTop(m, p); }
  }

  lemma SameBlock(m0: Machine, m: Machine, x: Machine)
    requires (forall a | InBlock(m0, a) :: SameAt(m0, m, a)) && x.mem == m.mem
    ensures forall a | InBlock(m0, a) :: SameAt(m0, x, a)
  {
  }

  /** VMRESUME failing for another reason: the flags survive the VMREAD. */
  lemma NotLaunched(m: Machine, p: Processor)
    requires Apart(m) && p.resume.Fails? && p.error != 5
    ensures Correct(m, Run(m, 0, p).0, p.resume)
  {
    var e := Exec(m, Enter());
    var x := Do(Do(e.(flags := p.resume.flags), Pushf).Set(R15, p.error).(flags := p.junk), Popf);
    hide Exec, Enter, Returns, Inside, Return, Apart, InBlock, SameAt, Gprs.Get, Gprs.Set;
    EnterSaves(m);
    EnterTop(m);
    FlagsSurvive(e, p.resume.flags, p.error, p.junk);
    BelowStack(m, e, x);
    FailedReturns(m, x);
  }

  lemma FlagsSurvive(e: Machine, flags: u64, error: u64, junk: u64)
    ensures var x := Do(Do(e.(flags := flags), Pushf).Set(R15, error).(flags := junk), Popf);
            x.flags == flags && x.rsp == e.rsp && x.mem == e.mem[e.rsp - 8 := flags]
  {
    hide Gprs.Get, Gprs.Set;
  }

  /** A push below the block pointer keeps everything that matters. */
  lemma BelowStack(m0: Machine, m: Machine, x: Machine)
    requires Apart(m0) && Inside(m0, m) && (forall a | InBlock(m0, a) :: SameAt(m0, m, a))
    requires x.rsp == m.rsp && x.mem == m.mem[m.rsp - 8 := At(x.mem, m.rsp - 8)]
    ensures Inside(m0, x) && (forall a | InBlock(m0, a) :: SameAt(m0, x, a))
  {
    hide Gprs.Get, Slot;
    forall i: nat | i < 15 ensures Cell(m0, x, i) { assert Cell(m0, m, i); }
    forall a | !InStack(m0, a) && !InBlock(m0, a) ensures SameAt(m0, x, a) { assert SameAt(m0, m, a); }
    forall a | InBlock(m0, a) ensures SameAt(m0, x, a) { assert SameAt(m0, m, a); }
  }

  /** Both entry instructions find exactly the block in the registers. */
  lemma GuestEnters(m: Machine, p: Processor)
    requires Apart(m)
    ensures Holds(m.mem, m.Get(RDI), Exec(m, Enter()).gprs)
    ensures Launches(p) ==> Holds(m.mem, m.Get(RDI), AtLaunch(m, p).gprs)
  {
    hide Exec, Enter, AtLaunch, Gprs.Get, Offset;
    forall r ensures At(m.mem, m.Get(RDI) + Offset(r)) == Exec(m, Enter()).gprs.Get(r) { EnterLoads(m, r); }
    if Launches(p) {
      forall r ensures At(m.mem, m.Get(RDI) + Offset(r)) == AtLaunch(m, p).gprs.Get(r) { LaunchLoads(m, p, r); }
    }
  }

  /** VMRESUME reuses the host RSP of the launch: the stack pointer comes back right if and
      only if the resuming call is made at the same stack depth. */
  lemma ResumeDepth(m: Machine, hostRsp: int, p: Processor)
    requires p.resume.Exits?
    ensures Run(m, hostRsp, p).0.rsp == m.rsp <==> hostRsp == m.rsp - 0x80
  {
    hide Exec, Enter, Finish, Capture, Gprs.Get, Return;
    var x := AfterExit(Exec(m, Enter()), hostRsp, p.resume.guest);
    CaptureDepth(x);
    FinishKeeps(Exec(x, Capture()));
  }

  lemma CaptureDepth(x: Machine)
    ensures Exec(x, Capture()).rsp == x.rsp
  {
    hide Exec, Capture, Stores, Stored, Gprs.Get, Offset, Swapped, Do;
    CaptureSteps(x);
    SwapEffect(x, R15, 0);
    var b: int := Swapped(x).Get(R15);
    StoresEffect(Swapped(x), R15, Stored(), R15, b - 1);
    LastStore(Exec(Swapped(x), Stores(R15, Stored())), 0);
  }

  // --- Every call on one virtual CPU -------------------------------------------------------

  datatype Call = Call(m: Machine, p: Processor)

  /** The host RSP in the VMCS before call `k`. */
  ghost function Recorded(calls: seq<Call>, initial: int, k: nat): int
    requires k <= |calls|
  {
    if k == 0 then initial else Run(calls[k - 1].m, Recorded(calls, initial, k - 1), calls[k - 1].p).1
  }

  /** Whether a VMLAUNCH has succeeded before call `k`; the VMCS starts cleared. */
  predicate Launched(calls: seq<Call>, k: nat)
    requires k <= |calls|
  {
    k > 0 && (Launched(calls, k - 1) || (Launches(calls[k - 1].p) && calls[k - 1].p.launch.Exits?))
  }

  /** The processor resumes only a launched VMCS, and every call is made at depth `depth`. */
  ghost predicate SameDepth(calls: seq<Call>, depth: int) {
    forall k: nat | k < |calls| ::
      calls[k].m.rsp == depth && Apart(calls[k].m) && (calls[k].p.resume.Exits? ==> Launched(calls, k))
  }

  /** Every call from the same stack depth is correct, whatever mix of launches, resumptions
      and failures came before, and whatever the VMCS held at first. */
  lemma {:induction false} EveryCallCorrect(calls: seq<Call>, depth: int, initial: int, k: nat)
    requires SameDepth(calls, depth) && k < |calls|
    ensures Correct(calls[k].m, Run(calls[k].m, Recorded(calls, initial, k), calls[k].p).0, Ending(calls[k].p))
  {
    hide Run, Correct, Apart, Recorded;
    RecordedDepth(calls, depth, initial, k);
    CallCorrect(calls[k].m, Recorded(calls, initial, k), calls[k].p);
  }

  lemma {:induction false} RecordedDepth(calls: seq<Call>, depth: int, initial: int, k: nat)
    requires SameDepth(calls, depth) && k <= |calls|
    ensures Launched(calls, k) ==> Recorded(calls, initial, k) == depth - 0x80
  {
    hide Run, Apart;
    if k > 0 {
      RecordedDepth(calls, depth, initial, k - 1);
      assert calls[k - 1].m.rsp == depth;
      Records(calls[k - 1].m, Recorded(calls, initial, k - 1), calls[k - 1].p);
    }
  }

  // --- What the backend relies on ----------------------------------------------------------

  /** A call on a block that holds `block`: the guest starts with those registers, and the block
      then holds the guest's if it ran, and still `block` if it was refused. */
  lemma BlockAfter(m: Machine, hostRsp: int, p: Processor, block: Gprs)
    requires Apart(m) && Holds(m.mem, m.Get(RDI), block) && (p.resume.Exits? ==> hostRsp == m.rsp - 0x80)
    ensures forall r :: Exec(m, Enter()).Get(r) == block.Get(r)
    ensures Launches(p) ==> forall r :: AtLaunch(m, p).Get(r) == block.Get(r)
    ensures Holds(Run(m, hostRsp, p).0.mem, m.Get(RDI), if Ending(p).Exits? then Ending(p).guest else block)
  {
    hide Run, Exec, Enter, AtLaunch, Gprs.Get, Offset, Returns;
    CallCorrect(m, hostRsp, p);
    GuestEnters(m, p);
    OneBlock(m.mem, m.Get(RDI), Exec(m, Enter()).gprs, block);
    if Launches(p) {
      OneBlock(m.mem, m.Get(RDI), AtLaunch(m, p).gprs, block);
    }
    if Ending(p).Fails? {
      var f := Run(m, hostRsp, p).0;
      forall r ensures At(f.mem, m.Get(RDI) + Offset(r)) == block.Get(r) {
        OffsetsDiffer(r, r);
        assert SameAt(m, f, m.Get(RDI) + Offset(r));
      }
    }
  }

  lemma OneBlock(mem: Memory, b: int, g: Gprs, g': Gprs)
    requires Holds(mem, b, g) && Holds(mem, b, g')
    ensures forall r :: g.Get(r) == g'.Get(r)
  {
    forall r ensures g.Get(r) == g'.Get(r) {
      assert At(mem, b + Offset(r)) == g.Get(r);
    }
  }
}
