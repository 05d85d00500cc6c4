/** What holds over every run of a virtual CPU on AMD-V, whatever the guest does and
    whenever its exits come. */
module SvmRun {
  import opened Bits
  import opened Options
  import opened Words
  import opened Registers
  import opened ApicTimer
  import opened Backend
  import opened SvmSpec
  import opened SvmStart
  import opened EventLog
  import Bytes
  import V = Vmcb

  /** One turn of the vCPU loop: a round of the backend, and the byte that an IN from
      a port reads. */
  datatype Turn = Turn(round: Round, input: u8)

  ghost function Next(c: Cpu, t: Turn): Cpu {
    var (c', res) := Step(c, t.round);
    c'.(regs := AfterIo(c'.regs, res, t.input))
  }

  ghost function After(c: Cpu, turns: seq<Turn>): Cpu {
    if turns == [] then c else Next(After(c, turns[..|turns| - 1]), turns[|turns| - 1])
  }

  // --- Exits, as the processor reports them -----------------------------------------------

  datatype MsrWrite = MsrWrite(msr: u32, value: u64)

  predicate IsMsrExit(page: V.Page) {
    V.Word(page, 0x70) == 0x7C
  }

  /** Bit 0 of EXITINFO1: WRMSR among the MSR exits, IN among the I/O exits. */
  predicate Direction(page: V.Page) {
    page[0x78] % 2 == 1
  }

  /** The WRMSR a round ends with: the MSR is in ECX, the value in EDX:EAX. */
  function Wrmsr(r: Round): Option<MsrWrite> {
    if IsMsrExit(r.page) && Direction(r.page) then
      Some(MsrWrite(r.gprs.rcx % 0x1_0000_0000,
                    r.gprs.rdx % 0x1_0000_0000 * 0x1_0000_0000 + V.Word(r.page, 0x5F8) % 0x1_0000_0000))
    else None
  }

  /** The registers the guest has when it exits. */
  function AtExit(r: Round): GuestRegisters {
    WordsFit(r.page);
    GuestRegisters(r.gprs.(rax := V.Word(r.page, 0x5F8)), V.Word(r.page, 0x578), V.Word(r.page, 0x5D8), V.Word(r.page, 0x570))
  }

  lemma WordsFit(page: V.Page)
    ensures V.Word(page, 0x5F8) < WORD && V.Word(page, 0x578) < WORD && V.Word(page, 0x5D8) < WORD && V.Word(page, 0x570) < WORD
    ensures V.Word(page, 0x70) < WORD && V.Word(page, 0x78) < WORD && V.Word(page, 0x80) < WORD
    ensures V.Word(page, 0x4D0) < WORD && V.Word(page, 0x448) < WORD && V.Word(page, 0x458) < WORD
  {
    hide Bytes.Read;
    Bytes.WordBytes(page, 0x5F8);
    Bytes.WordBytes(page, 0x578);
    Bytes.WordBytes(page, 0x5D8);
    Bytes.WordBytes(page, 0x570);
    Bytes.WordBytes(page, 0x70);
    Bytes.WordBytes(page, 0x78);
    Bytes.WordBytes(page, 0x80);
    Bytes.WordBytes(page, 0x4D0);
    Bytes.WordBytes(page, 0x448);
    Bytes.WordBytes(page, 0x458);
  }

  /** The fields the run loop reads after an exit are words of the page. */
  lemma ExitFields(page: V.Page)
    ensures var v := V.View(page);
            && Field(v, V.ExitCode) == V.Word(page, 0x70) && Field(v, V.ExitInfo2) == V.Word(page, 0x80)
            && Field(v, V.Rax) == V.Word(page, 0x5F8) && Field(v, V.Rip) == V.Word(page, 0x578)
            && Field(v, V.Rsp) == V.Word(page, 0x5D8) && Field(v, V.Rflags) == V.Word(page, 0x570)
            && Field(v, V.Efer) == V.Word(page, 0x4D0)
            && Field(v, V.FS_BASE) == V.Word(page, 0x448) && Field(v, V.GS_BASE) == V.Word(page, 0x458)
            && (And(Field(v, V.ExitInfo1), 1) != 0 <==> Direction(page))
            && Field(v, V.ExitInfo1) / 0x1_0000 % 0x1_0000 == page[0x7A] as int + 0x100 * page[0x7B] as int
  {
    hide And, V.At, V.View, Bytes.Read;
    V.Layout(page);
    WordsFit(page);
    Bytes.WordBytes(page, 0x78);
    AndOne(V.Word(page, 0x78));
  }

  lemma LeaveIs(c: Cpu, r: Round)
    ensures Leave(c, r) == c.(vmcb := V.View(r.page), guestFp := r.fp, regs := AtExit(r))
  {
    hide V.View, Field, V.Word;
    ExitFields(r.page);
  }

  /** What the backend reports for each exit code of the processor. */
  lemma ExitResult(c: Cpu, r: Round)
    ensures var code, res := V.Word(r.page, 0x70), Step(c, r).1;
            && (res == Ok(Success) <==> code in {0x60, 0x72, 0x77, 0x78, 0x7C, 0x8D})
            && (res.Ok? && res.value.IoInstruction? <==> code == 0x7B)
            && (res == Ok(Shutdown) <==> code == 0x7F)
            && (res == Err(VMEntryFailed(0)) <==> code == U64_MAX)
            && (res == Err(UnknownVMExitReason) <==> !Handled(code) && code != U64_MAX)
  {
    hide V.View, Field, V.Word, And, EmulateMsr, IoQualification, Prepare, Skip;
    ExitFields(r.page);
  }

  /** Two bytes of the control block, low one first. */
  function Half(page: V.Page, off: nat): u16
    requires off + 2 <= V.SIZE
  {
    page[off] as int + 0x100 * page[off + 1] as int
  }

  /** An I/O exit reports the port in bits 31:16 of EXITINFO1 and the direction in bit 0, in the
      places that the vCPU loop looks at, and continues after the instruction. */
  lemma IoExit(c: Cpu, r: Round, q: u64)
    requires V.Word(r.page, 0x70) == 0x7B && Step(c, r).1 == Ok(IoInstruction(q))
    ensures Port(q) == Half(r.page, 0x7A) && (IsIn(q) <==> Direction(r.page))
    ensures V.Word(r.page, 0x80) < WORD && Step(c, r).0.regs == AtExit(r).(rip := V.Word(r.page, 0x80))
  {
    hide V.View, Field, V.Word, And, EmulateMsr, Prepare, Skip, Leave, IsIn, Port, Direction;
    ExitFields(r.page);
    WordsFit(r.page);
    LeaveIs(Prepare(c, r.now), r);
  }

  /** CPUID returns each result in its own register. */
  lemma CpuidExit(c: Cpu, r: Round)
    requires V.Word(r.page, 0x70) == 0x72
    ensures var before := AtExit(r);
            var g := before.gprs.(rax := r.cpuid.eax, rbx := r.cpuid.ebx, rcx := r.cpuid.ecx, rdx := r.cpuid.edx);
            Step(c, r).0.regs == before.(gprs := g, rip := Add64(before.rip, 2))
  {
    hide V.View, Field, V.Word, And, EmulateMsr, IoQualification, Prepare, Leave, Add64;
    ExitFields(r.page);
    LeaveIs(Prepare(c, r.now), r);
  }

  // --- Interrupts ----------------------------------------------------------------------

  function ExpiryAt(t: ApicTimer, now: u64): seq<Event> {
    if Elapsed(t, now) && !t.masked then [Expired(t.vector)] else []
  }

  /** The interrupt the processor finds in the event-injection field of a control block. */
  ghost function DeliveryIn(r: V.Record): seq<Event> {
    var e := Field(r, V.EventInj);
    if EventValid(e) then [Injected(EventVector(e))] else []
  }

  ghost function Log(c: Cpu, turns: seq<Turn>): seq<Event> {
    if turns == [] then []
    else
      var prior := turns[..|turns| - 1];
      var c' := After(c, prior);
      var now := turns[|turns| - 1].round.now;
      Log(c, prior) + ExpiryAt(c'.timer, now) + DeliveryIn(Prepare(c', now).vmcb)
  }

  lemma StepKeepsPending(c: Cpu, t: Turn)
    ensures Next(c, t).pending == Prepare(c, t.round.now).pending
  {
    hide V.View, Field, And, HideSvme, ForceSvme, Join, Qualification, WriteTimer;
  }

  /** The vector that waits for injection once the timer has been polled. */
  function Waiting(c: Cpu, now: u64): Option<u8> {
    if Elapsed(c.timer, now) && !c.timer.masked then Some(c.timer.vector) else c.pending
  }

  lemma DeliveryOf(r: V.Record, vector: u8)
    ensures DeliveryIn(r[V.EventInj := EventWord(vector)]) == [Injected(vector)]
    ensures DeliveryIn(r[V.EventInj := 0]) == []
  {
    assert Field(r[V.EventInj := EventWord(vector)], V.EventInj) == EventWord(vector);
    assert Field(r[V.EventInj := 0], V.EventInj) == 0;
  }

  lemma PreparedDelivery(c: Cpu, now: u64)
    ensures var p := Prepare(c, now);
            || (p.pending == Waiting(c, now) && DeliveryIn(p.vmcb) == [])
            || (Waiting(c, now).Some? && p.pending.None? && DeliveryIn(p.vmcb) == [Injected(Waiting(c, now).value)])
  {
    hide And, Interruptible, DeliveryIn, EventWord, Expire;
    var s := Service(Mirror(c), now);
    DeliveryOf(s.vmcb, if s.pending.Some? then s.pending.value else 0);
  }

  /** Over every run, each interrupt injected is the latest expiry, injected once, and
      what is left waiting is exactly the latest expiry not yet injected. */
  lemma {:induction false} Deliveries(c: Cpu, turns: seq<Turn>)
    requires c.pending.None?
    ensures Paired(Log(c, turns)) && After(c, turns).pending == Pending(Log(c, turns))
  {
    hide Prepare, Next, DeliveryIn, Paired;
    if turns != [] {
      var prior, t := turns[..|turns| - 1], turns[|turns| - 1];
      Deliveries(c, prior);
      var c' := After(c, prior);
      StepKeepsPending(c', t);
      PreparedDelivery(c', t.round.now);
      ExpireThenDeliver(Log(c, prior), ExpiryAt(c'.timer, t.round.now), DeliveryIn(Prepare(c', t.round.now).vmcb),
                        Waiting(c', t.round.now), Next(c', t).pending);
    } else {
      NothingYet();
    }
  }

  lemma NothingYet()
    ensures Paired([])
  {
  }

  /** Interrupt conservation over every run. */
  lemma Conserved(c: Cpu, turns: seq<Turn>)
    requires c.pending.None?
    ensures var log := Log(c, turns);
            Expiries(log) == Injections(log) + Coalesced(log) + if After(c, turns).pending.Some? then 1 else 0
  {
    Deliveries(c, turns);
    Conservation(Log(c, turns));
  }

  lemma MirrorAt(c: Cpu, f: V.Field)
    ensures V.At(Mirror(c).vmcb, f) ==
            match f
            case Rax => c.regs.gprs.rax case Rip => c.regs.rip case Rsp => c.regs.rsp case Rflags => c.regs.rflags
            case _ => V.At(c.vmcb, f)
  {
    hide V.At;
    var r1 := c.vmcb[V.Rax := c.regs.gprs.rax];
    var r2 := r1[V.Rip := c.regs.rip];
    var r3 := r2[V.Rsp := c.regs.rsp];
    V.UpdateAt(c.vmcb, V.Rax, c.regs.gprs.rax, f);
    V.UpdateAt(r1, V.Rip, c.regs.rip, f);
    V.UpdateAt(r2, V.Rsp, c.regs.rsp, f);
    V.UpdateAt(r3, V.Rflags, c.regs.rflags, f);
  }

  lemma InjectAt(s: Cpu, f: V.Field)
    requires f != V.EventInj
    ensures V.At(Inject(s).vmcb, f) == V.At(s.vmcb, f) && Inject(s).regs == s.regs && Inject(s).guestFp == s.guestFp
  {
    hide V.At, Interruptible, EventWord;
    V.UpdateAt(s.vmcb, V.EventInj, if s.pending.Some? then EventWord(s.pending.value) else 0, f);
    V.UpdateAt(s.vmcb, V.EventInj, 0, f);
  }

  lemma ServiceKeeps(c: Cpu, now: u64)
    ensures var s := Service(Mirror(c), now);
            s.vmcb == Mirror(c).vmcb && s.regs == c.regs && s.guestFp == c.guestFp && s.timer == Poll(c.timer, now)
            && s.pending == Waiting(c, now)
  {
    hide Expire;
  }

  /** What VMRUN finds in each field: the cached registers, the event, and otherwise what was there. */
  lemma PreparedAt(c: Cpu, now: u64, f: V.Field)
    requires f != V.EventInj
    ensures V.At(Prepare(c, now).vmcb, f) ==
            match f
            case Rax => c.regs.gprs.rax case Rip => c.regs.rip case Rsp => c.regs.rsp case Rflags => c.regs.rflags
            case _ => V.At(c.vmcb, f)
    ensures Prepare(c, now).regs == c.regs && Prepare(c, now).guestFp == c.guestFp
  {
    hide V.At, Mirror, Service, Inject;
    MirrorAt(c, f);
    ServiceKeeps(c, now);
    InjectAt(Service(Mirror(c), now), f);
  }

  lemma FieldOf(r: V.Record, f: V.Field, v: u64)
    requires V.At(r, f) == v
    ensures Field(r, f) == v
  {
  }

  lemma SameField(r: V.Record, r': V.Record, f: V.Field)
    requires V.At(r, f) == V.At(r', f)
    ensures Field(r, f) == Field(r', f)
  {
  }

  /** The guest of a prepared block can take an interrupt: IF, bit 9 of RFLAGS, is set, and bit 0 of
      the interrupt state, the shadow of STI and MOV SS, is not. */
  ghost predicate Accepts(r: V.Record) {
    Field(r, V.Rflags) / 0x200 % 2 == 1 && Field(r, V.IntState) % 2 == 0
  }

  /** At every entry: an event is injected only into a guest that can take it, and a vector is left
      waiting only when it cannot. */
  lemma EntrySafety(c: Cpu, now: u64)
    ensures var p := Prepare(c, now);
            (DeliveryIn(p.vmcb) != [] ==> Accepts(p.vmcb)) && (p.pending.Some? ==> !Accepts(p.vmcb))
  {
    hide And, V.At, EventWord, Mirror, Service, DeliveryIn, Field;
    var s := Service(Mirror(c), now);
    ServiceKeeps(c, now);
    MirrorAt(c, V.IntState);
    PreparedAt(c, now, V.Rflags);
    PreparedAt(c, now, V.IntState);
    FieldOf(Prepare(c, now).vmcb, V.Rflags, c.regs.rflags);
    SameField(Prepare(c, now).vmcb, c.vmcb, V.IntState);
    SameField(s.vmcb, c.vmcb, V.IntState);
    DeliveryOf(s.vmcb, if s.pending.Some? then s.pending.value else 0);
    IfFlag(c.regs.rflags, 0);
    AndOne(Field(c.vmcb, V.IntState));
  }

  // --- The control block --------------------------------------------------------------

  /** What a VMRUN needs to find: SVME, bit 12 of EFER, which the processor checks; the intercepts
      the run loop relies on; an ASID other than the host's; and the guest's own nested tables. */
  ghost predicate Runnable(r: V.Record, ncr3: u64, iopm: u64, msrpm: u64) {
    SvmeSet(Field(r, V.Efer)) && ControlsAre(r, ncr3, iopm, msrpm)
  }

  predicate SvmeSet(efer: nat) {
    efer / 0x1000 % 2 == 1
  }

  ghost predicate ControlsAre(r: V.Record, ncr3: u64, iopm: u64, msrpm: u64) {
    && Intercepts(V.At(r, V.InterceptInstr1), V.At(r, V.InterceptInstr2))
    && V.At(r, V.IopmBasePa) == iopm && V.At(r, V.MsrpmBasePa) == msrpm
    && V.At(r, V.GuestAsid) % 0x1_0000_0000 == 1
    && V.At(r, V.NpEnable) == 1 && V.At(r, V.NCr3) == ncr3
  }

  /** The fields of the control area that only the set-up writes. */
  ghost predicate SameControls(r: V.Record, r': V.Record) {
    && V.At(r', V.InterceptInstr1) == V.At(r, V.InterceptInstr1) && V.At(r', V.InterceptInstr2) == V.At(r, V.InterceptInstr2)
    && V.At(r', V.IopmBasePa) == V.At(r, V.IopmBasePa) && V.At(r', V.MsrpmBasePa) == V.At(r, V.MsrpmBasePa)
    && V.At(r', V.GuestAsid) == V.At(r, V.GuestAsid)
    && V.At(r', V.NpEnable) == V.At(r, V.NpEnable) && V.At(r', V.NCr3) == V.At(r, V.NCr3)
  }

  /** What the processor guarantees of VMRUN: EFER writes are intercepted, so the guest
      cannot clear SVME, and the controls are never written. */
  ghost predicate KeepsControls(before: V.Record, after: V.Record) {
    (SvmeSet(Field(before, V.Efer)) ==> SvmeSet(Field(after, V.Efer))) && SameControls(before, after)
  }

  ghost predicate Hardware(c: Cpu, turns: seq<Turn>) {
    forall k :: 0 <= k < |turns| ==>
      KeepsControls(Prepare(After(c, turns[..k]), turns[k].round.now).vmcb, V.View(turns[k].round.page))
  }

  lemma PrepareKeepsControls(c: Cpu, now: u64)
    ensures var p := Prepare(c, now).vmcb; SameControls(c.vmcb, p) && Field(p, V.Efer) == Field(c.vmcb, V.Efer)
  {
    hide Prepare, V.At;
    PreparedAt(c, now, V.Efer);
    PreparedAt(c, now, V.InterceptInstr1);
    PreparedAt(c, now, V.InterceptInstr2);
    PreparedAt(c, now, V.IopmBasePa);
    PreparedAt(c, now, V.MsrpmBasePa);
    PreparedAt(c, now, V.GuestAsid);
    PreparedAt(c, now, V.NpEnable);
    PreparedAt(c, now, V.NCr3);
  }

  lemma ForcedSvme(r: V.Record, value: u64)
    ensures SvmeSet(Field(r[V.Efer := ForceSvme(value)], V.Efer))
  {
    hide And, Or;
    assert V.At(r[V.Efer := ForceSvme(value)], V.Efer) == ForceSvme(value);
  }

  /** An MSR write stores its value in its own field of the control block: EFER with SVME kept set. */
  lemma WriteMsrKeepsControls(c: Cpu, index: u32, value: u64, now: u64)
    requires SvmeSet(Field(c.vmcb, V.Efer))
    ensures SvmeSet(Field(WriteMsr(c, index, value, now).vmcb, V.Efer))
    ensures SameControls(c.vmcb, WriteMsr(c, index, value, now).vmcb)
  {
    hide WriteTimer, ForceSvme, SvmeSet;
    ForcedSvme(c.vmcb, value);
  }

  lemma EmulateKeepsControls(c: Cpu, r: Round)
    requires SvmeSet(Field(c.vmcb, V.Efer))
    ensures var v := Emulate(c, r).0.vmcb; SvmeSet(Field(v, V.Efer)) && SameControls(c.vmcb, v)
  {
    hide And, Join, HideSvme, Qualification, WriteMsr, ReadMsr, SvmeSet, Field, V.At;
    WriteMsrKeepsControls(c, Index(c.regs), Join(c.regs.gprs.rdx, c.regs.gprs.rax), r.later);
  }

  /** The block `new` sets up satisfies the processor. */
  lemma StartRunnable(page: V.Page, ncr3: u64, iopm: u64, msrpm: u64)
    requires ControlArea(page, ncr3, iopm, msrpm) && LongMode(page)
    ensures Runnable(V.View(page), ncr3, iopm, msrpm)
  {
    hide V.View, V.At, V.Word, Bytes.Read, Intercepts;
    V.Layout(page);
    V.SetupLayout(page);
  }

  /** Over every run of a new vCPU, each VMRUN finds a block it can run, with the intercepts, the
      permission maps and the nested tables it was given. */
  lemma AlwaysRunnable(c: Cpu, turns: seq<Turn>, now: u64, page: V.Page, ncr3: u64, iopm: u64, msrpm: u64, entryPoint: u64,
                       rsp: u64)
    requires c.vmcb == V.View(page) && Start(page, ncr3, iopm, msrpm, entryPoint, rsp) && Hardware(c, turns)
    ensures Runnable(Prepare(After(c, turns), now).vmcb, ncr3, iopm, msrpm)
  {
    hide Prepare, After, V.View, Hardware, Runnable, ControlArea, LongMode, RunState, SegmentArea;
    StartRunnable(page, ncr3, iopm, msrpm);
    StaysRunnable(c, turns, now, ncr3, iopm, msrpm);
  }

  lemma {:induction false} StaysRunnable(c: Cpu, turns: seq<Turn>, now: u64, ncr3: u64, iopm: u64, msrpm: u64)
    requires Runnable(c.vmcb, ncr3, iopm, msrpm) && Hardware(c, turns)
    ensures Runnable(After(c, turns).vmcb, ncr3, iopm, msrpm) && Runnable(Prepare(After(c, turns), now).vmcb, ncr3, iopm, msrpm)
  {
    hide Emulate, Prepare, V.View, SvmeSet, Field, V.At, Intercepts;
    if turns != [] {
      var prior, t := turns[..|turns| - 1], turns[|turns| - 1];
      HardwarePrefix(c, turns);
      StaysRunnable(c, prior, t.round.now, ncr3, iopm, msrpm);
      EmulateKeepsControls(Leave(Prepare(After(c, prior), t.round.now), t.round), t.round);
    }
    PrepareKeepsControls(After(c, turns), now);
  }

  lemma HardwarePrefix(c: Cpu, turns: seq<Turn>)
    requires Hardware(c, turns) && turns != []
    ensures Hardware(c, turns[..|turns| - 1])
    ensures var prior, t := turns[..|turns| - 1], turns[|turns| - 1];
            KeepsControls(Prepare(After(c, prior), t.round.now).vmcb, V.View(t.round.page))
  {
    hide KeepsControls, Prepare, After, V.View;
    var prior := turns[..|turns| - 1];
    forall k | 0 <= k < |prior|
      ensures KeepsControls(Prepare(After(c, prior[..k]), prior[k].round.now).vmcb, V.View(prior[k].round.page))
    {
      assert prior[..k] == turns[..k] && prior[k] == turns[k];
    }
  }

  // --- The timer --------------------------------------------------------------------------

  /** The timer after a turn: polled before the entry, and then written if the exit is a WRMSR. */
  function TimerAfter(timer: ApicTimer, r: Round): ApicTimer {
    match Wrmsr(r)
    case None => Poll(timer, r.now)
    case Some(w) => WriteTimer(Poll(timer, r.now), w.msr, w.value, r.later)
  }

  lemma TurnTimer(c: Cpu, t: Turn)
    ensures Next(c, t).timer == TimerAfter(c.timer, t.round)
  {
    hide V.View, V.Word, Field, Mirror, Service, Leave, Join, HideSvme, ForceSvme, Qualification, And, Direction, Skip, Poll;
    ExitFields(t.round.page);
    ServiceKeeps(c, t.round.now);
    InjectKeepsTimer(Service(Mirror(c), t.round.now));
    LeaveIs(Prepare(c, t.round.now), t.round);
    hide Inject, AtExit;
    EmulateTimer(Leave(Prepare(c, t.round.now), t.round), t.round);
  }

  lemma InjectKeepsTimer(s: Cpu)
    ensures Inject(s).timer == s.timer
  {
    hide Interruptible, EventWord;
  }

  lemma EmulateTimer(c: Cpu, r: Round)
    requires c.vmcb == V.View(r.page) && c.regs == AtExit(r)
    ensures Emulate(c, r).0.timer ==
            match Wrmsr(r) case None => c.timer case Some(w) => WriteTimer(c.timer, w.msr, w.value, r.later)
  {
    hide V.View, V.Word, Field, HideSvme, ForceSvme, Qualification, And, Direction;
    ExitFields(r.page);
    OtherMsr(c.timer, Index(c.regs), Join(c.regs.gprs.rdx, c.regs.gprs.rax), r.later);
  }

  lemma OtherMsr(t: ApicTimer, msr: u32, value: u64, now: u64)
    ensures !(msr == 0x832 || msr == 0x6E0 || msr == 0x838) ==> WriteTimer(t, msr, value, now) == t
    ensures WriteTimer(t, IA32_FS_BASE, value, now) == WriteTimer(t, IA32_GS_BASE, value, now)
            == WriteTimer(t, IA32_EFER, value, now) == t
  {
    hide And;
  }

  /** The guest's write of turn `t` arms the timer with a deadline that wraps to zero. */
  predicate Wraps(c: Cpu, t: Turn) {
    var w := Wrmsr(t.round);
    w.Some? && WrapsToZero(Poll(c.timer, t.round.now), w.value.msr, w.value.value, t.round.later)
  }

  lemma TurnKeepsTimer(c: Cpu, t: Turn)
    requires Inv(c.timer)
    ensures Inv(Next(c, t).timer) <==> !Wraps(c, t)
  {
    hide Next, Expire, WriteTimer, WrapsToZero, Inv, Wrmsr;
    TurnTimer(c, t);
    ExpireKeepsInv(c.timer);
    var w := Wrmsr(t.round);
    if w.Some? {
      WriteKeepsInv(Poll(c.timer, t.round.now), w.value.msr, w.value.value, t.round.later);
    }
  }

  /** Until a write wraps, the timer's state is sound over every run: masked means
      disarmed, a period is positive and comes with a deadline, a deadline is not zero. */
  lemma {:induction false} TimerSound(c: Cpu, turns: seq<Turn>)
    requires Inv(c.timer)
    requires forall k :: 0 <= k < |turns| ==> !Wraps(After(c, turns[..k]), turns[k])
    ensures Inv(After(c, turns).timer)
    ensures ReadMsr(After(c, turns), IA32_TSC_DEADLINE) == 0 <==> After(c, turns).timer.deadline.None?
  {
    hide Wraps, Next, Field;
    if turns != [] {
      var prior, t := turns[..|turns| - 1], turns[|turns| - 1];
      assert !Wraps(After(c, turns[..|turns| - 1]), turns[|turns| - 1]);
      forall k | 0 <= k < |prior|
        ensures !Wraps(After(c, prior[..k]), prior[k])
      {
        assert prior[..k] == turns[..k] && prior[k] == turns[k];
      }
      TimerSound(c, prior);
      TurnKeepsTimer(After(c, prior), t);
    }
  }

  // --- Expiry times -------------------------------------------------------------------------

  /** The exit of turn `t` is a WRMSR to one of the timer's registers. */
  predicate WritesTimer(t: Turn) {
    var w := Wrmsr(t.round);
    w.Some? && (w.value.msr == 0x832 || w.value.msr == 0x6E0 || w.value.msr == 0x838)
  }

  ghost predicate LeftAlone(turns: seq<Turn>) {
    forall k :: 0 <= k < |turns| ==> !WritesTimer(turns[k])
  }

  /** A turn that does not write the timer polls it once. */
  lemma TurnPolls(c: Cpu, t: Turn)
    requires !WritesTimer(t)
    ensures Next(c, t).timer == Poll(c.timer, t.round.now)
  {
    hide Next, Poll, WriteTimer, Wrmsr;
    TurnTimer(c, t);
    var w := Wrmsr(t.round);
    if w.Some? {
      OtherMsr(Poll(c.timer, t.round.now), w.value.msr, w.value.value, t.round.later);
    }
  }

  lemma LogStep(c: Cpu, prior: seq<Turn>, t: Turn)
    ensures After(c, prior + [t]) == Next(After(c, prior), t)
    ensures Expiries(Log(c, prior + [t])) == Expiries(Log(c, prior)) + |ExpiryAt(After(c, prior).timer, t.round.now)|
  {
    hide Next, Prepare, DeliveryIn, Elapsed;
    var turns := prior + [t];
    assert turns[..|turns| - 1] == prior;
    var c' := After(c, prior);
    var e, d := ExpiryAt(c'.timer, t.round.now), DeliveryIn(Prepare(c', t.round.now).vmcb);
    DeliveryShape(Prepare(c', t.round.now).vmcb);
    ExpiriesOf(Log(c, prior), e);
    ExpiriesOf(Log(c, prior) + e, d);
  }

  lemma DeliveryShape(r: V.Record)
    ensures |DeliveryIn(r)| <= 1 && (DeliveryIn(r) != [] ==> DeliveryIn(r)[0].Injected?)
  {
    hide Field;
  }

  /** Over every run that leaves the timer's registers alone, the timer is where its expiries
      have taken it: the deadline depends on how many there were, not on when they were noticed. */
  lemma {:induction false} RunTimer(c: Cpu, turns: seq<Turn>)
    requires Inv(c.timer) && LeftAlone(turns)
    ensures Inv(After(c, turns).timer) && After(c, turns).timer == Expires(c.timer, Expiries(Log(c, turns)))
    decreases |turns|
  {
    hide Next, WritesTimer, Log;
    if turns == [] {
      NothingLogged(c);
    } else {
      var prior, t := turns[..|turns| - 1], turns[|turns| - 1];
      assert turns == prior + [t];
      RunTimer(c, prior);
      assert !WritesTimer(turns[|turns| - 1]);
      TurnPolls(After(c, prior), t);
      LogStep(c, prior, t);
      ExpireKeepsInv(After(c, prior).timer);
    }
  }

  lemma NothingLogged(c: Cpu)
    ensures Expiries(Log(c, [])) == 0
  {
  }

  /** No drift over runs: after n logged expiries the deadline is `min(d0 + n * period, 2^64 - 1)`,
      whatever the clock was at each poll. */
  lemma RunsDoNotDrift(c: Cpu, turns: seq<Turn>)
    requires Inv(c.timer) && LeftAlone(turns) && c.timer.period.Some?
    ensures var n := Expiries(Log(c, turns));
            After(c, turns).timer.deadline == Some(Min(c.timer.deadline.value + n * c.timer.period.value, U64_MAX))
  {
    hide After, Log, LeftAlone;
    RunTimer(c, turns);
    NoDrift(c.timer, Expiries(Log(c, turns)));
  }

  /** Never early: as long as every poll comes before the deadline, no expiry is logged and the
      timer stays armed as it was. */
  lemma {:induction false} NeverEarly(c: Cpu, turns: seq<Turn>)
    requires LeftAlone(turns) && c.timer.deadline.Some?
    requires forall k :: 0 <= k < |turns| ==> turns[k].round.now < c.timer.deadline.value
    ensures Expiries(Log(c, turns)) == 0 && After(c, turns).timer == c.timer
    decreases |turns|
  {
    hide Next, WritesTimer, Log;
    if turns == [] {
      NothingLogged(c);
    } else {
      var prior, t := turns[..|turns| - 1], turns[|turns| - 1];
      assert turns == prior + [t];
      NeverEarly(c, prior);
      assert !WritesTimer(turns[|turns| - 1]) && t.round.now < c.timer.deadline.value;
      TurnPolls(After(c, prior), t);
      LogStep(c, prior, t);
    }
  }

  /** Never late: the first poll at or after the deadline logs the expiry. */
  lemma FirstPollExpires(c: Cpu, turns: seq<Turn>, t: Turn)
    requires Inv(c.timer) && LeftAlone(turns) && c.timer.deadline.Some?
    requires forall k :: 0 <= k < |turns| ==> turns[k].round.now < c.timer.deadline.value
    requires c.timer.deadline.value <= t.round.now
    ensures Expiries(Log(c, turns + [t])) == 1
    ensures Waiting(After(c, turns), t.round.now) == Some(c.timer.vector)
  {
    hide Next, Log, WritesTimer;
    NeverEarly(c, turns);
    LogStep(c, turns, t);
  }

  // --- What the guest programmed -----------------------------------------------------------

  /** The value of the latest WRMSR to the timer's LVT entry, MSR 0x832; zero at reset. */
  function LvtValue(turns: seq<Turn>): u64 {
    if turns == [] then 0
    else
      var w := Wrmsr(turns[|turns| - 1].round);
      if w.Some? && w.value.msr == 0x832 then w.value.value else LvtValue(turns[..|turns| - 1])
  }

  /** Over every run of a vCPU that starts with a reset timer, vector, mask and mode are those of
      the latest LVT write: no other write, and no expiry, changes them. */
  lemma {:induction false} Programmed(c: Cpu, turns: seq<Turn>)
    requires c.timer == RESET
    ensures Lvt(After(c, turns).timer, LvtValue(turns))
  {
    hide Next, Lvt, WriteTimer, Poll, Wrmsr;
    if turns == [] {
      ResetLvt();
    } else {
      var prior, t := turns[..|turns| - 1], turns[|turns| - 1];
      var w := Wrmsr(t.round);
      Programmed(c, prior);
      TurnTimer(After(c, prior), t);
      PollKeepsLvt(After(c, prior).timer, t.round.now, LvtValue(prior));
      if w.Some? {
        WriteSetsLvt(Poll(After(c, prior).timer, t.round.now), w.value.msr, w.value.value, t.round.later, LvtValue(prior));
      }
    }
  }

  /** The poll of turn `j` finds the deadline elapsed and the timer not masked. */
  ghost predicate ExpiresAt(c: Cpu, turns: seq<Turn>, j: nat)
    requires j < |turns|
  {
    Elapsed(After(c, turns[..j]).timer, turns[j].round.now) && LvtValue(turns[..j]) / 0x1_0000 % 2 == 0
  }

  /** What the entry of turn `k` injects. */
  ghost function InjectedAt(c: Cpu, turns: seq<Turn>, k: nat): seq<Event>
    requires k < |turns|
  {
    DeliveryIn(Prepare(After(c, turns[..k]), turns[k].round.now).vmcb)
  }

  /** The vector of the poll of turn `j`, by what the guest programmed. */
  lemma ExpiryVector(c: Cpu, turns: seq<Turn>, j: nat)
    requires c.timer == RESET && j < |turns|
    ensures Waiting(After(c, turns[..j]), turns[j].round.now)
            == if ExpiresAt(c, turns, j) then Some(LvtValue(turns[..j]) % 0x100) else After(c, turns[..j]).pending
  {
    hide After, LvtValue, Elapsed;
    Programmed(c, turns[..j]);
  }

  /** A vector that waits comes from the latest expiry, and nothing has been injected since. */
  lemma {:induction false} WaitsSince(c: Cpu, turns: seq<Turn>, n: nat) returns (j: nat)
    requires c.timer == RESET && c.pending.None? && n <= |turns| && After(c, turns[..n]).pending.Some?
    ensures j < n && ExpiresAt(c, turns, j) && After(c, turns[..n]).pending == Some(LvtValue(turns[..j]) % 0x100)
    ensures forall i :: j < i < n ==> !ExpiresAt(c, turns, i)
    ensures forall i :: j <= i < n ==> InjectedAt(c, turns, i) == []
    decreases n
  {
    hide After, InjectedAt, ExpiresAt, LvtValue;
    NoTurns(c, turns);
    assert 0 < n;
    WaitsStep(c, turns, n);
    if ExpiresAt(c, turns, n - 1) {
      j := n - 1;
    } else {
      j := WaitsSince(c, turns, n - 1);
    }
  }

  lemma NoTurns(c: Cpu, turns: seq<Turn>)
    ensures After(c, turns[..0]) == c
  {
    assert turns[..0] == [];
  }

  lemma WaitsStep(c: Cpu, turns: seq<Turn>, n: nat)
    requires c.timer == RESET && 0 < n <= |turns| && After(c, turns[..n]).pending.Some?
    ensures InjectedAt(c, turns, n - 1) == []
    ensures After(c, turns[..n]).pending == if ExpiresAt(c, turns, n - 1) then Some(LvtValue(turns[..n - 1]) % 0x100)
                                            else After(c, turns[..n - 1]).pending
  {
    hide Next, Prepare, DeliveryIn, ExpiresAt, Waiting, LvtValue;
    var prior, t := turns[..n - 1], turns[n - 1];
    assert turns[..n][..n - 1] == prior && turns[..n][n - 1] == t;
    StepKeepsPending(After(c, prior), t);
    PreparedDelivery(After(c, prior), t.round.now);
    ExpiryVector(c, turns, n - 1);
  }

  /** Every injected vector is the low byte of what the guest last wrote to the LVT entry before
      the expiry it reports, which is the latest one; and it is injected once. */
  lemma InjectedIsProgrammed(c: Cpu, turns: seq<Turn>, k: nat, v: u8) returns (j: nat)
    requires c.timer == RESET && c.pending.None? && k < |turns| && InjectedAt(c, turns, k) == [Injected(v)]
    ensures j <= k && ExpiresAt(c, turns, j) && v == LvtValue(turns[..j]) % 0x100
    ensures forall i :: j < i <= k ==> !ExpiresAt(c, turns, i)
    ensures forall i :: j <= i < k ==> InjectedAt(c, turns, i) == []
  {
    hide After, Prepare, DeliveryIn, ExpiresAt, Waiting, LvtValue;
    PreparedDelivery(After(c, turns[..k]), turns[k].round.now);
    ExpiryVector(c, turns, k);
    if ExpiresAt(c, turns, k) {
      j := k;
    } else {
      j := WaitsSince(c, turns, k);
    }
  }

  // --- MSRs ----------------------------------------------------------------------------------

  /** EFER as the guest sees it, without bit 12, and as VMRUN needs it, with bit 12. */
  function WithoutSvme(efer: nat): nat {
    efer - efer / 0x1000 % 2 * 0x1000
  }

  /** What an RDMSR returns: FS base, GS base and EFER from the block, the armed deadline from the
      timer, and zero for every other MSR. */
  function MsrRead(timer: ApicTimer, r: Round): nat {
    var msr := r.gprs.rcx % 0x1_0000_0000;
    if msr == 0xC000_0100 then V.Word(r.page, 0x448)
    else if msr == 0xC000_0101 then V.Word(r.page, 0x458)
    else if msr == 0xC000_0080 then WithoutSvme(V.Word(r.page, 0x4D0))
    else if msr == 0x6E0 then ReadDeadline(timer)
    else 0
  }

  lemma SvmeHidden(v: u64)
    ensures HideSvme(v) == WithoutSvme(v) && ForceSvme(v) == WithoutSvme(v) + 0x1000
  {
    hide And, Or;
    SvmeForced(v, 0);
  }

  lemma MsrReadIs(c: Cpu, r: Round)
    requires c.vmcb == V.View(r.page) && c.regs == AtExit(r)
    ensures ReadMsr(c, Index(c.regs)) == MsrRead(c.timer, r)
  {
    hide V.View, V.Word, Field, HideSvme, ForceSvme, WithoutSvme;
    ExitFields(r.page);
    WordsFit(r.page);
    SvmeHidden(V.Word(r.page, 0x4D0));
  }

  /** RDMSR returns the value in EDX:EAX and advances by two bytes. */
  lemma RdmsrExit(c: Cpu, r: Round, v: u64)
    requires IsMsrExit(r.page) && !Direction(r.page) && v == MsrRead(Poll(c.timer, r.now), r)
    ensures var before := AtExit(r);
            Step(c, r).0.regs == GuestRegisters(before.gprs.(rax := v % 0x1_0000_0000, rdx := v / 0x1_0000_0000),
                                                Add64(before.rip, 2), before.rsp, before.rflags)
  {
    hide V.View, V.Word, Field, Mirror, Service, Leave, ReadMsr, MsrRead, And, Direction, AtExit, Poll, Add64;
    ExitFields(r.page);
    ServiceKeeps(c, r.now);
    InjectKeepsTimer(Service(Mirror(c), r.now));
    hide Inject;
    LeaveIs(Prepare(c, r.now), r);
    MsrReadIs(Leave(Prepare(c, r.now), r), r);
  }

  /** The block after a round is the one the guest left, except for the field that a WRMSR names. */
  lemma WrmsrExit(c: Cpu, r: Round)
    ensures var left := V.View(r.page);
            Step(c, r).0.vmcb ==
              match Wrmsr(r)
              case None => left
              case Some(MsrWrite(msr, value)) =>
                if msr == 0xC000_0100 then left[V.FS_BASE := value]
                else if msr == 0xC000_0101 then left[V.GS_BASE := value]
                else if msr == 0xC000_0080 then left[V.Efer := WithoutSvme(value) + 0x1000]
                else left
  {
    hide V.View, V.Word, Field, Prepare, Leave, ReadMsr, WriteTimer, IoQualification, And, Direction, Skip;
    hide ForceSvme, WithoutSvme;
    ExitFields(r.page);
    LeaveIs(Prepare(c, r.now), r);
    if Wrmsr(r).Some? {
      SvmeHidden(Wrmsr(r).value.value);
    }
  }

  /** What the guest writes to an MSR is what it reads back: bases in full, EFER with
      SVME hidden. */
  lemma MsrRoundTrip(c: Cpu, value: u64, now: u64)
    ensures ReadMsr(WriteMsr(c, 0xC000_0100, value, now), 0xC000_0100) == value
    ensures ReadMsr(WriteMsr(c, 0xC000_0101, value, now), 0xC000_0101) == value
    ensures ReadMsr(WriteMsr(c, 0xC000_0080, value, now), 0xC000_0080) == WithoutSvme(value)
  {
    hide ForceSvme, HideSvme, WithoutSvme;
    assert Field(c.vmcb[V.FS_BASE := value], V.FS_BASE) == value;
    assert Field(c.vmcb[V.GS_BASE := value], V.GS_BASE) == value;
    assert Field(c.vmcb[V.Efer := ForceSvme(value)], V.Efer) == ForceSvme(value);
    SvmeHidden(value);
  }

  /** The same through the registers: RDMSR returns in EDX:EAX what WRMSR took from them, as
      long as the field is kept in between. */
  lemma GuestMsrRoundTrip(c: Cpu, w: Round, c': Cpu, r: Round)
    requires Wrmsr(w).Some? && IsMsrExit(r.page) && !Direction(r.page)
    requires Wrmsr(w).value.msr == r.gprs.rcx % 0x1_0000_0000
    requires || (Wrmsr(w).value.msr == 0xC000_0100 && V.Word(r.page, 0x448) == V.At(Step(c, w).0.vmcb, V.FS_BASE))
             || (Wrmsr(w).value.msr == 0xC000_0101 && V.Word(r.page, 0x458) == V.At(Step(c, w).0.vmcb, V.GS_BASE))
    ensures var g, g' := AtExit(w).gprs, Step(c', r).0.regs.gprs;
            g'.rax == g.rax % 0x1_0000_0000 && g'.rdx == g.rdx % 0x1_0000_0000
  {
    hide Step, V.View, V.Word, V.At, Direction;
    var value := Wrmsr(w).value.value;
    WrmsrExit(c, w);
    V.UpdateAt(V.View(w.page), V.FS_BASE, value, V.FS_BASE);
    V.UpdateAt(V.View(w.page), V.GS_BASE, value, V.GS_BASE);
    RdmsrExit(c', r, value);
    WordsFit(w.page);
    SplitJoin(AtExit(w).gprs.rdx, AtExit(w).gprs.rax);
  }

  /** The same through the registers and over a run: until it is reached, the deadline that a WRMSR
      armed is what an RDMSR returns in EDX:EAX. */
  lemma DeadlineReadsBack(c: Cpu, w: Turn, turns: seq<Turn>, r: Round, value: u64)
    requires Wrmsr(w.round) == Some(MsrWrite(0x6E0, value)) && value != 0 && !c.timer.masked
    requires LeftAlone(turns) && r.now < value && forall k :: 0 <= k < |turns| ==> turns[k].round.now < value
    requires IsMsrExit(r.page) && !Direction(r.page) && r.gprs.rcx % 0x1_0000_0000 == 0x6E0
    ensures var g := Step(After(Next(c, w), turns), r).0.regs.gprs;
            g.rax == value % 0x1_0000_0000 && g.rdx == value / 0x1_0000_0000
  {
    hide Next, After, Step, LeftAlone, Wrmsr, Log;
    TurnTimer(c, w);
    DeadlineReads(Poll(c.timer, w.round.now), value, w.round.later);
    NeverEarly(Next(c, w), turns);
    RdmsrExit(After(Next(c, w), turns), r, value);
  }

  // --- Transparency -----------------------------------------------------------------------

  /** The registers VMRUN and the trampoline load from a prepared state. */
  ghost function Loaded(p: Cpu): GuestRegisters {
    GuestRegisters(p.regs.gprs.(rax := Field(p.vmcb, V.Rax)), Field(p.vmcb, V.Rip), Field(p.vmcb, V.Rsp),
                   Field(p.vmcb, V.Rflags))
  }

  lemma PreparedRegister(c: Cpu, now: u64, f: V.Field, v: u64)
    requires || (f == V.Rax && v == c.regs.gprs.rax) || (f == V.Rip && v == c.regs.rip)
             || (f == V.Rsp && v == c.regs.rsp) || (f == V.Rflags && v == c.regs.rflags)
    ensures Field(Prepare(c, now).vmcb, f) == v
    ensures Prepare(c, now).regs == c.regs && Prepare(c, now).guestFp == c.guestFp
  {
    hide Prepare, V.At, Field;
    PreparedAt(c, now, f);
    FieldOf(Prepare(c, now).vmcb, f, v);
  }

  lemma PreparedLoads(c: Cpu, now: u64)
    ensures Loaded(Prepare(c, now)) == c.regs && Prepare(c, now).guestFp == c.guestFp
  {
    hide Prepare, Field;
    PreparedRegister(c, now, V.Rax, c.regs.gprs.rax);
    PreparedRegister(c, now, V.Rip, c.regs.rip);
    PreparedRegister(c, now, V.Rsp, c.regs.rsp);
    PreparedRegister(c, now, V.Rflags, c.regs.rflags);
  }

  /** The registers after the exit of round `r`, before the vCPU loop has done its part. */
  lemma Emulated(c: Cpu, r: Round)
    ensures var before, after := AtExit(r), Step(c, r).0.regs;
            var code := V.Word(r.page, 0x70);
            && after.rsp == before.rsp && after.rflags == before.rflags && Step(c, r).0.guestFp == r.fp
            && (code == 0x60 ==> after == before)
            && (code == 0x78 ==> after == before.(rip := Add64(before.rip, 1)))
            && (code == 0x77 ==> after == before.(rip := Add64(before.rip, 2)))
            && (code == 0x8D ==> after == before.(rip := Add64(before.rip, 3)))
            && (code == 0x7C && Direction(r.page) ==> after == before.(rip := Add64(before.rip, 2)))
            && (code == 0x7C && !Direction(r.page) ==>
                  && after.rip == Add64(before.rip, 2)
                  && after.gprs.(rax := 0, rdx := 0) == before.gprs.(rax := 0, rdx := 0))
            && (!Handled(code) || code == 0x7F ==> after == before)
  {
    hide V.View, Field, V.Word, And, Join, ForceSvme, HideSvme, WriteTimer, IoQualification, Prepare, Leave, Add64;
    ExitFields(r.page);
    LeaveIs(Prepare(c, r.now), r);
  }

  /** Between an exit and the next entry, the guest's registers and FP state change only
      by the emulation of that exit. */
  lemma Transparent(c: Cpu, t: Turn, now: u64)
    ensures var before := AtExit(t.round);
            var code := V.Word(t.round.page, 0x70);
            var entered := Prepare(Next(c, t), now);
            var after := Loaded(entered);
            && entered.guestFp == t.round.fp
            && after.rsp == before.rsp && after.rflags == before.rflags
            && (code == 0x60 ==> after == before)
            && (code == 0x78 ==> after == before.(rip := Add64(before.rip, 1)))
            && (code == 0x77 ==> after == before.(rip := Add64(before.rip, 2)))
            && (code == 0x8D ==> after == before.(rip := Add64(before.rip, 3)))
            && (code == 0x7C && Direction(t.round.page) ==> after == before.(rip := Add64(before.rip, 2)))
            && (code == 0x7C && !Direction(t.round.page) ==>
                  && after.rip == Add64(before.rip, 2)
                  && after.gprs.(rax := 0, rdx := 0) == before.gprs.(rax := 0, rdx := 0))
            && (code == 0x72 ==>
                  && after.rip == Add64(before.rip, 2)
                  && after.gprs == before.gprs.(rax := t.round.cpuid.eax, rbx := t.round.cpuid.ebx,
                                                rcx := t.round.cpuid.ecx, rdx := t.round.cpuid.edx))
            && (code == 0x7B ==> after.rip == V.Word(t.round.page, 0x80) && after.gprs.(rax := 0) == before.gprs.(rax := 0))
            && (code == 0x7B && !Direction(t.round.page) ==> after.gprs == before.gprs)
            && (code == 0x7B && Direction(t.round.page) ==>
                  after.gprs.rax / 0x100 == before.gprs.rax / 0x100 && after.gprs.rax % 0x100 == t.input)
  {
    hide V.View, Field, V.Word, Loaded, Prepare, Step, IsIn, Port, Direction, AtExit, SetLowByte, Add64, Handled;
    PreparedLoads(Next(c, t), now);
    var res := Step(c, t.round).1;
    ExitResult(c, t.round);
    Emulated(c, t.round);
    if V.Word(t.round.page, 0x70) == 0x7B {
      IoExit(c, t.round, res.value.q);
    } else if V.Word(t.round.page, 0x70) == 0x72 {
      CpuidExit(c, t.round);
    }
  }
}
