/** What holds over every run of a virtual CPU on VT-x. */
module VmxRun {
  import opened Bits
  import opened Options
  import opened Words
  import opened Registers
  import opened ApicTimer
  import opened Backend
  import opened EventLog
  import opened VmxSpec

  /** One turn of the vCPU loop in which the guest was entered. */
  datatype Turn = Turn(round: Round, input: u8)

  ghost predicate Ran(turns: seq<Turn>) {
    forall k :: 0 <= k < |turns| ==> turns[k].round.Exited?
  }

  function Next(c: Cpu, t: Turn): Cpu {
    var (c', res) := Step(c, t.round);
    c'.(regs := AfterIo(c'.regs, res, t.input))
  }

  function After(c: Cpu, turns: seq<Turn>): Cpu {
    if turns == [] then c else Next(After(c, turns[..|turns| - 1]), turns[|turns| - 1])
  }

  /** The guest takes interrupts: IF, bit 9 of RFLAGS, is set, and there is no blocking by STI or by
      MOV SS, bits 0 and 1 of the interruptibility state. */
  predicate Ready(v: Vmcs) {
    v.rflags / 0x200 % 2 == 1 && v.interruptibility % 4 == 0
  }

  lemma ReadyIff(v: Vmcs)
    ensures Accepts(v) <==> Ready(v)
  {
    hide And;
    IfFlag(v.rflags, 0);
    LowTwo(v.interruptibility, 0);
  }

  /** What the processor guarantees of a VM-exit from the entry `p` that did enter the guest
      (bit 31 of the reason is clear): the valid bit of the entry-interruption field is cleared,
      the execution controls are as they were, an interrupt-window exit happens only with the
      window open and the guest ready, and a preemption-timer exit happens when the timer runs
      out, no exit later than that. */
  ghost predicate ExitContract(p: Cpu, r: Round)
    requires r.Exited?
  {
    && r.reason < 0x8000_0000
    && !EventValid(r.vmcs.entryInfo) && r.vmcs.controls == p.vmcs.controls
    && (r.reason % 0x1_0000 == 7 ==> WindowOn(p.vmcs.controls) && Ready(r.vmcs))
    && TimerContract(p, r)
  }

  ghost predicate TimerContract(p: Cpu, r: Round)
    requires r.Exited?
  {
    var fires := Fires(r.entry, p.vmcs.preemptionTimer, Unit(p));
    r.now <= r.entry <= r.exit <= fires && (r.reason % 0x1_0000 == 52 ==> r.exit == fires)
  }

  /** TSC ticks per count of the preemption timer. */
  function Unit(c: Cpu): (w: nat)
    ensures 0 < w
  {
    Ones(c.scale) + 1
  }

  ghost predicate Hardware(c: Cpu, turns: seq<Turn>) {
    && Ran(turns)
    && forall k :: 0 <= k < |turns| ==> ExitContract(Prepare(After(c, turns[..k]), turns[k].round.now), turns[k].round)
  }

  lemma HardwarePrefix(c: Cpu, turns: seq<Turn>)
    requires Hardware(c, turns) && turns != []
    ensures Hardware(c, turns[..|turns| - 1])
    ensures var prior, t := turns[..|turns| - 1], turns[|turns| - 1];
            t.round.Exited? && ExitContract(Prepare(After(c, prior), t.round.now), t.round)
  {
    hide ExitContract, Prepare, After;
    var prior := turns[..|turns| - 1];
    forall k | 0 <= k < |prior|
      ensures prior[k].round.Exited? && ExitContract(Prepare(After(c, prior[..k]), prior[k].round.now), prior[k].round)
    {
      assert prior[..k] == turns[..k] && prior[k] == turns[k];
    }
  }

  /** Between turns: no event is left over from an entry, and the window is open only
      for a vector that waits. */
  predicate Quiet(c: Cpu) {
    !EventValid(c.vmcs.entryInfo) && (WindowOn(c.vmcs.controls) ==> c.pending.Some?)
  }

  function DeliveryIn(v: Vmcs): seq<Event> {
    if EventValid(v.entryInfo) then [Injected(EventVector(v.entryInfo))] else []
  }

  /** The window is open exactly when a vector still waits, an event is injected only into a guest
      that accepts it, and a vector waits only when the guest does not. */
  predicate Settled(c: Cpu) {
    && (WindowOn(c.vmcs.controls) <==> c.pending.Some?)
    && (DeliveryIn(c.vmcs) != [] ==> Ready(c.vmcs))
    && (c.pending.Some? ==> !Ready(c.vmcs))
  }

  lemma SameReady(c: Cpu)
    ensures Ready(Inject(c).vmcs) == Ready(c.vmcs)
  {
    hide And, Shr, Accepts;
  }

  lemma InjectSettles(c: Cpu)
    ensures Quiet(c) ==> Settled(Inject(c))
  {
    hide And, Shr, Ready, Accepts;
    ReadyIff(Inject(c).vmcs);
    ReadyIff(c.vmcs);
    SameReady(c);
  }

  /** At every entry: the window is open exactly when a vector still waits; an event is
      injected only into a guest whose loaded RFLAGS have IF set and which is not
      blocked by STI or MOV SS; a vector is left waiting only when the guest is not so. */
  lemma EntryState(c: Cpu, now: u64)
    requires Quiet(c)
    ensures var p := Prepare(c, now);
            && Settled(p)
            && p.vmcs.rflags == c.regs.rflags
            && (|| (DeliveryIn(p.vmcs) == [] && p.pending == c.pending)
                || (c.pending.Some? && DeliveryIn(p.vmcs) == [Injected(c.pending.value)] && p.pending.None?))
  {
    hide And, Shr, Ready, Accepts, Settled, Inject, Armed, EventValid, WindowOn;
    InjectSettles(Load(c));
    InjectDelivers(Load(c));
    ArmKeeps(Inject(Load(c)), now);
  }

  lemma InjectDelivers(c: Cpu)
    requires Quiet(c)
    ensures var p := Inject(c);
            && p.vmcs.rflags == c.vmcs.rflags
            && (|| (DeliveryIn(p.vmcs) == [] && p.pending == c.pending)
                || (c.pending.Some? && DeliveryIn(p.vmcs) == [Injected(c.pending.value)] && p.pending.None?))
  {
    hide And, Shr, Accepts, SetWindow;
  }

  lemma ArmKeeps(c: Cpu, now: u64)
    ensures Settled(Arm(c, now)) == Settled(c) && DeliveryIn(Arm(c, now).vmcs) == DeliveryIn(c.vmcs)
  {
    hide Armed, EventValid, WindowOn;
  }

  /** The timer's part of a turn: it expires only on a preemption-timer exit. */
  function ExpiryAt(c: Cpu, r: Round): seq<Event> {
    if r.Exited? && r.reason % 0x1_0000 == 52 && c.timer.deadline.Some? && !c.timer.masked
    then [EventLog.Expired(c.timer.vector)] else []
  }

  function Log(c: Cpu, turns: seq<Turn>): seq<Event> {
    if turns == [] then []
    else
      var prior := turns[..|turns| - 1];
      var c', t := After(c, prior), turns[|turns| - 1];
      Log(c, prior) + DeliveryIn(Prepare(c', t.round.now).vmcs) + ExpiryAt(c', t.round)
  }

  lemma PrepareKeepsTimer(c: Cpu, now: u64)
    ensures Prepare(c, now).timer == c.timer
  {
  }

  /** No exit touches the entry-interruption field or the controls, and only the preemption
      timer's makes a vector wait. */
  lemma EmulateState(c: Cpu, r: Round)
    requires r.Exited?
    ensures var c' := Emulate(c, r).0;
            && c'.vmcs.entryInfo == c.vmcs.entryInfo && c'.vmcs.controls == c.vmcs.controls
            && c'.pending == if ExpiryAt(c, r) == [] then c.pending else Some(c.timer.vector)
  {
    hide Join, WriteTimer, ReadMsr, SplitInto, Skip, Index;
  }

  lemma TurnState(c: Cpu, t: Turn)
    requires Quiet(c) && t.round.Exited? && ExitContract(Prepare(c, t.round.now), t.round)
    ensures Quiet(Next(c, t))
    ensures var left := Next(c, t).pending;
            || (ExpiryAt(c, t.round) == [] && left == Prepare(c, t.round.now).pending)
            || (left.Some? && ExpiryAt(c, t.round) == [EventLog.Expired(left.value)])
  {
    hide And, Shr, EventValid, WindowOn, Accepts, Prepare, Emulate, TimerContract;
    EntryState(c, t.round.now);
    PrepareKeepsTimer(c, t.round.now);
    EmulateState(Leave(Prepare(c, t.round.now), t.round), t.round);
  }

  /** Over every run, each interrupt injected is the latest expiry, injected once, and
      what is left waiting is exactly the latest expiry not yet injected. */
  lemma {:induction false} Deliveries(c: Cpu, turns: seq<Turn>)
    requires Quiet(c) && c.pending.None? && Hardware(c, turns)
    ensures Quiet(After(c, turns))
    ensures Paired(Log(c, turns)) && After(c, turns).pending == Pending(Log(c, turns))
  {
    hide Prepare, Next, DeliveryIn, ExpiryAt, Paired, ExitContract, Hardware, Quiet;
    if turns != [] {
      var prior, t := turns[..|turns| - 1], turns[|turns| - 1];
      HardwarePrefix(c, turns);
      Deliveries(c, prior);
      var c' := After(c, prior);
      EntryState(c', t.round.now);
      TurnState(c', t);
      DeliverThenExpire(Log(c, prior), DeliveryIn(Prepare(c', t.round.now).vmcs), ExpiryAt(c', t.round), Next(c', t).pending);
    } else {
      NothingYet();
    }
  }

  lemma NothingYet()
    ensures Paired([])
  {
  }

  /** Interrupt conservation over every run. */
  lemma Conserved(c: Cpu, turns: seq<Turn>)
    requires Quiet(c) && c.pending.None? && Hardware(c, turns)
    ensures var log := Log(c, turns);
            Expiries(log) == Injections(log) + Coalesced(log) + if After(c, turns).pending.Some? then 1 else 0
  {
    Deliveries(c, turns);
    Conservation(Log(c, turns));
  }

  /** An interrupt-window exit is followed by an entry that injects the waiting vector and
      closes the window, so the exit does not repeat for that vector. */
  lemma WindowExit(c: Cpu, t: Turn, now: u64)
    requires Quiet(c) && t.round.Exited? && ExitContract(Prepare(c, t.round.now), t.round)
    requires t.round.reason % 0x1_0000 == 7
    ensures var waiting := Prepare(c, t.round.now).pending;
            var p := Prepare(Next(c, t), now);
            waiting.Some? && DeliveryIn(p.vmcs) == [Injected(waiting.value)] && p.pending.None? && !WindowOn(p.vmcs.controls)
  {
    hide And, Shr, Ready, Settled, EventValid, WindowOn, Prepare;
    EntryState(c, t.round.now);
    EntrySettled(c, t.round.now);
    WindowTurn(c, t);
    EntryState(Next(c, t), now);
    EntrySettled(Next(c, t), now);
  }

  lemma EntrySettled(c: Cpu, now: u64)
    requires Quiet(c)
    ensures var p := Prepare(c, now);
            && (WindowOn(p.vmcs.controls) <==> p.pending.Some?) && (p.pending.Some? ==> !Ready(p.vmcs))
            && (Ready(p.vmcs) <==> Ready(c.vmcs.(rflags := c.regs.rflags)))
  {
    hide And, Shr, WindowOn, Armed, SetWindow, EventWord, Accepts, EventValid;
    EntryState(c, now);
  }

  lemma WindowTurn(c: Cpu, t: Turn)
    requires Quiet(c) && t.round.Exited? && ExitContract(Prepare(c, t.round.now), t.round)
    requires t.round.reason % 0x1_0000 == 7
    ensures Next(c, t).pending == Prepare(c, t.round.now).pending && Next(c, t).pending.Some? && Quiet(Next(c, t))
    ensures Ready(Next(c, t).vmcs.(rflags := Next(c, t).regs.rflags))
  {
    hide And, Shr, Ready, EventValid, WindowOn, Prepare, TimerContract;
    EntrySettled(c, t.round.now);
  }

  // --- The timer ----------------------------------------------------------------------------

  datatype MsrWrite = MsrWrite(msr: u32, value: u64)

  /** The WRMSR a round ends with, exit reason 32: the MSR is in ECX, the value in EDX:EAX. */
  function Wrmsr(r: Round): (w: Option<MsrWrite>)
    ensures w.Some? ==> r.Exited?
  {
    if r.Exited? && r.reason % 0x1_0000 == 32 then
      Some(MsrWrite(r.gprs.rcx % 0x1_0000_0000,
                    r.gprs.rdx % 0x1_0000_0000 * 0x1_0000_0000 + r.gprs.rax % 0x1_0000_0000))
    else None
  }

  /** The timer after a turn: written if the exit is a WRMSR, expired if it is the preemption timer's. */
  function TimerAfter(timer: ApicTimer, r: Round): ApicTimer {
    match Wrmsr(r)
    case Some(w) => WriteTimer(timer, w.msr, w.value, r.later)
    case None => if r.Exited? && r.reason % 0x1_0000 == 52 then Expire(timer) else timer
  }

  lemma TurnTimer(c: Cpu, t: Turn)
    ensures Next(c, t).timer == TimerAfter(c.timer, t.round)
  {
    hide Prepare, ReadMsr, SplitInto, WriteTimer, SetLowByte;
    PrepareKeepsTimer(c, t.round.now);
    var w := Wrmsr(t.round);
    if w.Some? {
      OtherMsr(c.timer, w.value.msr, w.value.value, t.round.later);
    }
  }

  lemma OtherMsr(t: ApicTimer, msr: u32, value: u64, now: u64)
    ensures !(msr == 0x832 || msr == 0x6E0 || msr == 0x838) ==> WriteTimer(t, msr, value, now) == t
    ensures WriteTimer(t, IA32_FS_BASE, value, now) == WriteTimer(t, IA32_GS_BASE, value, now)
            == WriteTimer(t, IA32_EFER, value, now) == t
  {
    hide And;
  }

  /** The guest's write of turn `t` arms the timer with a deadline that wraps to zero. */
  predicate Wraps(c: Cpu, t: Turn) {
    var w := Wrmsr(t.round);
    w.Some? && WrapsToZero(c.timer, w.value.msr, w.value.value, t.round.later)
  }

  lemma TurnKeepsTimer(c: Cpu, t: Turn)
    requires Inv(c.timer)
    ensures Inv(Next(c, t).timer) <==> !Wraps(c, t)
  {
    hide Next, Expire, WriteTimer, WrapsToZero, Inv, Wrmsr;
    TurnTimer(c, t);
    ExpireKeepsInv(c.timer);
    var w := Wrmsr(t.round);
    if w.Some? {
      WriteKeepsInv(c.timer, w.value.msr, w.value.value, t.round.later);
    }
  }

  /** Until a write wraps, the timer's state is sound over every run. */
  lemma {:induction false} TimerSound(c: Cpu, turns: seq<Turn>)
    requires Inv(c.timer) && Ran(turns)
    requires forall k :: 0 <= k < |turns| ==> !Wraps(After(c, turns[..k]), turns[k])
    ensures Inv(After(c, turns).timer)
    ensures ReadMsr(After(c, turns), IA32_TSC_DEADLINE) == 0 <==> After(c, turns).timer.deadline.None?
  {
    hide Wraps, Next;
    if turns != [] {
      var prior, t := turns[..|turns| - 1], turns[|turns| - 1];
      assert !Wraps(After(c, turns[..|turns| - 1]), turns[|turns| - 1]);
      forall k | 0 <= k < |prior|
        ensures prior[k].round.Exited? && !Wraps(After(c, prior[..k]), prior[k])
      {
        assert prior[..k] == turns[..k] && prior[k] == turns[k];
      }
      TimerSound(c, prior);
      TurnKeepsTimer(After(c, prior), t);
    }
  }

  // --- Expiry times ---------------------------------------------------------------------------

  /** Never late: no exit comes later than the deadline by more than the time between reading the
      clock and entering the guest. */
  lemma NeverLate(c: Cpu, t: Turn)
    requires t.round.Exited? && TimerContract(Prepare(c, t.round.now), t.round) && c.timer.deadline.Some?
    ensures var delay := t.round.entry - t.round.now;
            t.round.exit <= t.round.entry || t.round.exit <= c.timer.deadline.value + delay
  {
    ArmedValue(c, t.round.now);
    ArmedBound(c.timer, t.round.now, c.scale, Unit(c));
    hide Prepare, Armed, Ones;
  }

  lemma ArmedValue(c: Cpu, now: u64)
    ensures Prepare(c, now).vmcs.preemptionTimer == Armed(c.timer, now, c.scale)
    ensures Prepare(c, now).timer == c.timer && Unit(Prepare(c, now)) == Unit(c)
  {
    hide And, Shr, Ones, SetWindow, EventWord, Accepts;
  }

  /** The deadline fits the 32-bit timer. */
  ghost predicate Reachable(c: Cpu, now: u64)
    requires c.timer.deadline.Some?
  {
    SaturatingSub(c.timer.deadline.value, now) < Unit(c) * 0x1_0000_0000
  }

  /** How early: the exit that raises the vector comes less than two counts before the deadline
      if the deadline fits the timer. Exactly, it comes less than one count before it, not
      counting where in a count the guest was entered, if and only if the deadline fits. */
  lemma EarlyBound(c: Cpu, t: Turn)
    requires t.round.Exited? && TimerContract(Prepare(c, t.round.now), t.round) && c.timer.deadline.Some?
    requires t.round.reason % 0x1_0000 == 52
    ensures var d, w := c.timer.deadline.value, Unit(c);
            var slack := t.round.entry % w - (t.round.entry - t.round.now);
            && (Reachable(c, t.round.now) <==> d < t.round.exit + w + slack)
            && (Reachable(c, t.round.now) ==> d < t.round.exit + 2 * w)
    ensures !c.timer.masked ==> Next(c, t).pending == Some(c.timer.vector)
  {
    TimerTurn(c, t);
    ArmedValue(c, t.round.now);
    ArmedBound(c.timer, t.round.now, c.scale, Unit(c));
    hide Prepare, Armed, Ones, Next;
  }

  lemma TimerTurn(c: Cpu, t: Turn)
    requires t.round.Exited? && t.round.reason % 0x1_0000 == 52
    ensures c.timer.deadline.Some? && !c.timer.masked ==> Next(c, t).pending == Some(c.timer.vector)
  {
    hide And, Shr, SetWindow, EventWord, Accepts, Expire;
  }

  /** The deadline 2^33 of `EarlyWhenClamped`, and the turn that misses it. */
  function FarOff(c: Cpu): Cpu {
    c.(timer := ApicTimer(0x20, false, true, false, Some(0x2_0000_0000), None), scale := 0)
  }

  function EarlyTurn(c: Cpu): Turn {
    var v := Prepare(FarOff(c), 0).vmcs.(entryInfo := 0);
    Turn(Exited(0, c.regs.gprs, v, c.guestFp, 52, 0, 0, 0, CpuidResult(0, 0, 0, 0), 0, 0xFFFF_FFFF), 0)
  }

  /** A deadline that does not fit, since the handler does not look at the clock again: the
      vector is raised before half of the wait is over. */
  lemma EarlyWhenClamped(c: Cpu)
    ensures var f, t := FarOff(c), EarlyTurn(c);
            && ExitContract(Prepare(f, 0), t.round)
            && Next(f, t).pending == Some(0x20) && t.round.exit < f.timer.deadline.value / 2
  {
    var f, t := FarOff(c), EarlyTurn(c);
    TimerTurn(f, t);
    ArmedValue(f, 0);
    hide And, SetWindow, EventWord, Accepts, Next;
    assert Armed(f.timer, 0, 0) == 0xFFFF_FFFF;
    hide Prepare;
  }

  /** The exit of turn `t` is a WRMSR to one of the timer's registers. */
  predicate WritesTimer(t: Turn) {
    var w := Wrmsr(t.round);
    w.Some? && (w.value.msr == 0x832 || w.value.msr == 0x6E0 || w.value.msr == 0x838)
  }

  ghost predicate LeftAlone(turns: seq<Turn>) {
    forall k :: 0 <= k < |turns| ==> turns[k].round.Exited? && !WritesTimer(turns[k])
  }

  /** A turn that does not write the timer expires it at most once. */
  lemma TurnExpires(c: Cpu, t: Turn)
    requires Inv(c.timer) && t.round.Exited? && !WritesTimer(t)
    ensures Next(c, t).timer == if ExpiryAt(c, t.round) != [] then Expire(c.timer) else c.timer
  {
    hide Next, WriteTimer;
    TurnTimer(c, t);
    var w := Wrmsr(t.round);
    if w.Some? {
      OtherMsr(c.timer, w.value.msr, w.value.value, t.round.later);
    }
  }

  lemma LogStep(c: Cpu, prior: seq<Turn>, t: Turn)
    ensures After(c, prior + [t]) == Next(After(c, prior), t)
    ensures Expiries(Log(c, prior + [t])) == Expiries(Log(c, prior)) + |ExpiryAt(After(c, prior), t.round)|
  {
    hide Next, Prepare, EventValid;
    var turns := prior + [t];
    assert turns[..|turns| - 1] == prior;
    var d, e := DeliveryIn(Prepare(After(c, prior), t.round.now).vmcs), ExpiryAt(After(c, prior), t.round);
    ExpiriesOf(Log(c, prior), d);
    ExpiriesOf(Log(c, prior) + d, e);
  }

  /** Over every run that leaves the timer's registers alone, the timer is where its expiries
      have taken it, whenever they came. */
  lemma {:induction false} RunTimer(c: Cpu, turns: seq<Turn>)
    requires Inv(c.timer) && LeftAlone(turns)
    ensures Inv(After(c, turns).timer) && After(c, turns).timer == Expires(c.timer, Expiries(Log(c, turns)))
    decreases |turns|
  {
    hide Next, WritesTimer, Log, ExpiryAt;
    if turns == [] {
      NothingLogged(c);
    } else {
      var prior, t := turns[..|turns| - 1], turns[|turns| - 1];
      assert turns == prior + [t];
      assert turns[|turns| - 1].round.Exited? && !WritesTimer(turns[|turns| - 1]);
      RunTimer(c, prior);
      TurnExpires(After(c, prior), t);
      LogStep(c, prior, t);
      OneAtMost(After(c, prior), t.round);
      ExpireKeepsInv(After(c, prior).timer);
    }
  }

  lemma OneAtMost(c: Cpu, r: Round)
    ensures |ExpiryAt(c, r)| <= 1
  {
  }

  lemma NothingLogged(c: Cpu)
    ensures Expiries(Log(c, [])) == 0
  {
  }

  /** No drift over runs: after n logged expiries the deadline is `min(d0 + n * period, 2^64 - 1)`. */
  lemma RunsDoNotDrift(c: Cpu, turns: seq<Turn>)
    requires Inv(c.timer) && LeftAlone(turns) && c.timer.period.Some?
    ensures var n := Expiries(Log(c, turns));
            After(c, turns).timer.deadline == Some(Min(c.timer.deadline.value + n * c.timer.period.value, U64_MAX))
  {
    hide After, Log, LeftAlone;
    RunTimer(c, turns);
    NoDrift(c.timer, Expiries(Log(c, turns)));
  }

  /** Every exit of the run comes two counts or more before `d`, and `d` always fits the timer. */
  ghost predicate AllBefore(turns: seq<Turn>, d: u64, w: nat) {
    forall k :: 0 <= k < |turns| ==> turns[k].round.Exited? && turns[k].round.exit + 2 * w <= d
                                     && SaturatingSub(d, turns[k].round.now) < w * 0x1_0000_0000
  }

  /** Never early, up to the rounding: as long as every exit comes two counts before the deadline,
      no expiry is logged and the timer stays armed as it was. */
  lemma {:induction false} NeverEarly(c: Cpu, turns: seq<Turn>)
    requires Inv(c.timer) && LeftAlone(turns) && Hardware(c, turns) && c.timer.deadline.Some?
    requires AllBefore(turns, c.timer.deadline.value, Unit(c))
    ensures Expiries(Log(c, turns)) == 0 && After(c, turns).timer == c.timer && After(c, turns).scale == c.scale
    decreases |turns|
  {
    hide Next, WritesTimer, Log, ExpiryAt, Hardware, Prepare, Unit, TimerContract;
    if turns == [] {
      NothingLogged(c);
    } else {
      var prior, t := turns[..|turns| - 1], turns[|turns| - 1];
      assert turns == prior + [t];
      assert turns[|turns| - 1].round.Exited? && !WritesTimer(turns[|turns| - 1]);
      HardwarePrefix(c, turns);
      NeverEarly(c, prior);
      var c' := After(c, prior);
      SameUnit(c, c');
      TurnExpires(c', t);
      LogStep(c, prior, t);
      if ExpiryAt(c', t.round) != [] {
        ExpiryIsTimerExit(c', t.round);
        EarlyBound(c', t);
        assert false;
      }
      KeepsScale(c', t);
    }
  }

  lemma SameUnit(c: Cpu, c': Cpu)
    requires c.scale == c'.scale
    ensures Unit(c) == Unit(c')
  {
  }

  lemma ExpiryIsTimerExit(c: Cpu, r: Round)
    ensures ExpiryAt(c, r) != [] ==> r.Exited? && r.reason % 0x1_0000 == 52
  {
  }

  lemma KeepsScale(c: Cpu, t: Turn)
    ensures Next(c, t).scale == c.scale
  {
    hide And, Shr, Join, WriteTimer, Accepts, SetWindow, EventWord;
  }

  // --- What the guest programmed ---------------------------------------------------------------

  /** The value of the latest WRMSR to the timer's LVT entry, MSR 0x832; zero at reset. */
  function LvtValue(turns: seq<Turn>): u64 {
    if turns == [] then 0
    else
      var w := Wrmsr(turns[|turns| - 1].round);
      if w.Some? && w.value.msr == 0x832 then w.value.value else LvtValue(turns[..|turns| - 1])
  }

  /** Over every run of a vCPU that starts with a reset timer, vector, mask and mode are those of
      the latest LVT write: no other write, and no expiry, changes them. */
  lemma {:induction false} Programmed(c: Cpu, turns: seq<Turn>)
    requires c.timer == RESET
    ensures Lvt(After(c, turns).timer, LvtValue(turns))
  {
    hide Next, Lvt, WriteTimer, Expire, Wrmsr;
    if turns == [] {
      ResetLvt();
    } else {
      var prior, t := turns[..|turns| - 1], turns[|turns| - 1];
      var w := Wrmsr(t.round);
      Programmed(c, prior);
      TurnTimer(After(c, prior), t);
      PollKeepsLvt(After(c, prior).timer, 0, LvtValue(prior));
      if w.Some? {
        WriteSetsLvt(After(c, prior).timer, w.value.msr, w.value.value, t.round.later, LvtValue(prior));
      }
    }
  }

  /** The exit of turn `j` is the preemption timer's, exit reason 52, with a deadline armed and the
      timer not masked. */
  predicate ExpiresAt(c: Cpu, turns: seq<Turn>, j: nat)
    requires j < |turns|
  {
    && turns[j].round.Exited? && turns[j].round.reason % 0x1_0000 == 52
    && After(c, turns[..j]).timer.deadline.Some? && LvtValue(turns[..j]) / 0x1_0000 % 2 == 0
  }

  /** What the entry of turn `k` injects. */
  function InjectedAt(c: Cpu, turns: seq<Turn>, k: nat): seq<Event>
    requires k < |turns|
  {
    DeliveryIn(Prepare(After(c, turns[..k]), turns[k].round.now).vmcs)
  }

  lemma ExpiryVector(c: Cpu, turns: seq<Turn>, j: nat)
    requires c.timer == RESET && j < |turns|
    ensures ExpiryAt(After(c, turns[..j]), turns[j].round)
            == if ExpiresAt(c, turns, j) then [EventLog.Expired(LvtValue(turns[..j]) % 0x100)] else []
  {
    hide After, LvtValue;
    Programmed(c, turns[..j]);
  }

  lemma HardwareAt(c: Cpu, turns: seq<Turn>, n: nat)
    requires Hardware(c, turns) && n <= |turns|
    ensures Hardware(c, turns[..n])
    ensures n < |turns| ==>
              turns[n].round.Exited? && ExitContract(Prepare(After(c, turns[..n]), turns[n].round.now), turns[n].round)
  {
    hide ExitContract, Prepare, After;
    var prior := turns[..n];
    forall k | 0 <= k < |prior|
      ensures prior[k].round.Exited? && ExitContract(Prepare(After(c, prior[..k]), prior[k].round.now), prior[k].round)
    {
      assert prior[..k] == turns[..k] && prior[k] == turns[k];
    }
  }

  /** A vector that waits comes from the latest expiry, and nothing has been injected since. */
  lemma {:induction false} WaitsSince(c: Cpu, turns: seq<Turn>, n: nat) returns (j: nat)
    requires c.timer == RESET && Quiet(c) && c.pending.None? && Hardware(c, turns)
    requires n <= |turns| && After(c, turns[..n]).pending.Some?
    ensures j < n && ExpiresAt(c, turns, j) && After(c, turns[..n]).pending == Some(LvtValue(turns[..j]) % 0x100)
    ensures forall i :: j < i < n ==> !ExpiresAt(c, turns, i) && InjectedAt(c, turns, i) == []
    decreases n
  {
    hide After, InjectedAt, ExpiresAt, LvtValue, Hardware, Quiet;
    NoTurns(c, turns);
    assert 0 < n;
    WaitsStep(c, turns, n);
    if ExpiresAt(c, turns, n - 1) {
      j := n - 1;
    } else {
      j := WaitsSince(c, turns, n - 1);
    }
  }

  lemma NoTurns(c: Cpu, turns: seq<Turn>)
    ensures After(c, turns[..0]) == c
  {
    assert turns[..0] == [];
  }

  lemma WaitsStep(c: Cpu, turns: seq<Turn>, n: nat)
    requires c.timer == RESET && Quiet(c) && c.pending.None? && Hardware(c, turns)
    requires 0 < n <= |turns| && After(c, turns[..n]).pending.Some?
    ensures var left := After(c, turns[..n]).pending;
            if ExpiresAt(c, turns, n - 1) then left == Some(LvtValue(turns[..n - 1]) % 0x100)
            else left == After(c, turns[..n - 1]).pending && InjectedAt(c, turns, n - 1) == []
  {
    hide Next, Prepare, DeliveryIn, ExpiresAt, ExpiryAt, LvtValue, Hardware, ExitContract, Quiet, Settled;
    var prior, t := turns[..n - 1], turns[n - 1];
    assert turns[..n][..n - 1] == prior && turns[..n][n - 1] == t;
    HardwareAt(c, turns, n - 1);
    Deliveries(c, prior);
    EntryState(After(c, prior), t.round.now);
    TurnState(After(c, prior), t);
    ExpiryVector(c, turns, n - 1);
  }

  /** Every injected vector is the low byte of what the guest last wrote to the LVT entry before
      the expiry it reports, which is the latest one; and it is injected once. */
  lemma InjectedIsProgrammed(c: Cpu, turns: seq<Turn>, k: nat, v: u8) returns (j: nat)
    requires c.timer == RESET && Quiet(c) && c.pending.None? && Hardware(c, turns)
    requires k < |turns| && InjectedAt(c, turns, k) == [Injected(v)]
    ensures j < k && ExpiresAt(c, turns, j) && v == LvtValue(turns[..j]) % 0x100
    ensures forall i :: j < i < k ==> !ExpiresAt(c, turns, i) && InjectedAt(c, turns, i) == []
  {
    hide After, Prepare, DeliveryIn, ExpiresAt, LvtValue, Hardware, Quiet, Settled, ExitContract;
    HardwareAt(c, turns, k);
    Deliveries(c, turns[..k]);
    EntryState(After(c, turns[..k]), turns[k].round.now);
    j := WaitsSince(c, turns, k);
  }

  // --- Exits, as the processor reports them -------------------------------------------------------

  /** What the backend reports for each basic exit reason: external interrupt, interrupt window,
      CPUID, RDMSR, WRMSR, preemption timer and XSETBV continue; I/O hands over the qualification;
      a triple fault ends the run, and so does every other reason. */
  lemma ExitResult(c: Cpu, r: Round)
    requires r.Exited?
    ensures var reason, res := r.reason % 0x1_0000, Step(c, r).1;
            && (res == Ok(Success) <==> reason in {1, 7, 10, 31, 32, 52, 55})
            && (res == Ok(IoInstruction(r.qualification)) <==> reason == 30)
            && (res == Ok(Shutdown) <==> reason == 2)
            && (res == Err(UnknownVMExitReason) <==> reason !in {1, 2, 7, 10, 30, 31, 32, 52, 55})
  {
    hide Prepare, ReadMsr, SplitInto, WriteMsr, Join, Skip, VmxSpec.Expired;
  }

  /** A refused entry ends the run with the processor's error. */
  lemma RefusedResult(c: Cpu, r: Round)
    requires r.Refused?
    ensures Step(c, r).1 == Err(VMEntryFailed(r.error)) && Step(c, r).0.regs == c.regs
  {
    hide And, Shr, Accepts, SetWindow, EventWord;
  }

  /** The registers the guest has when it exits. */
  function AtExit(r: Round): GuestRegisters
    requires r.Exited?
  {
    GuestRegisters(r.gprs, r.vmcs.rip, r.vmcs.rsp, r.vmcs.rflags)
  }

  /** What an RDMSR returns: FS base, GS base and EFER from the VMCS, the armed deadline from the
      timer, and zero for every other MSR. */
  function MsrRead(timer: ApicTimer, r: Round): u64
    requires r.Exited?
  {
    var msr := r.gprs.rcx % 0x1_0000_0000;
    if msr == 0xC000_0100 then r.vmcs.fsBase
    else if msr == 0xC000_0101 then r.vmcs.gsBase
    else if msr == 0xC000_0080 then r.vmcs.efer
    else if msr == 0x6E0 then ReadDeadline(timer)
    else 0
  }

  /** RDMSR returns the value in EDX:EAX. */
  lemma RdmsrExit(c: Cpu, r: Round)
    requires r.Exited? && r.reason % 0x1_0000 == 31
    ensures var g, v := Step(c, r).0.regs.gprs, MsrRead(c.timer, r);
            g == r.gprs.(rax := v % 0x1_0000_0000, rdx := v / 0x1_0000_0000)
  {
    hide Prepare;
    PrepareKeepsTimer(c, r.now);
  }

  /** The VMCS after a round is the one the guest left, except for the field that a WRMSR names. */
  lemma WrmsrExit(c: Cpu, r: Round)
    requires r.Exited?
    ensures Step(c, r).0.vmcs ==
              match Wrmsr(r)
              case None => r.vmcs
              case Some(MsrWrite(msr, value)) =>
                if msr == 0xC000_0100 then r.vmcs.(fsBase := value)
                else if msr == 0xC000_0101 then r.vmcs.(gsBase := value)
                else if msr == 0xC000_0080 then r.vmcs.(efer := value)
                else r.vmcs
  {
    hide Prepare, ReadMsr, SplitInto, WriteTimer, Skip, Expire;
  }

  // --- Transparency ---------------------------------------------------------------------------

  /** The registers VM-entry and the trampoline load from a prepared state. */
  function Loaded(p: Cpu): GuestRegisters {
    GuestRegisters(p.regs.gprs, p.vmcs.rip, p.vmcs.rsp, p.vmcs.rflags)
  }

  lemma PreparedLoads(c: Cpu, now: u64)
    ensures Loaded(Prepare(c, now)) == c.regs && Prepare(c, now).guestFp == c.guestFp
  {
    hide And, Shr, Accepts, SetWindow, EventWord;
  }

  /** Between an exit and the next entry, the guest's registers and FP state change only
      by the emulation of that exit. */
  lemma Transparent(c: Cpu, t: Turn, now: u64)
    requires t.round.Exited?
    ensures var r := t.round;
            var before := AtExit(r);
            var reason := r.reason % 0x1_0000;
            var entered := Prepare(Next(c, t), now);
            var after := Loaded(entered);
            var past := before.(rip := Add64(before.rip, r.length));
            && entered.guestFp == r.fp
            && after.rsp == before.rsp && after.rflags == before.rflags
            && (reason == 1 || reason == 7 || reason == 52 ==>
                  after == before)
            && (reason == 55 || reason == 32 ==> after == past)
            && (reason == 31 ==>
                  after.rip == past.rip && after.gprs.(rax := 0, rdx := 0) == past.gprs.(rax := 0, rdx := 0))
            && (reason == 10 ==>
                  && after.rip == past.rip
                  && after.gprs == past.gprs.(rax := r.cpuid.eax, rbx := r.cpuid.ebx, rcx := r.cpuid.ecx, rdx := r.cpuid.edx))
            && (reason == 30 && r.qualification / 8 % 2 == 0 ==> after == past)
            && (reason == 30 && r.qualification / 8 % 2 == 1 ==>
                  && after.rip == past.rip && after.gprs.(rax := 0) == past.gprs.(rax := 0)
                  && after.gprs.rax / 0x100 == before.gprs.rax / 0x100 && after.gprs.rax % 0x100 == t.input)
  {
    hide And, Shr, Accepts, SetWindow, EventWord, Join, WriteTimer, Loaded, Prepare, Add64;
    PreparedLoads(Next(c, t), now);
    AndOne(t.round.qualification / 8);
  }

  /** RDMSR returns in EDX:EAX what WRMSR took from them, as long as the field is kept. */
  lemma GuestMsrRoundTrip(c: Cpu, w: Round, c': Cpu, r: Round)
    requires Wrmsr(w).Some? && r.Exited? && r.reason % 0x1_0000 == 31
    requires Wrmsr(w).value.msr == r.gprs.rcx % 0x1_0000_0000
    requires var v, msr := Step(c, w).0.vmcs, Wrmsr(w).value.msr;
             || (msr == 0xC000_0100 && r.vmcs.fsBase == v.fsBase)
             || (msr == 0xC000_0101 && r.vmcs.gsBase == v.gsBase)
             || (msr == 0xC000_0080 && r.vmcs.efer == v.efer)
    ensures var g, g' := w.gprs, Step(c', r).0.regs.gprs;
            g'.rax == g.rax % 0x1_0000_0000 && g'.rdx == g.rdx % 0x1_0000_0000
  {
    hide Step;
    WrmsrExit(c, w);
    RdmsrExit(c', r);
    SplitJoin(w.gprs.rdx, w.gprs.rax);
  }
}
