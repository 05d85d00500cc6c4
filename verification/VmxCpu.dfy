/** The Intel VT-x backend of a virtual CPU: the code of `VmxCpu`, working on the VMCS through
    VMREAD and VMWRITE that may fail, proved to compute the functions of `VmxSpec` on its
    fields, or to report the failure. */
module VmxCpu {
  import opened Bits
  import opened Options
  import opened Words
  import opened Registers
  import opened ApicTimer
  import opened Backend
  import S = VmxSpec
  import R = VmxRun
  import V = Vmcs

  /** `adjust_control`: the bits that must be one are forced on, the bits that must be zero
      are forced off, and every other bit is as requested. */
  method AdjustControl(capabilities: u64, requested: u64) returns (effective: u64)
    ensures effective < 0x1_0000_0000
    ensures forall k :: Bit(effective, k) <==>
              (Bit(requested % 0x1_0000_0000, k) || Bit(capabilities % 0x1_0000_0000, k)) && Bit(capabilities / 0x1_0000_0000, k)
  {
    var allowed0 := capabilities % 0x1_0000_0000;
    var allowed1 := capabilities / 0x1_0000_0000;
    var wanted := requested % 0x1_0000_0000;
    var forced := Or(wanted, allowed0);
    AndAtMost(forced, allowed1);
    effective := And(forced, allowed1);
    forall k
      ensures Bit(effective, k) <==> (Bit(wanted, k) || Bit(allowed0, k)) && Bit(allowed1, k)
    {
      AndOrBits(wanted, allowed0, k);
      AndOrBits(forced, allowed1, k);
    }
  }

  /** What happens around one VM-entry, as the code sees it: the VMCS the guest leaves is a store. */
  datatype RawRound =
    | Refused(now: u64, error: u32, fp: Fp)
    | Exited(now: u64, gprs: Gprs, store: V.Store, fp: Fp, later: u64, cpuid: CpuidResult, entry: u64, exit: u64)

  function Abstract(r: RawRound): S.Round {
    match r
    case Refused(now, error, fp) => S.Refused(now, error, fp)
    case Exited(now, gprs, store, fp, later, cpuid, entry, exit) =>
      S.Exited(now, gprs, V.View(store), fp, Word32(store, V.EXIT_REASON), V.Peek(store, V.QUALIFICATION),
               Word32(store, V.INSTRUCTION_LENGTH), later, cpuid, entry, exit)
  }

  /** What the specification makes of an exit: the state after it and the result. */
  ghost function Emulated(c: S.Cpu, r: RawRound): (S.Cpu, Result<ExitReason>)
    requires r.Exited?
  {
    S.Emulate(c, Abstract(r))
  }

  function Word32(store: V.Store, field: u32): u32 {
    V.Peek(store, field) % 0x1_0000_0000
  }

  lemma WordIsField(store: V.Store)
    ensures Word32(store, V.EXIT_REASON) == V.Peek(store, V.EXIT_REASON)
    ensures Word32(store, V.INSTRUCTION_LENGTH) == V.Peek(store, V.INSTRUCTION_LENGTH)
    ensures V.Peek(store, V.CONTROLS) < 0x1_0000_0000
  {
  }

  /** What an exit is, by the encodings of the fields that describe it: the reason at 0x4402, the
      instruction length at 0x440C, the qualification at 0x6400. */
  lemma RawExit(r: RawRound)
    requires r.Exited?
    ensures var a := Abstract(r);
            && a.Exited? && a.reason == V.Peek(r.store, 0x4402) && a.length == V.Peek(r.store, 0x440C)
            && a.qualification == V.Peek(r.store, 0x6400)
            && a.gprs == r.gprs && a.vmcs == V.View(r.store) && a.cpuid == r.cpuid && a.later == r.later && a.fp == r.fp
  {
    hide V.Peek, V.View;
    WordIsField(r.store);
  }

  /** The result and the next RIP of an I/O exit, reason 30: the port is bits 31:16 of the
      qualification, and bit 3 is set for IN. */
  lemma RawIo(c: S.Cpu, r: RawRound)
    requires r.Exited? && V.Peek(r.store, 0x4402) % 0x1_0000 == 30
    ensures var (c', res) := S.Step(c, Abstract(r));
            var q := V.Peek(r.store, 0x6400);
            && res == Ok(IoInstruction(q)) && Port(q) == q / 0x1_0000 % 0x1_0000 && (IsIn(q) <==> q / 8 % 2 == 1)
            && c'.regs == GuestRegisters(r.gprs, Add64(V.Peek(r.store, 0x681E), V.Peek(r.store, 0x440C)),
                                         V.Peek(r.store, 0x681C), V.Peek(r.store, 0x6820))
  {
    hide V.Peek, V.View, And, S.Prepare, Add64;
    RawExit(r);
    V.Encodings(r.store);
    AndOne(V.Peek(r.store, 0x6400) / 8);
  }

  class VmxCpu {
    const vmcs: V.Region
    const scale: nat
    var regs: GuestRegisters
    var timer: ApicTimer
    var pending: Option<u8>
    var guestFpu: Fp
    var hostFpu: Fp

    ghost function State(): S.Cpu
      reads this, vmcs
    {
      S.Cpu(regs, timer, pending, V.View(vmcs.store), scale, guestFpu)
    }

    constructor (vmcs: V.Region, scale: nat, cpuId: u64, entryPoint: u64, guestRsp: u64, initialFp: Fp)
      ensures this.vmcs == vmcs && this.scale == scale && timer == RESET && pending == None && guestFpu == initialFp
      ensures regs == GuestRegisters(ZERO_GPRS.(rdi := 0x9000, rsi := cpuId), entryPoint, guestRsp, 2)
    {
      regs := GuestRegisters(ZERO_GPRS.(rdi := 0x9000, rsi := cpuId), entryPoint, guestRsp, 2);
      timer, pending := RESET, None;
      this.vmcs, this.scale := vmcs, scale;
      guestFpu, hostFpu := initialFp, [];
    }

    /** The window bit is set as asked, every other bit and field is kept, or nothing changes. */
    method SetInterruptWindow(enable: bool) returns (r: Result<()>)
      requires vmcs.Valid()
      modifies vmcs
      ensures vmcs.Valid() && vmcs.faulted == (old(vmcs.faulted) || r.Err?)
      ensures r.Ok? ==> V.View(vmcs.store) == S.WithWindow(V.View(old(vmcs.store)), enable)
      ensures r.Ok? ==> forall k :: Bit(V.View(vmcs.store).controls, k) <==>
                                    if k == 2 then enable else Bit(V.View(old(vmcs.store)).controls, k)
      ensures r.Err? ==> vmcs.store == old(vmcs.store)
    {
      var read := vmcs.Read(V.CONTROLS);
      if read.Err? {
        return Err(read.error);
      }
      WordIsField(vmcs.store);
      V.Limits();
      forall k ensures Bit(SetWindow(read.value, enable), k) <==> if k == 2 then enable else Bit(read.value, k) {
        WindowBits(read.value, enable, k);
      }
      WindowBits(read.value, enable, 0);
      hide V.Region.Valid, SetWindow, V.Limit, V.Peek, V.Fit, Bit;
      r := vmcs.Write(V.CONTROLS, SetWindow(read.value, enable));
    }

    /** `load_guest_registers`. */
    method LoadGuestRegisters() returns (r: Result<()>)
      requires vmcs.Valid()
      modifies vmcs
      ensures vmcs.Valid() && vmcs.faulted == (old(vmcs.faulted) || r.Err?)
      ensures r.Ok? ==> State() == S.Load(old(State()))
    {
      hide V.Region.Valid, V.Limit, V.Peek, V.Fit;
      V.Limits();
      r := vmcs.Write(V.RIP, regs.rip);
      if r.Ok? {
        r := vmcs.Write(V.RSP, regs.rsp);
      }
      if r.Ok? {
        r := vmcs.Write(V.RFLAGS, regs.rflags);
      }
    }

    /** Injects the pending vector, or opens the window and waits. A failure does not lose the
        vector: it is still pending, or already in the entry field. */
    method InjectPending() returns (r: Result<()>)
      requires vmcs.Valid()
      modifies vmcs, this`pending
      ensures vmcs.Valid() && vmcs.faulted == (old(vmcs.faulted) || r.Err?)
      ensures r.Ok? ==> State() == S.Inject(old(State()))
      ensures r.Ok? && R.Quiet(old(State())) ==> R.Settled(State())
      ensures Holds(old(pending))
    {
      R.InjectSettles(State());
      hide S.Inject, R.Quiet, R.Settled;
      r := TryInject();
    }

    method TryInject() returns (r: Result<()>)
      requires vmcs.Valid()
      modifies vmcs, this`pending
      ensures vmcs.Valid() && vmcs.faulted == (old(vmcs.faulted) || r.Err?)
      ensures r.Ok? ==> State() == S.Inject(old(State()))
      ensures Holds(old(pending))
    {
      hide V.Region.Valid, And, EventWord, S.WithWindow, Bit, V.Limit, V.Peek, V.Fit, V.View;
      if pending.None? {
        return Ok(());
      }
      var vector := pending.value;
      var rflags := vmcs.Read(V.RFLAGS);
      if rflags.Err? {
        return Err(rflags.error);
      }
      var state := vmcs.Read(V.INTERRUPTIBILITY);
      if state.Err? {
        return Err(state.error);
      }
      ViewReads(vmcs.store);
      if And(rflags.value, RFLAGS_IF) != 0 && And(state.value, 3) == 0 {
        r := Deliver(vector);
      } else {
        r := SetInterruptWindow(true);
      }
    }

    method Deliver(vector: u8) returns (r: Result<()>)
      requires vmcs.Valid() && pending == Some(vector)
      modifies vmcs, this`pending
      ensures vmcs.Valid() && vmcs.faulted == (old(vmcs.faulted) || r.Err?)
      ensures r.Ok? ==> pending == None
      ensures r.Ok? ==> V.View(vmcs.store) == S.WithWindow(old(V.View(vmcs.store)).(entryInfo := EventWord(vector)), false)
      ensures Holds(Some(vector))
    {
      hide V.Region.Valid, EventWord, SetWindow, Bit, V.Limit, V.Peek, V.Fit, V.View;
      r := WriteEvent(vector);
      if r.Ok? {
        pending := None;
        r := SetInterruptWindow(false);
      }
    }

    /** The vector `v`, if any, waits in `pending` or in the entry field. */
    ghost predicate Holds(v: Option<u8>)
      reads this, vmcs
    {
      v.Some? && pending != v ==> V.View(vmcs.store).entryInfo == EventWord(v.value)
    }

    method WriteEvent(vector: u8) returns (r: Result<()>)
      requires vmcs.Valid()
      modifies vmcs
      ensures vmcs.Valid() && vmcs.faulted == (old(vmcs.faulted) || r.Err?)
      ensures r.Err? ==> vmcs.store == old(vmcs.store)
      ensures r.Ok? ==> V.View(vmcs.store) == V.View(old(vmcs.store)).(entryInfo := EventWord(vector))
    {
      hide V.Region.Valid, EventWord, V.Limit, V.Peek, V.Fit, V.View;
      V.Limits();
      r := vmcs.Write(V.ENTRY_INFO, EventWord(vector));
    }

    /** The value fits the timer, does not overshoot the deadline, and falls short of it by less
        than one count exactly when the deadline is in reach; with none armed it is the maximum. */
    method ArmPreemptionTimer(now: u64) returns (r: Result<()>)
      requires vmcs.Valid()
      modifies vmcs
      ensures vmcs.Valid() && vmcs.faulted == (old(vmcs.faulted) || r.Err?)
      ensures r.Ok? ==> State() == S.Arm(old(State()), now)
      ensures r.Ok? && timer.deadline.None? ==> V.View(vmcs.store).preemptionTimer == 0xFFFF_FFFF
      ensures r.Ok? && timer.deadline.Some? ==>
                var remaining := S.SaturatingSub(timer.deadline.value, now);
                var w, v := Ones(scale) + 1, V.View(vmcs.store).preemptionTimer;
                w * v <= remaining && (remaining < w * 0x1_0000_0000 <==> remaining - w * v < w)
      ensures r.Err? ==> vmcs.store == old(vmcs.store)
    {
      var value: u64 := 0xFFFF_FFFF;
      if timer.deadline.Some? {
        S.ArmedBound(timer, now, scale, Ones(scale) + 1);
        var remaining := S.SaturatingSub(timer.deadline.value, now);
        value := Min(Shr(remaining, scale), 0xFFFF_FFFF);
      }
      hide V.Region.Valid, Shr, Ones, V.Limit, V.Peek, V.Fit, V.View;
      V.Limits();
      r := vmcs.Write(V.PREEMPTION_TIMER, value);
    }

    // --- One entry ---------------------------------------------------------------------------

    /** Everything before VM-entry: either the state is the prepared one, or the guest is not
        entered, the timer and registers are as they were and the vector is not lost. */
    method Prepare(now: u64) returns (r: Result<()>)
      requires vmcs.Valid()
      modifies vmcs, this`pending
      ensures vmcs.Valid() && vmcs.faulted == (old(vmcs.faulted) || r.Err?)
      ensures r.Ok? ==> State() == S.Prepare(old(State()), now)
      ensures r.Err? ==> Holds(old(pending))
    {
      hide V.Region.Valid, S.Load, S.Inject, S.Arm, V.View, EventWord;
      r := vmcs.Activate();
      if r.Ok? {
        r := LoadGuestRegisters();
      }
      if r.Ok? {
        r := InjectPending();
      }
      if r.Ok? {
        r := ArmPreemptionTimer(now);
      }
    }

    /** The VM-entry and the trampoline around it: the guest runs and exits, or the processor
        refuses and leaves an error number. */
    method RunVmxVm(r: RawRound)
      modifies vmcs`store, this`regs
      ensures r.Exited? ==> vmcs.store == r.store && regs == old(regs).(gprs := r.gprs)
      ensures r.Refused? ==> vmcs.store == V.Poke(old(vmcs.store), V.INSTRUCTION_ERROR, r.error) && regs == old(regs)
    {
      if r.Exited? {
        vmcs.store := r.store;
        regs := regs.(gprs := r.gprs);
      } else {
        vmcs.store := V.Poke(vmcs.store, V.INSTRUCTION_ERROR, r.error);
      }
    }

    /** `save_guest_registers`. */
    method SaveGuestRegisters() returns (r: Result<()>)
      requires vmcs.Valid()
      modifies vmcs`count, vmcs`faulted, this`regs
      ensures vmcs.Valid() && vmcs.faulted == (old(vmcs.faulted) || r.Err?)
      ensures r.Ok? ==> regs == S.Refreshed(old(regs), V.View(vmcs.store))
    {
      hide V.Region.Valid, V.View, V.Peek, V.Fit, V.Limit;
      ViewReads(vmcs.store);
      var rip := vmcs.Read(V.RIP);
      if rip.Err? {
        return Err(rip.error);
      }
      regs := regs.(rip := rip.value);
      var rsp := vmcs.Read(V.RSP);
      if rsp.Err? {
        return Err(rsp.error);
      }
      regs := regs.(rsp := rsp.value);
      var rflags := vmcs.Read(V.RFLAGS);
      if rflags.Err? {
        return Err(rflags.error);
      }
      regs := regs.(rflags := rflags.value);
      r := Ok(());
    }

    /** Advances past the instruction that exited. */
    method SkipInstruction() returns (r: Result<()>)
      requires vmcs.Valid()
      modifies vmcs`count, vmcs`faulted, this`regs
      ensures vmcs.Valid() && vmcs.faulted == (old(vmcs.faulted) || r.Err?)
      ensures r.Ok? ==> regs == Skip(old(regs), Word32(vmcs.store, V.INSTRUCTION_LENGTH))
    {
      hide V.Region.Valid, V.Peek, Word32;
      WordIsField(vmcs.store);
      var length := vmcs.Read(V.INSTRUCTION_LENGTH);
      if length.Err? {
        return Err(length.error);
      }
      regs := Skip(regs, length.value);
      r := Ok(());
    }

    method ReadMsr(index: u32) returns (r: Result<u64>)
      requires vmcs.Valid()
      modifies vmcs`count, vmcs`faulted
      ensures vmcs.Valid() && vmcs.faulted == (old(vmcs.faulted) || r.Err?)
      ensures r.Ok? ==> r.value == S.ReadMsr(State(), index)
    {
      hide V.Region.Valid, V.View, V.Peek;
      ViewReads(vmcs.store);
      if index == IA32_FS_BASE {
        r := vmcs.Read(V.FS_BASE);
      } else if index == IA32_GS_BASE {
        r := vmcs.Read(V.GS_BASE);
      } else if index == IA32_EFER {
        r := vmcs.Read(V.EFER);
      } else if index == IA32_TSC_DEADLINE {
        r := Ok(ReadDeadline(timer));
      } else {
        r := Ok(0);
      }
    }

    method WriteMsr(index: u32, value: u64, now: u64) returns (r: Result<()>)
      requires vmcs.Valid()
      modifies vmcs, this`timer
      ensures vmcs.Valid() && vmcs.faulted == (old(vmcs.faulted) || r.Err?)
      ensures r.Ok? ==> State() == S.WriteMsr(old(State()), index, value, now)
      ensures Word32(vmcs.store, V.INSTRUCTION_LENGTH) == Word32(old(vmcs.store), V.INSTRUCTION_LENGTH)
    {
      hide V.Region.Valid, V.View, V.Limit, V.Fit, V.Peek, V.Poke, Word32;
      V.Limits();
      LengthStays(vmcs.store, value);
      r := Ok(());
      if index == IA32_FS_BASE {
        r := vmcs.Write(V.FS_BASE, value);
      } else if index == IA32_GS_BASE {
        r := vmcs.Write(V.GS_BASE, value);
      } else if index == IA32_EFER {
        r := vmcs.Write(V.EFER, value);
      } else if index == IA32_X2APIC_LVT_TIMER || index == IA32_TSC_DEADLINE || index == IA32_X2APIC_INIT_COUNT {
        timer := ProgramTimer(timer, index, value, now);
      }
    }

    method PreemptionTimerExpired()
      modifies this`timer, this`pending
      ensures State() == S.Expired(old(State()))
    {
      if timer.deadline.Some? {
        var deadline := timer.deadline.value;
        timer := timer.(deadline := None);
        if !timer.masked {
          pending := Some(timer.vector);
        }
        if timer.period.Some? {
          timer := timer.(deadline := Some(SaturatingAdd(deadline, timer.period.value)));
        }
      }
    }

    method HandleRdmsr() returns (r: Result<()>)
      requires vmcs.Valid()
      modifies vmcs`count, vmcs`faulted, this`regs
      ensures vmcs.Valid() && vmcs.faulted == (old(vmcs.faulted) || r.Err?)
      ensures r.Ok? ==> regs == Skip(S.SplitInto(old(regs), S.ReadMsr(old(State()), Index(old(regs)))),
                                     Word32(vmcs.store, V.INSTRUCTION_LENGTH))
    {
      hide V.Region.Valid, S.ReadMsr, Add64, And, V.View, V.Peek, Word32;
      var value := ReadMsr(Index(regs));
      if value.Err? {
        return Err(value.error);
      }
      Low32(value.value, 0);
      regs := regs.(gprs := regs.gprs.(rax := And(value.value, LOW32), rdx := value.value / 0x1_0000_0000));
      r := SkipInstruction();
    }

    method HandleWrmsr(later: u64) returns (r: Result<()>)
      requires vmcs.Valid()
      modifies vmcs, this`regs, this`timer
      ensures vmcs.Valid() && vmcs.faulted == (old(vmcs.faulted) || r.Err?)
      ensures r.Ok? ==> var g := old(regs.gprs);
                        var c := S.WriteMsr(old(State()), Index(old(regs)), Join(g.rdx, g.rax), later);
                        State() == c.(regs := Skip(c.regs, Word32(old(vmcs.store), V.INSTRUCTION_LENGTH)))
    {
      hide V.Region.Valid, S.WriteMsr, Join, Add64, And, V.View, V.Peek, Word32;
      WriteMsrKeepsRegs(State(), Index(regs), Join(regs.gprs.rdx, regs.gprs.rax), later);
      r := WriteMsr(Index(regs), Join(regs.gprs.rdx, regs.gprs.rax), later);
      if r.Ok? {
        r := SkipInstruction();
      }
    }

    method HandleIo() returns (r: Result<u64>)
      requires vmcs.Valid()
      modifies vmcs`count, vmcs`faulted, this`regs
      ensures vmcs.Valid() && vmcs.faulted == (old(vmcs.faulted) || r.Err?)
      ensures r.Ok? ==> r.value == V.Peek(vmcs.store, V.QUALIFICATION)
      ensures r.Ok? ==> regs == Skip(old(regs), Word32(vmcs.store, V.INSTRUCTION_LENGTH))
    {
      hide V.Region.Valid, Add64, V.Peek, Word32;
      r := vmcs.Read(V.QUALIFICATION);
      if r.Ok? {
        var skipped := SkipInstruction();
        if skipped.Err? {
          r := Err(skipped.error);
        }
      }
    }

    /** The dispatch on the basic exit reason. */
    method HandleExit(r: RawRound, reason: u32) returns (res: Result<ExitReason>)
      requires vmcs.Valid() && !vmcs.faulted
      requires r.Exited? && vmcs.store == r.store && reason == Word32(r.store, V.EXIT_REASON)
      modifies vmcs, this`regs, this`timer, this`pending
      ensures vmcs.Valid() && (vmcs.faulted ==> res.Err?)
      ensures !vmcs.faulted ==> (State(), res) == Emulated(old(State()), r)
    {
      hide V.Region.Valid, S.WriteMsr, S.ReadMsr, S.Expired, S.SplitInto, Join, Add64, And, V.View, V.Peek, Word32;
      var basic := reason % 0x1_0000;
      var done: Result<()> := Ok(());
      res := Ok(Success);
      if basic == S.EXIT_RDMSR {
        done := HandleRdmsr();
      } else if basic == S.EXIT_WRMSR {
        done := HandleWrmsr(r.later);
      } else if basic == S.EXIT_CPUID {
        regs := regs.(gprs := regs.gprs.(rax := r.cpuid.eax, rbx := r.cpuid.ebx, rcx := r.cpuid.ecx, rdx := r.cpuid.edx));
        done := SkipInstruction();
      } else if basic == S.EXIT_XSETBV {
        done := SkipInstruction();
      } else if basic == S.EXIT_IO {
        var q := HandleIo();
        if q.Ok? {
          res := Ok(IoInstruction(q.value));
        } else {
          done := Err(q.error);
        }
      } else if basic == S.EXIT_PREEMPTION_TIMER {
        PreemptionTimerExpired();
      } else if basic == S.EXIT_TRIPLE_FAULT {
        res := Ok(Shutdown);
      } else if basic != S.EXIT_EXTERNAL_INTERRUPT && basic != S.EXIT_INTERRUPT_WINDOW {
        res := Err(UnknownVMExitReason);
      }
      if done.Err? {
        res := Err(done.error);
      }
    }

    /** After VM-entry: refresh the registers and emulate the exit, or report the refusal. */
    method Finish(r: RawRound) returns (res: Result<ExitReason>)
      requires vmcs.Valid() && !vmcs.faulted
      requires r.Exited? ==> vmcs.store == r.store
      requires r.Refused? ==> V.Peek(vmcs.store, V.INSTRUCTION_ERROR) == r.error
      modifies vmcs, this`regs, this`timer, this`pending
      ensures vmcs.Valid() && (vmcs.faulted ==> res.Err?)
      ensures !vmcs.faulted && r.Refused? ==> res == Err(VMEntryFailed(r.error)) && State() == old(State())
      ensures !vmcs.faulted && r.Exited? ==>
                (State(), res) == Emulated(old(State()).(regs := S.Refreshed(old(regs), V.View(r.store))), r)
    {
      hide V.Region.Valid, S.Emulate, V.View, V.Peek, V.Fit, V.Limit, Word32, Abstract, S.Refreshed;
      if r.Refused? {
        var error := vmcs.Read(V.INSTRUCTION_ERROR);
        res := Err(VMEntryFailed(if error.Ok? then error.value else 0));
        return;
      }
      WordIsField(vmcs.store);
      var saved := SaveGuestRegisters();
      if saved.Err? {
        return Err(saved.error);
      }
      var reason := vmcs.Read(V.EXIT_REASON);
      if reason.Err? {
        return Err(reason.error);
      }
      res := HandleExit(r, reason.value);
    }

    /** `run`. The guest is entered only in the prepared state. If no access to the VMCS fails,
        the whole is one step of the specification; if one does, an error is returned, and
        before VM-entry the vector that waits is not lost. The host's FP registers, `live`, are
        put back as they were found in every case. */
    method Run(r: RawRound, live: Fp) returns (res: Result<ExitReason>, live': Fp, ghost entered: Option<S.Cpu>)
      requires vmcs.Valid() && !vmcs.faulted
      modifies this, vmcs
      ensures vmcs.Valid() && (vmcs.faulted ==> res.Err?)
      ensures entered.Some? ==> entered.value == S.Prepare(old(State()), r.now)
      ensures !vmcs.faulted ==> entered.Some? && (State(), res) == S.Step(old(State()), Abstract(r))
      ensures entered.None? ==> Holds(old(pending)) && timer == old(timer) && regs == old(regs)
      ensures live' == live
    {
      hide V.Region.Valid, S.Prepare, S.Emulate, V.View, V.Peek, V.Poke, V.Fit, V.Limit, Word32, EventWord;
      entered := None;
      live' := live;
      var prepared := Prepare(r.now);
      if prepared.Err? {
        return Err(prepared.error), live', entered;
      }
      entered := Some(State());
      // host_fpu.save(); guest_fpu.restore()
      hostFpu := live;
      live' := guestFpu;
      if r.Refused? {
        Refusal(vmcs.store, r);
      }
      RunVmxVm(r);
      live' := r.fp;
      // guest_fpu.save(); host_fpu.restore()
      guestFpu := live';
      live' := hostFpu;
      res := Finish(r);
    }
  }

  /** One turn of the vCPU loop. */
  datatype RawTurn = RawTurn(round: RawRound, input: u8)

  function AbstractTurns(turns: seq<RawTurn>): (r: seq<R.Turn>)
    ensures |r| == |turns|
    ensures forall i :: 0 <= i < |turns| ==> r[i] == R.Turn(Abstract(turns[i].round), turns[i].input)
  {
    seq(|turns|, i requires 0 <= i < |turns| => R.Turn(Abstract(turns[i].round), turns[i].input))
  }

  /** Turns one after the other, up to the first failed access: without one, the runs of `VmxRun`
      are what the code does. */
  method RunTurns(cpu: VmxCpu, turns: seq<RawTurn>, live: Fp) returns (done: nat, live': Fp)
    requires cpu.vmcs.Valid() && !cpu.vmcs.faulted
    modifies cpu, cpu.vmcs
    ensures done <= |turns| && (done < |turns| ==> cpu.vmcs.faulted)
    ensures !cpu.vmcs.faulted ==> cpu.State() == R.After(old(cpu.State()), AbstractTurns(turns))
    ensures live' == live
  {
    hide V.Region.Valid, V.View, S.Step, S.Prepare, AfterIo, Abstract;
    done, live' := 0, live;
    ghost var c, a := cpu.State(), AbstractTurns(turns);
    assert a[..0] == [];
    while done < |turns| && !cpu.vmcs.faulted
      invariant done <= |turns| && cpu.vmcs.Valid() && live' == live
      invariant !cpu.vmcs.faulted ==> cpu.State() == R.After(c, a[..done])
    {
      assert a[..done + 1][..done] == a[..done] && a[..done + 1][done] == a[done];
      var res;
      ghost var entered;
      res, live', entered := cpu.Run(turns[done].round, live');
      if !cpu.vmcs.faulted {
        cpu.regs := AfterIo(cpu.regs, res, turns[done].input);
      }
      done := done + 1;
    }
    assert a[..|turns|] == a;
  }

  /** The primary controls asked for: secondary controls, unconditional I/O exiting, TPR shadow. */
  const PRIMARY_CONTROLS: u64 := 0x8120_0000

  /** The VMCS a vCPU starts with, by encoding: LME (8) and LMA (10) in EFER, only the reserved bit in
      RFLAGS, no event and no blocking; and the primary controls, where secondary controls (31),
      unconditional I/O exiting (24) and the TPR shadow (21) are asked for. */
  ghost predicate Started(store: V.Store, capabilities: u64, entryPoint: u64, guestRsp: u64) {
    && V.Peek(store, 0x2806) == 0x100 + 0x400 && V.Peek(store, 0x6820) == 2
    && V.Peek(store, 0x681E) == entryPoint && V.Peek(store, 0x681C) == guestRsp
    && V.Peek(store, 0x4824) == 0 && V.Peek(store, 0x4016) == 0 && V.Peek(store, 0x680E) == 0 && V.Peek(store, 0x6810) == 0
    && ControlBits(V.Peek(store, 0x4002), capabilities)
  }

  ghost predicate ControlBits(controls: nat, capabilities: u64) {
    forall k: nat :: Bit(controls, k) <==>
      (k == 21 || k == 24 || k == 31 || Bit(capabilities % 0x1_0000_0000, k)) && Bit(capabilities / 0x1_0000_0000, k)
  }

  lemma PrimaryForm(k: nat)
    requires k == 0
    ensures PRIMARY_CONTROLS == Shl(0x409, k + 21) && 0x409 == 1 + Shl(0x81, k + 3) && 0x81 == 1 + Shl(1, k + 7)
    ensures 1 == 1 + Shl(0, k + 1)
  {
    OnesBase(k);
    Plus12(k);
    Plus9(k + 12);
    Plus3(k);
    Plus3(k + 3);
    hide Ones, Shl;
    ShlIsProduct(0x409, k + 21);
    ShlIsProduct(0x81, k + 3);
    OneMore(k + 6);
    ShlIsProduct(1, k + 7);
    ShlIsProduct(0, k + 1);
  }

  lemma OneMore(k: nat)
    ensures Ones(k + 1) == 2 * Ones(k) + 1
  {
  }

  lemma PrimaryBits(k: nat)
    ensures Bit(PRIMARY_CONTROLS, k) <==> k == 21 || k == 24 || k == 31
  {
    hide Bit, Shl;
    PrimaryForm(0);
    ShiftedBit(0x409, 21, k);
    if 21 <= k {
      ShiftedBit(0x81, 3, k - 21);
      if 24 <= k {
        ShiftedBit(1, 7, k - 24);
        if 31 <= k {
          ShiftedBit(0, 1, k - 31);
          if 32 <= k {
            NoBits(k - 32);
          }
        }
      }
    }
  }

  lemma AdjustedBits(controls: nat, capabilities: u64)
    requires forall k :: Bit(controls, k) <==>
               (Bit(PRIMARY_CONTROLS, k) || Bit(capabilities % 0x1_0000_0000, k)) && Bit(capabilities / 0x1_0000_0000, k)
    ensures ControlBits(controls, capabilities)
  {
    hide Bit;
    forall k: nat ensures Bit(PRIMARY_CONTROLS, k) <==> k == 21 || k == 24 || k == 31 { PrimaryBits(k); }
  }

  lemma StartedFields(store: V.Store, v: S.Vmcs, controls: u64, capabilities: u64, entryPoint: u64, guestRsp: u64)
    requires V.View(store) == Initial(v, controls, entryPoint, guestRsp)
    requires ControlBits(controls, capabilities)
    ensures Started(store, capabilities, entryPoint, guestRsp)
  {
    hide V.View, V.Peek, ControlBits;
    V.Encodings(store);
  }

  /** `setup_vmcs`, as far as the run loop's fields go; the store holds anything after VMCLEAR. */
  method SetupVmcs(vmcs: V.Region, resolves: bool, capabilities: u64, entryPoint: u64, guestRsp: u64) returns (r: Result<()>)
    requires vmcs.Valid() && !vmcs.faulted
    modifies vmcs
    ensures vmcs.Valid() && (r.Err? <==> vmcs.faulted || !resolves)
    ensures r.Ok? ==> V.View(vmcs.store) == Initial(V.View(old(vmcs.store)), V.View(vmcs.store).controls, entryPoint, guestRsp)
    ensures r.Ok? ==> (WindowOn(V.View(vmcs.store).controls) <==> Forced(capabilities))
    ensures r.Ok? ==> Started(vmcs.store, capabilities, entryPoint, guestRsp)
  {
    hide V.Region.Valid, V.View, V.Peek, V.Fit, V.Limit, WindowOn, Forced, Started, Bit;
    V.Limits();
    ghost var asked: u64 := 0;
    // VMCLEAR and VMPTRLD
    r := vmcs.Activate();
    if r.Ok? {
      r := vmcs.Activate();
    }
    if r.Ok? && !resolves {
      r := Err(AllocationFailed);
    }
    if r.Ok? {
      var controls := AdjustControl(capabilities, PRIMARY_CONTROLS);
      AdjustedWindow(controls, capabilities);
      AdjustedBits(controls, capabilities);
      asked := controls;
      r := vmcs.Write(V.CONTROLS, controls);
    }
    if r.Ok? {
      r := vmcs.Write(V.ENTRY_INFO, 0);
    }
    if r.Ok? {
      r := SetupGuest(vmcs, entryPoint, guestRsp);
      if r.Ok? {
        StartedFields(vmcs.store, V.View(old(vmcs.store)), asked, capabilities, entryPoint, guestRsp);
      }
    }
  }

  method SetupGuest(vmcs: V.Region, entryPoint: u64, guestRsp: u64) returns (r: Result<()>)
    requires vmcs.Valid()
    modifies vmcs
    ensures vmcs.Valid() && vmcs.faulted == (old(vmcs.faulted) || r.Err?)
    ensures r.Ok? ==> V.View(vmcs.store) == GuestInitial(V.View(old(vmcs.store)), entryPoint, guestRsp)
  {
    hide V.Region.Valid, V.View, V.Peek, V.Fit, V.Limit;
    V.Limits();
    r := vmcs.Write(V.FS_BASE, 0);
    if r.Ok? {
      r := vmcs.Write(V.GS_BASE, 0);
    }
    if r.Ok? {
      r := vmcs.Write(V.EFER, EFER_BOOT);
    }
    if r.Ok? {
      r := vmcs.Write(V.RIP, entryPoint);
    }
    if r.Ok? {
      r := vmcs.Write(V.RSP, guestRsp);
    }
    if r.Ok? {
      r := vmcs.Write(V.RFLAGS, 2);
    }
    if r.Ok? {
      r := vmcs.Write(V.INTERRUPTIBILITY, 0);
    }
  }

  /** LME | LMA. */
  const EFER_BOOT: u64 := 0x500

  function GuestInitial(v: S.Vmcs, entryPoint: u64, guestRsp: u64): S.Vmcs {
    v.(rip := entryPoint, rsp := guestRsp, rflags := 2, interruptibility := 0, fsBase := 0, gsBase := 0, efer := EFER_BOOT)
  }

  function Initial(v: S.Vmcs, controls: u64, entryPoint: u64, guestRsp: u64): S.Vmcs {
    GuestInitial(v.(controls := controls, entryInfo := 0), entryPoint, guestRsp)
  }

  /** The processor insists on interrupt-window exiting: the control must and may be one. */
  predicate Forced(capabilities: u64) {
    Bit(capabilities % 0x1_0000_0000, 2) && Bit(capabilities / 0x1_0000_0000, 2)
  }

  lemma AdjustedWindow(controls: nat, capabilities: u64)
    requires forall k :: Bit(controls, k) <==>
               (Bit(PRIMARY_CONTROLS, k) || Bit(capabilities % 0x1_0000_0000, k)) && Bit(capabilities / 0x1_0000_0000, k)
    ensures WindowOn(controls) <==> Forced(capabilities)
  {
    BitTwo(controls);
    BitTwo(PRIMARY_CONTROLS);
  }

  /** `setup_vmxon`: a VMXON that fails is forgiven if the core is in VMX operation already. */
  method EnableVmx(vmcs: V.Region, vmxon: bool) returns (r: Result<()>)
    requires vmcs.Valid() && !vmcs.faulted
    modifies vmcs`count, vmcs`faulted
    ensures vmcs.Valid() && (vmcs.faulted ==> r.Err?)
    ensures r.Ok? <==> vmxon || (!vmcs.faulted && V.Peek(vmcs.store, 0x4400) == 15)
    ensures r.Err? ==> r.error == VMCLEARFailed
  {
    hide V.Region.Valid, V.Peek;
    if vmxon {
      return Ok(());
    }
    var error := vmcs.Read(V.INSTRUCTION_ERROR);
    r := if error == Ok(VMXON_IN_ROOT) then Ok(()) else Err(VMCLEARFailed);
  }

  const VMXON_IN_ROOT: u64 := 15

  /** `new`: the virtual-APIC page is allocated and resolved, VMX enabled and the VMCS set up, or
      the first failure is reported. Then nothing is pending, no event is left over, and the vCPU
      is ready for its first run exactly when the processor lets interrupt-window exiting be off. */
  method New(vmcs: V.Region, page: bool, resolves: bool, vmxon: bool, capabilities: u64, scale: nat, cpuId: u64,
             entryPoint: u64, guestRsp: u64, initialFp: Fp)
      returns (r: Result<VmxCpu>)
    requires vmcs.Valid() && !vmcs.faulted
    modifies vmcs
    ensures vmcs.Valid() && (vmcs.faulted ==> r.Err?)
    ensures r.Ok? ==> page && resolves && (vmxon || V.Peek(old(vmcs.store), 0x4400) == 15)
    ensures r.Err? ==> vmcs.faulted || !page || !resolves || !vmxon
    ensures r.Ok? ==> fresh(r.value) && r.value.vmcs == vmcs && r.value.timer == RESET && r.value.pending.None?
    ensures r.Ok? ==> Started(vmcs.store, capabilities, entryPoint, guestRsp)
    ensures r.Ok? ==> (R.Quiet(r.value.State()) <==> !Forced(capabilities))
    ensures r.Ok? ==> r.value.regs == GuestRegisters(ZERO_GPRS.(rdi := 0x9000, rsi := cpuId), entryPoint, guestRsp, 2)
  {
    hide V.Region.Valid, V.View, V.Peek, WindowOn, Forced, Started;
    if !page {
      return Err(AllocationFailed);
    }
    var enabled := EnableVmx(vmcs, vmxon);
    if enabled.Err? {
      return Err(enabled.error);
    }
    var setup := SetupVmcs(vmcs, resolves, capabilities, entryPoint, guestRsp);
    if setup.Err? {
      return Err(setup.error);
    }
    var cpu := new VmxCpu(vmcs, scale, cpuId, entryPoint, guestRsp, initialFp);
    r := Ok(cpu);
  }

  lemma Refusal(store: V.Store, r: RawRound)
    requires r.Refused?
    ensures V.View(V.Poke(store, V.INSTRUCTION_ERROR, r.error)) == V.View(store)
    ensures V.Peek(V.Poke(store, V.INSTRUCTION_ERROR, r.error), V.INSTRUCTION_ERROR) == r.error
  {
    V.Limits();
    hide V.Peek, V.Poke, V.Limit, V.View, V.Fit;
    V.PokeIsUpdate(store, V.INSTRUCTION_ERROR, r.error);
    V.PeekPoke(store, V.INSTRUCTION_ERROR, r.error, V.INSTRUCTION_ERROR);
  }

  lemma LengthStays(store: V.Store, value: u64)
    ensures Word32(V.Poke(store, V.FS_BASE, value), V.INSTRUCTION_LENGTH) == Word32(store, V.INSTRUCTION_LENGTH)
    ensures Word32(V.Poke(store, V.GS_BASE, value), V.INSTRUCTION_LENGTH) == Word32(store, V.INSTRUCTION_LENGTH)
    ensures Word32(V.Poke(store, V.EFER, value), V.INSTRUCTION_LENGTH) == Word32(store, V.INSTRUCTION_LENGTH)
  {
    hide V.Peek, V.Poke;
    V.PeekPoke(store, V.FS_BASE, value, V.INSTRUCTION_LENGTH);
    V.PeekPoke(store, V.GS_BASE, value, V.INSTRUCTION_LENGTH);
    V.PeekPoke(store, V.EFER, value, V.INSTRUCTION_LENGTH);
  }

  /** The fields of the record are the VMREADs of their encodings. */
  lemma ViewReads(store: V.Store)
    ensures var v := V.View(store);
            && v.rflags == V.Peek(store, V.RFLAGS) && v.interruptibility == V.Peek(store, V.INTERRUPTIBILITY)
            && v.rip == V.Peek(store, V.RIP) && v.rsp == V.Peek(store, V.RSP)
            && v.fsBase == V.Peek(store, V.FS_BASE) && v.gsBase == V.Peek(store, V.GS_BASE)
            && v.efer == V.Peek(store, V.EFER) && v.controls == V.Peek(store, V.CONTROLS)
  {
  }

  lemma WriteMsrKeepsRegs(c: S.Cpu, index: u32, value: u64, now: u64)
    ensures S.WriteMsr(c, index, value, now).regs == c.regs
    ensures S.WriteMsr(c, index, value, now).pending == c.pending
  {
  }
}
