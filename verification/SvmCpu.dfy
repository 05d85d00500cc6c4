/** The AMD-V backend of a virtual CPU: the code of `SvmCpu`, working on the bytes of
    the control block, proved to compute the functions of `SvmSpec`. */
module SvmCpu {
  import opened Bits
  import opened Options
  import opened Words
  import opened Registers
  import opened ApicTimer
  import opened Backend
  import opened SvmSpec
  import opened SvmStart
  import V = Vmcb
  import R = SvmRun

  class SvmCpu {
    const vmcb: V.Vmcb
    var regs: GuestRegisters
    var timer: ApicTimer
    var pending: Option<u8>
    var guestFpu: Fp
    var hostFpu: Fp

    ghost function State(): Cpu
      requires vmcb.Valid()
      reads this, vmcb.data
    {
      SvmSpec.Cpu(regs, timer, pending, vmcb.Record(), guestFpu)
    }

    /** The boot-info pointer goes in RDI, the CPU's number in RSI. */
    constructor (vmcb: V.Vmcb, cpuId: u64, entryPoint: u64, guestRsp: u64, initialFp: Fp)
      ensures this.vmcb == vmcb && vmcb.data[..] == old(vmcb.data[..])
      ensures timer == RESET && pending == None && guestFpu == initialFp
      ensures regs == GuestRegisters(ZERO_GPRS.(rdi := 0x9000, rsi := cpuId), entryPoint, guestRsp, 2)
    {
      regs := GuestRegisters(ZERO_GPRS.(rdi := 0x9000, rsi := cpuId), entryPoint, guestRsp, 2);
      this.vmcb := vmcb;
      timer, pending := RESET, None;
      guestFpu, hostFpu := initialFp, [];
    }

    method ReadField(f: V.Field) returns (v: u64)
      requires vmcb.Valid() && V.Width(f) == 8
      ensures v == Field(vmcb.Record(), f)
    {
      hide V.At, V.View;
      v := vmcb.ReadU64(f);
    }

    method ServiceTimer(now: u64)
      requires vmcb.Valid()
      modifies this`timer, this`pending
      ensures State() == Service(old(State()), now)
    {
      if timer.deadline.None? || now < timer.deadline.value {
        return;
      }
      var deadline := timer.deadline.value;
      timer := timer.(deadline := None);
      if !timer.masked {
        pending := Some(timer.vector);
      }
      if timer.period.Some? {
        timer := timer.(deadline := Some(SaturatingAdd(deadline, timer.period.value)));
      }
    }

    method InjectPending()
      requires vmcb.Valid()
      modifies this`pending, vmcb.data
      ensures State() == Inject(old(State()))
    {
      hide And, V.View;
      var intState := ReadField(V.IntState);
      if pending.Some? && And(regs.rflags, RFLAGS_IF) != 0 && And(intState, 1) == 0 {
        vmcb.WriteU64(V.EventInj, EventWord(pending.value));
        pending := None;
      } else {
        vmcb.WriteU64(V.EventInj, 0);
      }
    }

    /** The writes that precede every VMRUN. */
    method MirrorRegisters()
      requires vmcb.Valid()
      modifies vmcb.data
      ensures State() == Mirror(old(State()))
    {
      hide V.View, V.Offset;
      vmcb.WriteU64(V.Rax, regs.gprs.rax);
      vmcb.WriteU64(V.Rip, regs.rip);
      vmcb.WriteU64(V.Rsp, regs.rsp);
      vmcb.WriteU64(V.Rflags, regs.rflags);
    }

    method ReadMsr(index: u32) returns (v: u64)
      requires vmcb.Valid()
      ensures v == SvmSpec.ReadMsr(State(), index)
    {
      hide Field, V.View;
      if index == IA32_FS_BASE {
        v := ReadField(V.FS_BASE);
      } else if index == IA32_GS_BASE {
        v := ReadField(V.GS_BASE);
      } else if index == IA32_EFER {
        var efer := ReadField(V.Efer);
        v := HideSvme(efer);
      } else if index == IA32_TSC_DEADLINE {
        v := ReadDeadline(timer);
      } else {
        v := 0;
      }
    }

    method WriteMsr(index: u32, value: u64, now: u64)
      requires vmcb.Valid()
      modifies this`timer, vmcb.data
      ensures State() == SvmSpec.WriteMsr(old(State()), index, value, now)
    {
      if index == IA32_FS_BASE {
        vmcb.WriteU64(V.FS_BASE, value);
      } else if index == IA32_GS_BASE {
        vmcb.WriteU64(V.GS_BASE, value);
      } else if index == IA32_EFER {
        vmcb.WriteU64(V.Efer, ForceSvme(value));
      } else if index == IA32_X2APIC_LVT_TIMER || index == IA32_TSC_DEADLINE || index == IA32_X2APIC_INIT_COUNT {
        timer := ProgramTimer(timer, index, value, now);
      }
    }

    /** VMRUN and the trampoline around it, as the guest of round `r` leaves things: the
        control block is rewritten, and every register of the block but RAX. */
    method RunSvmVm(r: Round)
      requires vmcb.Valid()
      modifies this`regs, vmcb.data
      ensures vmcb.data[..] == r.page
      ensures regs == old(regs).(gprs := AfterSvm(old(regs.gprs), r.gprs))
    {
      regs := regs.(gprs := r.gprs.(rax := regs.gprs.rax));
      forall i | 0 <= i < V.SIZE {
        vmcb.data[i] := r.page[i];
      }
    }

    /** Mirrors RAX, RIP, RSP and RFLAGS back into the cache. */
    method RefreshRegisters(r: Round)
      requires vmcb.Valid() && vmcb.data[..] == r.page
      modifies this`regs
      ensures regs == GuestRegisters(old(regs.gprs).(rax := Field(vmcb.Record(), V.Rax)), Field(vmcb.Record(), V.Rip),
                                     Field(vmcb.Record(), V.Rsp), Field(vmcb.Record(), V.Rflags))
    {
      hide Field, V.View;
      var rax := ReadField(V.Rax);
      var rip := ReadField(V.Rip);
      var rsp := ReadField(V.Rsp);
      var rflags := ReadField(V.Rflags);
      regs := GuestRegisters(regs.gprs.(rax := rax), rip, rsp, rflags);
    }

    method HandleMsr(r: Round)
      requires vmcb.Valid()
      modifies this`timer, this`regs, vmcb.data
      ensures State() == EmulateMsr(old(State()), r)
    {
      hide Field, V.View, And, SvmSpec.ReadMsr, SvmSpec.WriteMsr;
      var info := ReadField(V.ExitInfo1);
      var index := Index(regs);
      if And(info, 1) != 0 {
        WriteMsrKeepsRegs(State(), index, Join(regs.gprs.rdx, regs.gprs.rax), r.later);
        WriteMsr(index, Join(regs.gprs.rdx, regs.gprs.rax), r.later);
      } else {
        var value := ReadMsr(index);
        Low32(value, 0);
        regs := regs.(gprs := regs.gprs.(rax := And(value, LOW32), rdx := value / 0x1_0000_0000));
      }
      regs := Skip(regs, 2);
    }

    method HandleIo() returns (q: u64)
      requires vmcb.Valid()
      modifies this`regs
      ensures State() == old(State()).(regs := old(regs).(rip := Field(old(vmcb.Record()), V.ExitInfo2)))
      ensures q == IoQualification(old(State()))
    {
      hide Field, V.View, And, Qualification;
      var info1 := ReadField(V.ExitInfo1);
      q := Qualification(info1 / 0x1_0000 % 0x1_0000, And(info1, 1) != 0);
      var next := ReadField(V.ExitInfo2);
      regs := regs.(rip := next);
    }

    /** The dispatch on the exit code. */
    method HandleExit(r: Round) returns (res: Result<ExitReason>)
      requires vmcb.Valid()
      modifies this`timer, this`regs, vmcb.data
      ensures (State(), res) == Emulate(old(State()), r)
    {
      hide Field, V.View, EmulateMsr, IoQualification;
      var code := ReadField(V.ExitCode);
      if code == EXIT_INTR {
        res := Ok(Success);
      } else if code == EXIT_PAUSE {
        regs := Skip(regs, 2);
        res := Ok(Success);
      } else if code == EXIT_HLT {
        regs := Skip(regs, 1);
        res := Ok(Success);
      } else if code == EXIT_CPUID {
        regs := regs.(gprs := regs.gprs.(rax := r.cpuid.eax, rbx := r.cpuid.ebx, rcx := r.cpuid.ecx, rdx := r.cpuid.edx));
        regs := Skip(regs, 2);
        res := Ok(Success);
      } else if code == EXIT_MSR {
        HandleMsr(r);
        res := Ok(Success);
      } else if code == EXIT_XSETBV {
        regs := Skip(regs, 3);
        res := Ok(Success);
      } else if code == EXIT_IOIO {
        var q := HandleIo();
        res := Ok(IoInstruction(q));
      } else if code == EXIT_SHUTDOWN {
        res := Ok(Shutdown);
      } else if code == EXIT_INVALID {
        res := Err(VMEntryFailed(0));
      } else {
        res := Err(UnknownVMExitReason);
      }
    }

    /** `run`. The host's FP registers, `live`, are put back as they were found. */
    method Run(r: Round, live: Fp) returns (res: Result<ExitReason>, live': Fp, ghost entered: Cpu)
      requires vmcb.Valid()
      modifies this, vmcb.data
      ensures entered == Prepare(old(State()), r.now)
      ensures (State(), res) == Step(old(State()), r)
      ensures live' == live
    {
      hide Field, V.View, Mirror, Service, Inject, Emulate;
      MirrorRegisters();
      ServiceTimer(r.now);
      InjectPending();
      entered := State();
      // host_fpu.save(); guest_fpu.restore()
      hostFpu := live;
      live' := guestFpu;
      // The guest runs, and leaves its own FP state live.
      RunSvmVm(r);
      live' := r.fp;
      // guest_fpu.save(); host_fpu.restore()
      guestFpu := live';
      live' := hostFpu;
      RefreshRegisters(r);
      res := HandleExit(r);
    }
  }

  /** Turns of the vCPU loop, one after the other: the runs of `SvmRun` are what the code does. */
  method RunTurns(cpu: SvmCpu, turns: seq<R.Turn>, live: Fp) returns (live': Fp)
    requires cpu.vmcb.Valid()
    modifies cpu, cpu.vmcb.data
    ensures cpu.State() == R.After(old(cpu.State()), turns)
    ensures live' == live
  {
    hide Step, Prepare, V.View, AfterIo;
    live' := live;
    ghost var c := cpu.State();
    assert turns[..0] == [];
    for i := 0 to |turns|
      invariant cpu.State() == R.After(c, turns[..i]) && live' == live
    {
      assert turns[..i + 1][..i] == turns[..i] && turns[..i + 1][i] == turns[i];
      var res;
      ghost var entered;
      res, live', entered := cpu.Run(turns[i].round, live');
      cpu.regs := AfterIo(cpu.regs, res, turns[i].input);
    }
    assert turns[..|turns|] == turns;
  }

  /** The control block of a new CPU. */
  method NewVmcb(ncr3: u64, iopm: u64, msrpm: u64, entryPoint: u64, guestRsp: u64) returns (vmcb: V.Vmcb)
    ensures fresh(vmcb) && vmcb.Valid()
    ensures Start(vmcb.data[..], ncr3, iopm, msrpm, entryPoint, guestRsp)
  {
    hide V.View, V.RunRegisters, V.ControlRegisters, V.Segments, V.Controls, V.At, Start;
    vmcb := new V.Vmcb();
    ghost var r := vmcb.Record();
    vmcb.SetupControl(ncr3, iopm, msrpm);
    vmcb.SetupGuest(entryPoint, guestRsp);
    InitialStarts(vmcb.data[..], r, ncr3, iopm, msrpm, entryPoint, guestRsp);
  }

  /** A permission map: not allocated, or with an address that the host may or may not resolve. */
  datatype Bitmap = Missing | Allocated(address: Option<u64>)

  /** `new`: it succeeds exactly when the two permission maps can be allocated and every address
      resolves, and then gives a vCPU that `SvmRun.AlwaysRunnable`, `Deliveries` and
      `InjectedIsProgrammed` are about. `resolved` says so of the two VMCBs and the save area. */
  method New(ncr3: u64, iopm: Bitmap, msrpm: Bitmap, resolved: bool, cpuId: u64, entryPoint: u64, guestRsp: u64, initialFp: Fp)
      returns (r: Result<SvmCpu>)
    ensures r.Ok? <==> iopm.Allocated? && iopm.address.Some? && msrpm.Allocated? && msrpm.address.Some? && resolved
    ensures r.Err? ==> r.error == AllocationFailed
    ensures r.Ok? ==> fresh(r.value) && fresh(r.value.vmcb) && r.value.vmcb.Valid()
    ensures r.Ok? ==> Start(r.value.vmcb.data[..], ncr3, iopm.address.value, msrpm.address.value, entryPoint, guestRsp)
    ensures r.Ok? ==> r.value.timer == RESET && r.value.pending == None && r.value.guestFpu == initialFp
    ensures r.Ok? ==> r.value.regs == GuestRegisters(ZERO_GPRS.(rdi := 0x9000, rsi := cpuId), entryPoint, guestRsp, 2)
  {
    hide Start;
    if iopm.Missing? || msrpm.Missing? || !resolved || iopm.address.None? || msrpm.address.None? {
      return Err(AllocationFailed);
    }
    var vmcb := NewVmcb(ncr3, iopm.address.value, msrpm.address.value, entryPoint, guestRsp);
    var cpu := new SvmCpu(vmcb, cpuId, entryPoint, guestRsp, initialFp);
    r := Ok(cpu);
  }

  lemma WriteMsrKeepsRegs(c: Cpu, index: u32, value: u64, now: u64)
    ensures SvmSpec.WriteMsr(c, index, value, now).regs == c.regs
    ensures SvmSpec.WriteMsr(c, index, value, now).pending == c.pending
  {
  }
}
