/** One round of the AMD-V backend as a function: prepare the control block, let the
    guest run, take its state back, emulate the exit. The guest and the processor
    are arbitrary: a `Round` is whatever they did. */
module SvmSpec {
  import opened Bits
  import opened Options
  import opened Words
  import opened Registers
  import opened ApicTimer
  import opened Backend
  import V = Vmcb

  const EXIT_INTR: u64 := 0x60
  const EXIT_CPUID: u64 := 0x72
  const EXIT_PAUSE: u64 := 0x77
  const EXIT_HLT: u64 := 0x78
  const EXIT_IOIO: u64 := 0x7B
  const EXIT_MSR: u64 := 0x7C
  const EXIT_SHUTDOWN: u64 := 0x7F
  const EXIT_XSETBV: u64 := 0x8D
  const EXIT_INVALID: u64 := 0xFFFF_FFFF_FFFF_FFFF

  /** The state a virtual CPU keeps between runs. */
  datatype Cpu = Cpu(regs: GuestRegisters, timer: ApicTimer, pending: Option<u8>, vmcb: V.Record, guestFp: Fp)

  /** A 64-bit field of the control block. */
  ghost function Field(r: V.Record, f: V.Field): u64 {
    V.At(r, f) % WORD
  }

  /** What happens around one VMRUN: the clock before it, the control block, registers
      and FP state the guest leaves, and what the host's clock and CPUID then say. */
  datatype Round = Round(now: u64, page: V.Page, gprs: Gprs, fp: Fp, later: u64, cpuid: CpuidResult)

  // --- Before VMRUN ------------------------------------------------------------------

  /** The cached registers as the control block must hold them. */
  ghost function Mirror(c: Cpu): Cpu {
    c.(vmcb := c.vmcb[V.Rax := c.regs.gprs.rax][V.Rip := c.regs.rip][V.Rsp := c.regs.rsp][V.Rflags := c.regs.rflags])
  }

  predicate Elapsed(t: ApicTimer, now: u64) {
    t.deadline.Some? && t.deadline.value <= now
  }

  /** `service_timer`. */
  ghost function Service(c: Cpu, now: u64): Cpu {
    if !Elapsed(c.timer, now) then c
    else c.(timer := Expire(c.timer), pending := if c.timer.masked then c.pending else Some(c.timer.vector))
  }

  ghost predicate Interruptible(c: Cpu) {
    And(c.regs.rflags, RFLAGS_IF) != 0 && And(Field(c.vmcb, V.IntState), 1) == 0
  }

  /** `inject_pending`. */
  ghost function Inject(c: Cpu): Cpu {
    if c.pending.Some? && Interruptible(c) then
      c.(vmcb := c.vmcb[V.EventInj := EventWord(c.pending.value)], pending := None)
    else c.(vmcb := c.vmcb[V.EventInj := 0])
  }

  /** The state in which VMRUN executes. */
  ghost function Prepare(c: Cpu, now: u64): Cpu {
    Inject(Service(Mirror(c), now))
  }

  // --- After VMRUN --------------------------------------------------------------------

  /** The state taken back from the guest: RAX, RIP, RSP and RFLAGS from the control
      block, the other registers from the trampoline. */
  ghost function Leave(c: Cpu, r: Round): Cpu {
    var c' := c.(vmcb := V.View(r.page), guestFp := r.fp);
    c'.(regs := GuestRegisters(r.gprs.(rax := Field(c'.vmcb, V.Rax)), Field(c'.vmcb, V.Rip), Field(c'.vmcb, V.Rsp),
                               Field(c'.vmcb, V.Rflags)))
  }

  ghost function ReadMsr(c: Cpu, index: u32): u64 {
    if index == IA32_FS_BASE then Field(c.vmcb, V.FS_BASE)
    else if index == IA32_GS_BASE then Field(c.vmcb, V.GS_BASE)
    else if index == IA32_EFER then HideSvme(Field(c.vmcb, V.Efer))
    else if index == IA32_TSC_DEADLINE then ReadDeadline(c.timer)
    else 0
  }

  ghost function WriteMsr(c: Cpu, index: u32, value: u64, now: u64): Cpu {
    if index == IA32_FS_BASE then c.(vmcb := c.vmcb[V.FS_BASE := value])
    else if index == IA32_GS_BASE then c.(vmcb := c.vmcb[V.GS_BASE := value])
    else if index == IA32_EFER then c.(vmcb := c.vmcb[V.Efer := ForceSvme(value)])
    else if index == IA32_X2APIC_LVT_TIMER || index == IA32_TSC_DEADLINE || index == IA32_X2APIC_INIT_COUNT then
      c.(timer := WriteTimer(c.timer, index, value, now))
    else c
  }

  /** RDMSR and WRMSR. */
  ghost function EmulateMsr(c: Cpu, r: Round): Cpu {
    var g := c.regs.gprs;
    if And(Field(c.vmcb, V.ExitInfo1), 1) != 0 then
      var c' := WriteMsr(c, Index(c.regs), Join(g.rdx, g.rax), r.later);
      c'.(regs := Skip(c'.regs, 2))
    else
      var v := ReadMsr(c, Index(c.regs));
      c.(regs := Skip(c.regs.(gprs := g.(rax := v % 0x1_0000_0000, rdx := v / 0x1_0000_0000)), 2))
  }

  /** The port and direction the processor reports for an I/O exit. */
  ghost function IoQualification(c: Cpu): u64 {
    Qualification(Field(c.vmcb, V.ExitInfo1) / 0x1_0000 % 0x1_0000, And(Field(c.vmcb, V.ExitInfo1), 1) != 0)
  }

  ghost function Emulate(c: Cpu, r: Round): (Cpu, Result<ExitReason>) {
    var code := Field(c.vmcb, V.ExitCode);
    if code == EXIT_INTR then (c, Ok(Success))
    else if code == EXIT_PAUSE then (c.(regs := Skip(c.regs, 2)), Ok(Success))
    else if code == EXIT_HLT then (c.(regs := Skip(c.regs, 1)), Ok(Success))
    else if code == EXIT_CPUID then
      var g := c.regs.gprs.(rax := r.cpuid.eax, rbx := r.cpuid.ebx, rcx := r.cpuid.ecx, rdx := r.cpuid.edx);
      (c.(regs := Skip(c.regs.(gprs := g), 2)), Ok(Success))
    else if code == EXIT_MSR then (EmulateMsr(c, r), Ok(Success))
    else if code == EXIT_XSETBV then (c.(regs := Skip(c.regs, 3)), Ok(Success))
    else if code == EXIT_IOIO then
      (c.(regs := c.regs.(rip := Field(c.vmcb, V.ExitInfo2))), Ok(IoInstruction(IoQualification(c))))
    else if code == EXIT_SHUTDOWN then (c, Ok(Shutdown))
    else if code == EXIT_INVALID then (c, Err(VMEntryFailed(0)))
    else (c, Err(UnknownVMExitReason))
  }

  /** `run`: one entry, one exit. */
  ghost function Step(c: Cpu, r: Round): (Cpu, Result<ExitReason>) {
    Emulate(Leave(Prepare(c, r.now), r), r)
  }
}
