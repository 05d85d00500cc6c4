/** One round of the Intel VT-x backend as a function. The timer is raised by the
    VMX-preemption timer, and a vector that the guest cannot take yet is retried
    after an interrupt-window exit. */
module VmxSpec {
  import opened Bits
  import opened Options
  import opened Words
  import opened Registers
  import opened ApicTimer
  import opened Backend

  const EXIT_EXTERNAL_INTERRUPT: u32 := 1
  const EXIT_TRIPLE_FAULT: u32 := 2
  const EXIT_INTERRUPT_WINDOW: u32 := 7
  const EXIT_CPUID: u32 := 10
  const EXIT_IO: u32 := 30
  const EXIT_RDMSR: u32 := 31
  const EXIT_WRMSR: u32 := 32
  const EXIT_PREEMPTION_TIMER: u32 := 52
  const EXIT_XSETBV: u32 := 55

  /** The VMCS fields the run loop reads and writes. */
  datatype Vmcs = Vmcs(rip: u64, rsp: u64, rflags: u64, interruptibility: u64, entryInfo: u64, controls: u64,
                       preemptionTimer: u64, fsBase: u64, gsBase: u64, efer: u64)

  datatype Cpu = Cpu(regs: GuestRegisters, timer: ApicTimer, pending: Option<u8>, vmcs: Vmcs, scale: nat, guestFp: Fp)

  /** What happens around one VM-entry: the clock when the preemption timer is armed, and then
      either a VM-entry that fails, or a guest that is entered at `entry` and exits at `exit`. */
  datatype Round =
    | Refused(now: u64, error: u32, fp: Fp)
    | Exited(now: u64, gprs: Gprs, vmcs: Vmcs, fp: Fp, reason: u32, qualification: u64, length: u32, later: u64,
             cpuid: CpuidResult, entry: u64, exit: u64)

  // --- Before VM-entry ------------------------------------------------------------------

  /** `load_guest_registers`. */
  function Load(c: Cpu): Cpu {
    c.(vmcs := c.vmcs.(rip := c.regs.rip, rsp := c.regs.rsp, rflags := c.regs.rflags))
  }

  predicate Accepts(v: Vmcs) {
    And(v.rflags, RFLAGS_IF) != 0 && And(v.interruptibility, 3) == 0
  }

  function WithWindow(v: Vmcs, enable: bool): Vmcs {
    v.(controls := SetWindow(v.controls, enable))
  }

  /** `inject_pending`. */
  function Inject(c: Cpu): Cpu {
    if c.pending.None? then c
    else if Accepts(c.vmcs) then
      c.(vmcs := WithWindow(c.vmcs.(entryInfo := EventWord(c.pending.value)), false), pending := None)
    else c.(vmcs := WithWindow(c.vmcs, true))
  }

  function SaturatingSub(a: u64, b: u64): u64 {
    if a < b then 0 else a - b
  }

  /** The value `arm_preemption_timer` programs; the timer counts once every 2^scale
      ticks of the TSC. */
  function Armed(t: ApicTimer, now: u64, scale: nat): u64 {
    match t.deadline
    case None => 0xFFFF_FFFF
    case Some(d) => Min(Shr(SaturatingSub(d, now), scale), 0xFFFF_FFFF)
  }

  function Arm(c: Cpu, now: u64): Cpu {
    c.(vmcs := c.vmcs.(preemptionTimer := Armed(c.timer, now, c.scale)))
  }

  /** The state in which VMLAUNCH or VMRESUME executes. */
  function Prepare(c: Cpu, now: u64): Cpu {
    Arm(Inject(Load(c)), now)
  }

  // --- After the exit ------------------------------------------------------------------

  /** `save_guest_registers`. */
  function Refreshed(regs: GuestRegisters, v: Vmcs): GuestRegisters {
    GuestRegisters(regs.gprs, v.rip, v.rsp, v.rflags)
  }

  function Leave(c: Cpu, r: Round): Cpu
    requires r.Exited?
  {
    c.(regs := Refreshed(c.regs.(gprs := r.gprs), r.vmcs), vmcs := r.vmcs, guestFp := r.fp)
  }

  function ReadMsr(c: Cpu, index: u32): u64 {
    if index == IA32_FS_BASE then c.vmcs.fsBase
    else if index == IA32_GS_BASE then c.vmcs.gsBase
    else if index == IA32_EFER then c.vmcs.efer
    else if index == IA32_TSC_DEADLINE then ReadDeadline(c.timer)
    else 0
  }

  function WriteMsr(c: Cpu, index: u32, value: u64, now: u64): Cpu {
    if index == IA32_FS_BASE then c.(vmcs := c.vmcs.(fsBase := value))
    else if index == IA32_GS_BASE then c.(vmcs := c.vmcs.(gsBase := value))
    else if index == IA32_EFER then c.(vmcs := c.vmcs.(efer := value))
    else if index == IA32_X2APIC_LVT_TIMER || index == IA32_TSC_DEADLINE || index == IA32_X2APIC_INIT_COUNT then
      c.(timer := WriteTimer(c.timer, index, value, now))
    else c
  }

  /** An MSR's value in EDX:EAX. */
  function SplitInto(regs: GuestRegisters, v: u64): GuestRegisters {
    regs.(gprs := regs.gprs.(rax := v % 0x1_0000_0000, rdx := v / 0x1_0000_0000))
  }

  /** The preemption timer ran out: the armed deadline, if any, has elapsed. */
  function Expired(c: Cpu): Cpu {
    if c.timer.deadline.None? then c
    else c.(timer := Expire(c.timer), pending := if c.timer.masked then c.pending else Some(c.timer.vector))
  }

  function Emulate(c: Cpu, r: Round): (Cpu, Result<ExitReason>)
    requires r.Exited?
  {
    var g := c.regs.gprs;
    var reason := r.reason % 0x1_0000;
    if reason == EXIT_EXTERNAL_INTERRUPT || reason == EXIT_INTERRUPT_WINDOW then (c, Ok(Success))
    else if reason == EXIT_RDMSR then
      (c.(regs := Skip(SplitInto(c.regs, ReadMsr(c, Index(c.regs))), r.length)), Ok(Success))
    else if reason == EXIT_WRMSR then
      var c' := WriteMsr(c, Index(c.regs), Join(g.rdx, g.rax), r.later);
      (c'.(regs := Skip(c'.regs, r.length)), Ok(Success))
    else if reason == EXIT_CPUID then
      var g' := g.(rax := r.cpuid.eax, rbx := r.cpuid.ebx, rcx := r.cpuid.ecx, rdx := r.cpuid.edx);
      (c.(regs := Skip(c.regs.(gprs := g'), r.length)), Ok(Success))
    else if reason == EXIT_XSETBV then (c.(regs := Skip(c.regs, r.length)), Ok(Success))
    else if reason == EXIT_IO then (c.(regs := Skip(c.regs, r.length)), Ok(IoInstruction(r.qualification)))
    else if reason == EXIT_PREEMPTION_TIMER then (Expired(c), Ok(Success))
    else if reason == EXIT_TRIPLE_FAULT then (c, Ok(Shutdown))
    else (c, Err(UnknownVMExitReason))
  }

  /** `run`. */
  function Step(c: Cpu, r: Round): (Cpu, Result<ExitReason>) {
    var p := Prepare(c, r.now);
    if r.Refused? then (p.(guestFp := r.fp), Err(VMEntryFailed(r.error))) else Emulate(Leave(p, r), r)
  }

  // --- The preemption timer ---------------------------------------------------------------

  lemma ProductLe(c: nat, a: nat, b: nat)
    requires 0 < c && a <= b
    ensures c * a <= c * b
  {
    if a < b {
      ProductGrows(c, a, b);
    }
  }

  lemma Clamped(x: nat, c: nat, m: nat)
    requires 0 < c
    ensures var v := Min(x / c, m); c * v <= x && (x < c * (m + 1) <==> x - c * v < c)
  {
    var q, r := x / c, x % c;
    assert x == c * q + r;
    if q <= m {
      ProductLe(c, q + 1, m + 1);
      assert c * (q + 1) == c * q + c;
    } else {
      ProductLe(c, m + 1, q);
      assert c * (m + 1) == c * m + c;
    }
  }

  /** Counted out from `now`, the programmed value never overshoots the deadline, fits the
      32-bit field, and falls short by less than one count exactly when it is not clamped. */
  lemma ArmedBound(t: ApicTimer, now: u64, scale: nat, c: nat)
    requires t.deadline.Some? && Ones(scale) + 1 == c
    ensures var v := Armed(t, now, scale);
            var remaining := SaturatingSub(t.deadline.value, now);
            && v < 0x1_0000_0000 && c * v <= remaining
            && (remaining < c * 0x1_0000_0000 <==> remaining - c * v < c)
  {
    hide Shr, Ones;
    var remaining := SaturatingSub(t.deadline.value, now);
    Arithmetic(remaining, scale, c);
    Clamped(remaining, c, 0xFFFF_FFFF);
  }

  /** When the preemption timer runs out: it counts down once each time bit `scale` of the TSC
      changes, that is at every multiple of `w`, the value of that bit. */
  function Fires(entry: nat, v: nat, w: nat): int
    requires 0 < w
  {
    if v == 0 then entry else entry - entry % w + w * v
  }
}
