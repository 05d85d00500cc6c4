/** What both virtualization backends share: the exits they report, and the pieces of
    exit emulation that do not depend on the control structure. */
module Backend {
  import opened Bits
  import opened Options
  import opened Words
  import opened Registers
  import opened ApicTimer

  /** The extended FP register file, as XSAVE lays it out. */
  type Fp = seq<u8>

  const IA32_EFER: u32 := 0xC000_0080
  const IA32_FS_BASE: u32 := 0xC000_0100
  const IA32_GS_BASE: u32 := 0xC000_0101

  datatype ExitReason = Success | IoInstruction(q: u64) | Shutdown

  datatype CpuidResult = CpuidResult(eax: u32, ebx: u32, ecx: u32, edx: u32)

  /** Advances past an instruction of `n` bytes. */
  function Skip(regs: GuestRegisters, n: u64): GuestRegisters {
    regs.(rip := Add64(regs.rip, n))
  }

  /** The MSR an RDMSR or WRMSR names. */
  function Index(regs: GuestRegisters): u32 {
    regs.gprs.rcx % 0x1_0000_0000
  }

  /** What the AMD-V trampoline leaves in the register block: the guest's registers, except that
      RAX travels in the control block. */
  function AfterSvm(block: Gprs, guest: Gprs): Gprs {
    guest.(rax := block.rax)
  }

  /** What the vCPU loop does to the registers after an exit. */
  function AfterIo(regs: GuestRegisters, res: Result<ExitReason>, input: u8): GuestRegisters {
    if res.Ok? && res.value.IoInstruction? && IsIn(res.value.q) then
      regs.(gprs := regs.gprs.(rax := SetLowByte(regs.gprs.rax, input)))
    else regs
  }
}
