/** The guest register block shared by both backends. */
module Registers {
  import opened Bits

  datatype Reg = RAX | RBX | RCX | RDX | RDI | RSI | RBP | R8 | R9 | R10 | R11 | R12 | R13 | R14 | R15

  /** The general-purpose registers held in the block. */
  datatype Gprs = Gprs(rax: u64, rbx: u64, rcx: u64, rdx: u64, rdi: u64, rsi: u64, rbp: u64,
                       r8: u64, r9: u64, r10: u64, r11: u64, r12: u64, r13: u64, r14: u64, r15: u64) {
    function Get(r: Reg): u64 {
      match r
      case RAX => rax case RBX => rbx case RCX => rcx case RDX => rdx case RDI => rdi
      case RSI => rsi case RBP => rbp case R8 => r8 case R9 => r9 case R10 => r10
      case R11 => r11 case R12 => r12 case R13 => r13 case R14 => r14 case R15 => r15
    }

    function Set(r: Reg, v: u64): (g: Gprs)
      ensures forall q :: g.Get(q) == if q == r then v else Get(q)
    {
      match r
      case RAX => this.(rax := v) case RBX => this.(rbx := v) case RCX => this.(rcx := v)
      case RDX => this.(rdx := v) case RDI => this.(rdi := v) case RSI => this.(rsi := v)
      case RBP => this.(rbp := v) case R8 => this.(r8 := v) case R9 => this.(r9 := v)
      case R10 => this.(r10 := v) case R11 => this.(r11 := v) case R12 => this.(r12 := v)
      case R13 => this.(r13 := v) case R14 => this.(r14 := v) case R15 => this.(r15 := v)
    }
  }

  const ZERO_GPRS := Gprs(0, 0, 0, 0, 0, 0, 0, 0, 0, 0, 0, 0, 0, 0, 0)

  /** The whole block: RIP, RSP and RFLAGS live beside it, in the control structure. */
  datatype GuestRegisters = GuestRegisters(gprs: Gprs, rip: u64, rsp: u64, rflags: u64)
}
