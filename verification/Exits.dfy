/** From the processor's exit to the vCPU loop: which exits end a run, and which bytes they transmit,
    told by what the processor reports. */
module Exits {
  import opened Bits
  import opened Options
  import opened Words
  import opened Registers
  import opened Backend
  import opened GuestMemory
  import opened Vcpu
  import Svm = SvmSpec
  import SvmRun
  import SvmStart
  import Vmx = VmxSpec
  import VmxRun
  import VmxCpu
  import Cs = Vmcs
  import V = Vmcb
  import Bytes

  /** The loop's view of a round: the backend's result and the registers it has refreshed. */
  ghost function SvmExit(c: Svm.Cpu, r: Svm.Round, memory: HostMemory): VmExit {
    var (c', res) := Svm.Step(c, r);
    VmExit(res, c'.regs, memory)
  }

  function VmxExit(c: Vmx.Cpu, r: VmxCpu.RawRound, memory: HostMemory): VmExit {
    var (c', res) := Vmx.Step(c, VmxCpu.Abstract(r));
    VmExit(res, c'.regs, memory)
  }

  /** The guest asks for its end: OUT to one of the two exit ports, or the Exit hypercall. */
  predicate AsksForEnd(abi: Abi, port: u16) {
    port == 0xF4 || port == 0x540 || abi.decode(port) == Some(Exit)
  }

  /** What is to be done for an access to `port`: an IN reads it; an OUT ends the run, makes a
      hypercall, or writes it. */
  function IoAction(abi: Abi, port: u16, isIn: bool): Action {
    if isIn then Input(port)
    else if AsksForEnd(abi, port) then Halt
    else if abi.decode(port).Some? then Call(abi.decode(port).value)
    else Output(port)
  }

  /** An I/O exit on AMD-V: EXITINFO1 gives the direction in bit 0 and the port in bits 31:16. */
  lemma SvmIo(c: Svm.Cpu, r: Svm.Round, memory: HostMemory, abi: Abi)
    requires V.Word(r.page, 0x70) == 0x7B
    ensures Classify(SvmExit(c, r, memory).res, abi) == IoAction(abi, SvmRun.Half(r.page, 0x7A), SvmRun.Direction(r.page))
  {
    hide Svm.Step, V.Word, SvmRun.Direction, SvmRun.Half, IsIn, Port;
    SvmRun.ExitResult(c, r);
    SvmRun.IoExit(c, r, Svm.Step(c, r).1.value.q);
  }

  function Qualified(abi: Abi, q: u64): Action {
    IoAction(abi, q / 0x1_0000 % 0x1_0000, q / 8 % 2 == 1)
  }

  /** An I/O exit on VT-x: the qualification gives the direction in bit 3 and the port in bits 31:16. */
  lemma VmxIo(c: Vmx.Cpu, r: VmxCpu.RawRound, memory: HostMemory, abi: Abi)
    requires r.Exited? && Cs.Peek(r.store, 0x4402) % 0x1_0000 == 30
    ensures Classify(VmxExit(c, r, memory).res, abi) == Qualified(abi, Cs.Peek(r.store, 0x6400))
  {
    hide Vmx.Step, Cs.Peek, VmxCpu.Abstract, IsIn, Port;
    VmxCpu.RawIo(c, r);
  }

  /** On AMD-V a run ends exactly at a SHUTDOWN, at an exit the run loop does not handle, and when
      the guest asks for it. */
  lemma SvmHalts(c: Svm.Cpu, r: Svm.Round, memory: HostMemory, abi: Abi)
    ensures var code := V.Word(r.page, 0x70);
            Halts(SvmExit(c, r, memory), abi) <==>
              || code == 0x7F || !SvmStart.Handled(code)
              || (code == 0x7B && !SvmRun.Direction(r.page) && AsksForEnd(abi, SvmRun.Half(r.page, 0x7A)))
  {
    hide Svm.Step, V.Word, SvmRun.Direction, SvmRun.Half, IsIn, Port;
    SvmRun.ExitResult(c, r);
    if V.Word(r.page, 0x70) == 0x7B {
      SvmRun.IoExit(c, r, Svm.Step(c, r).1.value.q);
    }
  }

  /** An OUT on AMD-V to the serial port's data register transmits AL. */
  lemma SvmOut(c: Svm.Cpu, r: Svm.Round, memory: HostMemory, abi: Abi)
    requires V.Word(r.page, 0x70) == 0x7B && !SvmRun.Direction(r.page)
    requires r.page[0x7A] == 0 && r.page[0x7B] == 8 && abi.decode(0x800) == None
    ensures Sent(SvmExit(c, r, memory), abi) == [r.page[0x5F8]]
  {
    hide Svm.Step, V.Word, SvmRun.Direction, IsIn, Port, Sent;
    var x := SvmExit(c, r, memory);
    SvmRun.ExitResult(c, r);
    SvmRun.IoExit(c, r, Svm.Step(c, r).1.value.q);
    ByteSends(x, abi);
    SvmAl(r);
  }

  lemma SvmAl(r: Svm.Round)
    ensures SvmRun.AtExit(r).gprs.rax % 0x100 == r.page[0x5F8]
  {
    Bytes.WordBytes(r.page, 0x5F8);
  }

  predicate VmxEnds(r: VmxCpu.RawRound, abi: Abi) {
    r.Refused? ||
    var reason, q := Cs.Peek(r.store, 0x4402) % 0x1_0000, Cs.Peek(r.store, 0x6400);
    || reason !in {1, 7, 10, 30, 31, 32, 52, 55}
    || (reason == 30 && q / 8 % 2 == 0 && AsksForEnd(abi, q / 0x1_0000 % 0x1_0000))
  }

  /** On VT-x a run ends exactly at a refused entry, at a triple fault (2), at a reason the run loop does
      not handle, and when the guest asks for it. */
  lemma VmxHalts(c: Vmx.Cpu, r: VmxCpu.RawRound, memory: HostMemory, abi: Abi)
    ensures Halts(VmxExit(c, r, memory), abi) <==> VmxEnds(r, abi)
  {
    hide Vmx.Step, Cs.Peek, Cs.View, VmxCpu.Abstract, IsIn, Port;
    if r.Refused? {
      VmxRefused(c, r);
    } else {
      VmxCpu.RawExit(r);
      VmxRun.ExitResult(c, VmxCpu.Abstract(r));
      if Cs.Peek(r.store, 0x4402) % 0x1_0000 == 30 {
        VmxCpu.RawIo(c, r);
      }
    }
  }

  lemma VmxRefused(c: Vmx.Cpu, r: VmxCpu.RawRound)
    requires r.Refused?
    ensures Vmx.Step(c, VmxCpu.Abstract(r)).1 == Err(VMEntryFailed(r.error))
  {
    hide Vmx.Step;
    VmxRun.RefusedResult(c, VmxCpu.Abstract(r));
  }

  /** An OUT on VT-x to the serial port's data register transmits AL. */
  lemma VmxOut(c: Vmx.Cpu, r: VmxCpu.RawRound, memory: HostMemory, abi: Abi)
    requires r.Exited? && Cs.Peek(r.store, 0x4402) % 0x1_0000 == 30 && abi.decode(0x800) == None
    requires var q := Cs.Peek(r.store, 0x6400); q / 8 % 2 == 0 && q / 0x1_0000 % 0x1_0000 == 0x800
    ensures Sent(VmxExit(c, r, memory), abi) == [r.gprs.rax % 0x100]
  {
    hide Vmx.Step, Cs.Peek, VmxCpu.Abstract, IsIn, Port, Sent;
    VmxCpu.RawIo(c, r);
    ByteSends(VmxExit(c, r, memory), abi);
  }
}
