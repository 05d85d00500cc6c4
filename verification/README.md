# A verified model of rhyve's virtualization core

rhyve is a small hypervisor for hermit guests. This project models, in Dafny, the four parts of
it that carry a virtual machine, and proves what they keep over every input and every run.

* **Address translation.** `Npt` and `Ept` are one class over host memory, a flat array of
  64-bit words; the processor's four-level walk over that memory is the meaning of a tree. The
  specification is a plain partial map from guest pages to host frames. `init_guest_memory`
  adds the guest's own tables inside guest RAM, so the last theorem is about a two-dimensional
  walk. Beside it stands what keeps the address space as it was built: the nested tables let the
  guest reach its buffer and the two APIC pages only, and the stores the host makes for the guest
  are harmless as far as the guest hands over addresses of its own buffer. (`Bits`, `Paging`,
  `NestedTables`, `NestedBuild`, `Vm`, `GuestMemory`, `Isolation`, `Bytes`, `BootMemory`,
  `TwoDimensional`)
* **Timer and interrupt injection.** Both backends are classes that refine a step function; the
  guest, the clock and the processor are arbitrary, up to a stated contract. On AMD-V the control
  block is a page of bytes; on VT-x it is a store by field encoding whose every access may fail.
  The history of expiries and injections is a log, and conservation is a property of that log.
  What an exit is, and what a control structure holds at the start, is said by the processor's
  own offsets, encodings and exit codes. (`ApicTimer`, `EventLog`, `Words`, `Registers`, `Backend`,
  `Vmcb`, `SvmStart`, `SvmSpec`, `SvmCpu`, `SvmRun`, `Vmcs`, `VmxSpec`, `VmxCpu`, `VmxRun`)
* **The entry and exit code.** The two assembly trampolines are executed instruction by
  instruction on a register-and-stack machine, around an arbitrary guest. `BlockAfter` in each is
  what the backends' calls, `RunSvmVm` and `RunVmxVm`, use. (`Machine`, `VmxTrampoline`, `SvmTrampoline`)
* **Serial output.** The escape stripper is proved equal to a token grammar, and the vCPU loop
  to stream exactly the stripped bytes of what the guest handed over. (`Ansi`, `Uart`, `Vcpu`, `Exits`)

Words are bounded integers; `&` and `|` are defined bit by bit on natural numbers
(`Bits.And`, `Bits.Or`), shifts by constants are written as division and multiplication, and
the lemmas in `Bits` and `Words` turn masks into arithmetic. Additions that the code writes
with `+` wrap at 2^64, which is what a release build does.

What is taken as given, and stated where it is used:

* The host resolves an address to a page-aligned frame below 2^52, and fresh pages lie in
  frames of their own (`NestedTables.Supply`, `NestedBuild.Backed`). An allocation or an
  address lookup may fail at any point. For the isolation results the guest's buffer lies outside
  the memory the allocator hands out (`Isolation.Outside`), and the host's mapping of the buffer
  is the one its frames were resolved from (`Isolation.Backs`).
* A VM-exit from an entry that succeeded clears the valid bit of the VM-entry
  interruption-information field, keeps the execution controls, and is an interrupt-window exit
  only with the window open and the guest ready (`VmxRun.ExitContract`). The preemption timer
  counts at every multiple of 2^scale of the TSC from VM-entry on; its exit comes when it runs
  out, and no exit comes later (`VmxRun.TimerContract`). A VMRUN keeps EFER.SVME
  and the control area: intercepts, permission maps, ASID and nested paging (`SvmRun.KeepsControls`).
* VMRESUME succeeds only after a VMLAUNCH has (`VmxTrampoline.SameDepth`); VMRUN brings back the
  host's RAX and RSP and leaves GIF clear (`SvmTrampoline.Step`).

Four places where the code does less than it promises, each with its exact condition:

* `guest_ptr` promises a pointer into the guest's RAM and checks no bound, and the hypercalls read
  and store through it. Every access made for an exit stays in the buffer if and only if its
  guest-physical range does (`GuestMemory.WithinIff`, `Vcpu.InBoundsIff`). `Isolation.TamperProof`
  is about guests that keep these bounds; `Isolation.BoundNeeded` shows what a result field at the
  address of the root table does to the address space.
* `map_page` documents that an address must be below 512 GiB. Its assertions look at bits 30 to
  47 only, so they pass exactly when the address modulo 2^48 lies in [1 GiB, 512 GiB)
  (`NestedTables.MappableIff`). Some addresses above the limit pass, and
  `NestedTables.MappableAboveLimit` says exactly which, and the page they land on. The model
  follows the assertions.
* A write to INIT_COUNT arms `rdtsc + ticks`, which may wrap to zero; the guest then reads an
  armed timer as disarmed (`ApicTimer.ArmedReadsZero`). `ApicTimer.WriteKeepsInv` shows that this
  is the only way to break the timer's invariant, and the run theorems assume exactly its absence.
* The preemption timer holds 32 bits, and the expiry handler does not look at the clock again.
  `VmxRun.EarlyBound` shows that a vector is raised within the rounding of its deadline if and
  only if the remaining time fits; `VmxRun.EarlyWhenClamped` is a turn that raises one before
  half of the wait is over.

## Model

| member | source | states |
|---|---|---|
| `Bits.AndOrBits` | crates/rhyve-x86/src/svm/npt.rs:168-169 | the recursive And and Or are the bitwise operators, at every bit position |
| `Paging.EntryRoundTrip` | crates/rhyve-x86/src/svm/npt.rs:33-50 | for every frame and every flags below 4 KiB, masking the entry (frame or flags) with ADDR_MASK gives the frame back and the flags stay readable |
| `Paging.Step` | crates/rhyve-x86/src/svm/npt.rs:130-151 | in a well-formed tree every entry on a walk is absent, a leaf with full rights at level 1, or the table that serves the next level of the same path |
| `Paging.LeafExact` | crates/rhyve-x86/src/svm/npt.rs:207-213 | for every 64-bit address, the entry ORed together from it maps the page to that address if and only if the address is a page frame |
| `Paging.EntryBits` | crates/rhyve-x86/src/vmx/ept.rs:31-37 | every entry written grants read, write and execute, and a leaf carries write-back memory in EPT format, accessed and dirty in NPT format |
| `Paging.LeavesWriteBack` | crates/rhyve-x86/src/vmx/ept.rs:36-42 | every page an EPT tree maps is mapped with the write-back memory type |
| `Paging.NeverWild` | crates/rhyve-x86/src/svm/npt.rs:86-95 | a walk of a well-formed tree faults or hits with all rights; it never reads a frame that is not a table of the tree |
| `Paging.SetLeafFrame` | crates/rhyve-x86/src/svm/npt.rs:210-213 | writing one leaf entry leaves the walk of every other page as it was |
| `Paging.LinkFrame` | crates/rhyve-x86/src/vmx/ept.rs:219-225 | linking an empty table changes no walk at all |
| `NestedTables.Host.Alloc` | crates/rhyve-x86/src/vmx/ept.rs:97-109 | a granted page is zeroed, lies in a frame of its own, and no other page changes |
| `NestedTables.NestedTables.Pointer` | crates/rhyve-x86/src/vmx/ept.rs:261-265 | the pointer's address bits are the root's frame; EPTP carries walk length 4 and write-back, nCR3 nothing; it fails exactly when the root does not resolve |
| `NestedTables.Tree.PresentChild` | crates/rhyve-x86/src/svm/npt.rs:168-176 | every present entry below PDPT[1..] names exactly one table in `extra`, so the "not found" error cannot happen |
| `NestedTables.Tree.LinkGrows` | crates/rhyve-x86/src/svm/npt.rs:178-183 | linking a fresh table keeps the tree invariant and every translation |
| `NestedTables.Tree.LeafMaps` | crates/rhyve-x86/src/svm/npt.rs:210-214 | after the leaf write the page translates to its frame, every other page is as before, and the invariant holds |
| `NestedTables.NestedTables.ChildOrAlloc` | crates/rhyve-x86/src/svm/npt.rs:162-184 | the child found or made is the one the walk follows; no translation changes, success or not; it takes one allocation if the entry is empty and none if not, and fails exactly when that one is refused |
| `NestedTables.NestedTables.MapPage` | crates/rhyve-x86/src/svm/npt.rs:192-215 | all or nothing: on success exactly one page's translation changes, to `hpa`; on failure none does and the tree is still valid; it succeeds if and only if the tables missing on the page's path, at most two, are granted |
| `NestedTables.MappableIff` | crates/rhyve-x86/src/svm/npt.rs:193-202 | the assertions pass if and only if the address modulo 2^48 is in [1 GiB, 512 GiB) |
| `NestedTables.MappableAboveLimit` | crates/rhyve-x86/src/vmx/ept.rs:227-243 | an address at or above the documented limit passes the assertions if and only if its remainder modulo 2^48 is in [1 GiB, 512 GiB), and then maps that remainder's page; 2^48 + 1 GiB is one |
| `NestedTables.FieldsArePath` | crates/rhyve-x86/src/svm/npt.rs:206-210 | the shifts and masks select exactly the indices of the page's walk |
| `NestedBuild.FillTable` | crates/rhyve-x86/src/svm/npt.rs:135-147 | one leaf table is filled with its pages' frames, stopping at the end of the buffer; it fails exactly when one of its pages does not resolve |
| `NestedBuild.New` | crates/rhyve-x86/src/svm/npt.rs:105-158 | succeeds if and only if every allocation and lookup does, with a valid tree over the whole buffer |
| `NestedBuild.BuiltTranslates` | crates/rhyve-x86/src/vmx/ept.rs:143-199 | for every size up to 1 GiB and every frame layout, the walk of every page below 2^48 is its backing frame below `size` and a fault from `size` on |
| `Vm.MapMmio` | crates/rhyve-x86/src/svm/npt.rs:225-233 | the address space is RAM overlaid by the calls that succeeded, the last one winning |
| `Vm.MapAll` | crates/rhyve-x86/src/vmx/ept.rs:267-275 | the same after any sequence of calls, each of which may fail; with enough grants none does |
| `Vm.New` | src/vm.rs:90-121 | succeeds if and only if the tables over the buffer can be built and five more pages are granted; then the guest sees RAM, the LAPIC page and the I/O APIC page, in distinct frames that hold no table |
| `Vm.ApicDomain` | src/vm.rs:94-108 | the domain of that address space is exactly RAM and the two pages |
| `Vm.BothFormats` | crates/rhyve-x86/src/vmx/ept.rs:28-42 | an EPT and an NPT built over one buffer with the same calls give every page the same frame and rights, despite different entry formats and wherever their tables lie |
| `Isolation.Confined` | src/vm.rs:94-108 | every frame the nested tables reach is a page of the buffer or an APIC page, and none of them holds a nested table, when the buffer lies outside the allocator's memory |
| `Isolation.TamperProof` | src/vcpu.rs:158-209 | over every run in which the guest hands over addresses of its buffer only, whatever it writes to the frames it reaches and the host stores for it, every guest-physical page translates as at the start |
| `Isolation.NewConfined` | src/vm.rs:90-121 | the tables of the machine `Vm::new` builds reach only those frames, and it is one `TamperProof` is about |
| `GuestMemory.WithinIff` | src/vcpu.rs:262-266 | an access through `guest_ptr` stays in the buffer if and only if its guest-physical range ends within the buffer's size |
| `Isolation.BoundNeeded` | src/vcpu.rs:191-193 | for every address of the root table there is a FileRead whose result the host stores there, and then every page below 512 GiB faults: the bounds of `TamperProof` cannot be left out |
| `Bytes.ReadWritten` | crates/rhyve-x86/src/svm/vmcb.rs:135-159 | a little-endian store is read back as the value stored |
| `BootMemory.InitGuestMemory` | crates/rhyve-x86/src/lib.rs:78-100 | writes the GDT and the three boot tables, entry by entry, and leaves every other byte of guest memory unchanged |
| `TwoDimensional.ReadThrough` | crates/rhyve-x86/src/lib.rs:78-100 | a guest table entry read through the nested tables is the word at its guest-physical address |
| `TwoDimensional.BootWalk` | crates/rhyve-x86/src/lib.rs:92-99 | the guest walk from BOOT_PML4, every read through the nested tables, is the identity below 1 GiB and a fault above |
| `TwoDimensional.EndToEnd` | crates/rhyve-x86/src/lib.rs:78-100 | the two-dimensional walk takes every page of guest RAM to its backing frame and faults for every other page |
| `TwoDimensional.Boot` | src/main.rs:145-165 | after `init_guest_memory` and `Vm::new` that holds for the machine built, on either format |
| `ApicTimer.ProgramTimer` | crates/rhyve-x86/src/svm/mod.rs:252-287 | the field-by-field update is the timer transition, for every MSR, value and clock; the next four rows say what that transition is |
| `ApicTimer.WriteSetsLvt` | crates/rhyve-x86/src/svm/mod.rs:252-287 | vector, mask and mode are those of the value written to LVT_TIMER, and a write to any other MSR leaves all four alone |
| `ApicTimer.LvtWrite` | crates/rhyve-x86/src/svm/mod.rs:254-265 | vector, mask and mode come from bits 7:0, 16 and 18:17; masking cancels every scheduled expiry, a change of mode none |
| `ApicTimer.DeadlineSchedule` | crates/rhyve-x86/src/svm/mod.rs:266-270 | a TSC deadline is served exactly once, in any mode; zero or a masked timer schedules nothing (vector, mask and mode: `WriteSetsLvt`) |
| `ApicTimer.CountSchedule` | crates/rhyve-x86/src/svm/mod.rs:271-284 | a count is served after that many ticks, and in periodic mode at every multiple after, if `now + value` fits 64 bits; exactly when it does not, the first deadline wraps into the past; zero, masked or TSC-deadline mode schedules nothing |
| `ApicTimer.WriteKeepsInv` | crates/rhyve-x86/src/vmx/mod.rs:243-278 | an MSR write keeps the timer invariant if and only if it does not arm a deadline that wraps to zero |
| `ApicTimer.ArmedReadsZero` | crates/rhyve-x86/src/svm/mod.rs:277-282 | such a write: the reset timer is armed and TSC_DEADLINE reads zero |
| `ApicTimer.ExpireKeepsInv` | crates/rhyve-x86/src/svm/mod.rs:300-307 | an expiry keeps it: masked means disarmed, a period is positive and armed, a deadline is nonzero |
| `ApicTimer.ReadsZeroIffDisarmed` | crates/rhyve-x86/src/svm/mod.rs:226 | under it, TSC_DEADLINE reads zero exactly when the timer is disarmed |
| `ApicTimer.DeadlineReads` | crates/rhyve-x86/src/svm/mod.rs:226 | TSC_DEADLINE reads back as written, or zero if the timer is masked |
| `ApicTimer.NoDrift` | crates/rhyve-x86/src/svm/mod.rs:305-307 | the n-th expiry of a periodic timer has the deadline `min(d0 + n * period, 2^64 - 1)` |
| `ApicTimer.CatchUp` | crates/rhyve-x86/src/svm/mod.rs:293-308 | at a fixed clock below 2^64-1, polling passes the clock after exactly `floor((now - d) / period) + 1` polls and then changes nothing |
| `ApicTimer.NeverCatchesUp` | crates/rhyve-x86/src/svm/mod.rs:306 | at the largest clock value the saturated deadline expires on every poll |
| `EventLog.Conservation` | crates/rhyve-x86/src/svm/mod.rs:293-329 | in every log where injections follow their expiry, expiries = injections + coalesced expiries + one if a vector is pending |
| `Vmcb.Disjoint` | crates/rhyve-x86/src/svm/vmcb.rs:23-116 | no two named fields of the control block overlap |
| `Vmcb.PutIsUpdate` | crates/rhyve-x86/src/svm/vmcb.rs:135-171 | a byte write at a field's offset is an update of that field of the record and of nothing else |
| `Vmcb.Layout` | crates/rhyve-x86/src/svm/vmcb.rs:31-51 | each field the run loop uses is the word at its architectural offset |
| `Vmcb.Vmcb.ReadU64` | crates/rhyve-x86/src/svm/vmcb.rs:135-139 | reads the field of the record |
| `Vmcb.Vmcb.WriteU64` | crates/rhyve-x86/src/svm/vmcb.rs:142-145 | updates the field of the record |
| `Vmcb.Vmcb.WriteSegment` | crates/rhyve-x86/src/svm/vmcb.rs:162-167 | updates the four parts of one segment |
| `Vmcb.Vmcb.SetupControl` | crates/rhyve-x86/src/svm/vmcb.rs:175-206 | intercepts, permission maps, ASID and nested paging, and no other field; `SvmStart.InitialStarts` says with which bits |
| `Vmcb.Vmcb.SetupGuest` | crates/rhyve-x86/src/svm/vmcb.rs:210-268 | the initial segments, control registers and run registers, and no other field; `SvmStart.InitialStarts` says with which values |
| `Vmcb.InitialAt` | crates/rhyve-x86/src/svm/vmcb.rs:175-268 | the value of every field of the record after both |
| `SvmStart.InitialStarts` | crates/rhyve-x86/src/svm/vmcb.rs:175-268 | by byte offset: exactly the exits the run loop handles and VMRUN are intercepted, the maps and nCR3 are those given, EFER has LME, LMA and SVME, CR0, CR4 and CR3 are those of 64-bit paging on the boot tables, and every segment register |
| `SvmStart.SegmentsMatchGdt` | crates/rhyve-x86/src/svm/vmcb.rs:214-245 | the cached segment registers are what loading their selectors from the GDT of `init_guest_memory` gives, within GDTR's limit |
| `Words.Join` | crates/rhyve-x86/src/svm/mod.rs:414 | EDX:EAX joined is the sum of the two halves |
| `Words.Qualification` | crates/rhyve-x86/src/svm/mod.rs:448-451 | the repackaged access decodes to the same direction and port |
| `Words.SetLowByte` | src/vcpu.rs:224 | the low byte is replaced and the upper 56 bits are kept |
| `Words.SetWindow` | crates/rhyve-x86/src/vmx/mod.rs:322-335 | the window bit is set as asked and no other control changes |
| `SvmCpu.NewVmcb` | crates/rhyve-x86/src/svm/mod.rs:193-196 | the new control block is the one of `SvmStart.Start`, with SVME set, nested paging on and no event to inject |
| `SvmCpu.SvmCpu.constructor` | crates/rhyve-x86/src/svm/mod.rs:151-200 | a new vCPU has the timer disarmed, nothing pending, hermit's entry registers and the block it is given |
| `SvmCpu.New` | crates/rhyve-x86/src/svm/mod.rs:151-200 | succeeds if and only if both permission maps are allocated and every address resolves, with such a block and such a vCPU |
| `SvmCpu.SvmCpu.ServiceTimer` | crates/rhyve-x86/src/svm/mod.rs:293-308 | the poll refines the specification's expiry |
| `SvmCpu.SvmCpu.InjectPending` | crates/rhyve-x86/src/svm/mod.rs:316-329 | the event field is rewritten at every entry: the pending vector if the guest can take it, else nothing |
| `SvmCpu.SvmCpu.WriteMsr` | crates/rhyve-x86/src/svm/mod.rs:234-246 | writes change only their own field or the timer, never the pending vector |
| `SvmCpu.SvmCpu.HandleExit` | crates/rhyve-x86/src/svm/mod.rs:369-468 | every exit code is emulated as the step function says, which `SvmRun.ExitResult`, `IoExit`, `CpuidExit`, `RdmsrExit`, `WrmsrExit` and `Transparent` pin down on the bytes of the block |
| `SvmCpu.SvmCpu.Run` | crates/rhyve-x86/src/svm/mod.rs:337-469 | one entry and exit refine the step function for an arbitrary guest, VMRUN executes in the prepared state, and the host's FP state is unchanged |
| `SvmCpu.RunTurns` | src/vcpu.rs:136-228 | any sequence of runs and I/O completions leaves the state that the runs of `SvmRun` are about, and the host's FP state unchanged |
| `SvmRun.ExitResult` | crates/rhyve-x86/src/svm/mod.rs:369-468 | which result each exit code of the processor gives, in both directions: success, I/O, shutdown, invalid, unknown |
| `SvmRun.IoExit` | crates/rhyve-x86/src/svm/mod.rs:443-455 | an IOIO exit reports as port the two bytes at 0x7A of the block and as direction bit 0 of the byte at 0x78, and continues at EXITINFO2 |
| `SvmRun.CpuidExit` | crates/rhyve-x86/src/svm/mod.rs:395-408 | CPUID returns each of its four results in its own register and advances by two bytes |
| `SvmRun.Deliveries` | crates/rhyve-x86/src/svm/mod.rs:293-329 | over every run each injected vector is the LVT vector of the latest expiry, none is injected twice, and what is pending is the expiry not yet injected |
| `SvmRun.Conserved` | crates/rhyve-x86/src/svm/mod.rs:293-329 | over every run expiries = injections + coalesced + one if pending |
| `SvmRun.Programmed` | crates/rhyve-x86/src/svm/mod.rs:252-308 | over every such run vector, mask and mode are those of the latest WRMSR to LVT_TIMER in the exits, or of reset |
| `SvmRun.InjectedIsProgrammed` | crates/rhyve-x86/src/svm/mod.rs:252-329 | over every run of a new vCPU, each injected vector is the low byte of the latest WRMSR to LVT_TIMER before its expiry, which is the latest expiry; nothing is injected in between |
| `SvmRun.EntrySafety` | crates/rhyve-x86/src/svm/mod.rs:316-329 | at every entry an event is injected only with bit 9 of the loaded RFLAGS set and bit 0 of the interrupt state clear, and a vector is left pending only otherwise |
| `SvmRun.RunTimer` | crates/rhyve-x86/src/svm/mod.rs:293-308 | over every run without timer writes the timer is its initial one after as many expiries as were logged |
| `SvmRun.RunsDoNotDrift` | crates/rhyve-x86/src/svm/mod.rs:305-307 | over every such run, after n logged expiries the deadline is `min(d0 + n * period, 2^64 - 1)`, whatever the clock was at each poll |
| `SvmRun.NeverEarly` | crates/rhyve-x86/src/svm/mod.rs:293-299 | over every such run whose polls all come before the deadline, no expiry is logged and the timer stays armed |
| `SvmRun.FirstPollExpires` | crates/rhyve-x86/src/svm/mod.rs:297-304 | the first poll at or after the deadline logs the expiry and makes the LVT vector pending |
| `SvmRun.AlwaysRunnable` | crates/rhyve-x86/src/svm/mod.rs:234-246 | over every run of a vCPU that starts with the block `NewVmcb` makes, every VMRUN finds SVME set, the wanted intercepts, the permission maps, the guest's ASID and its own nested tables |
| `SvmRun.MsrRoundTrip` | crates/rhyve-x86/src/svm/mod.rs:220-246 | FS and GS base read back as written, EFER without bit 12 |
| `SvmRun.RdmsrExit` | crates/rhyve-x86/src/svm/mod.rs:409-425 | RDMSR returns FS base, GS base, EFER without SVME or the armed deadline in EDX:EAX, and zero for any other MSR |
| `SvmRun.WrmsrExit` | crates/rhyve-x86/src/svm/mod.rs:409-425 | after any exit the block is the guest's, except that a WRMSR of FS base, GS base or EFER stores EDX:EAX in that field, EFER with bit 12 set |
| `SvmRun.DeadlineReadsBack` | crates/rhyve-x86/src/svm/mod.rs:220-246 | over every run until it is reached, the deadline a WRMSR armed is what an RDMSR of TSC_DEADLINE returns in EDX:EAX |
| `SvmRun.GuestMsrRoundTrip` | crates/rhyve-x86/src/svm/mod.rs:409-425 | RDMSR returns in EDX:EAX the halves that WRMSR took from them |
| `SvmRun.TurnKeepsTimer` | crates/rhyve-x86/src/svm/mod.rs:252-308 | one turn keeps the timer invariant if and only if its write does not wrap |
| `SvmRun.TimerSound` | crates/rhyve-x86/src/svm/mod.rs:226-308 | over every run without such a write the invariant holds and TSC_DEADLINE reads zero exactly when disarmed |
| `SvmRun.Transparent` | crates/rhyve-x86/src/svm/mod.rs:341-455 | the next entry loads the registers and FP state of the last exit, changed only by its emulation: nothing for INTR, the four results for CPUID, RIP and one byte of RAX for IN |
| `VmxSpec.ArmedBound` | crates/rhyve-x86/src/vmx/mod.rs:283-293 | the armed value fits 32 bits and never exceeds the remaining time; it falls short by less than 2^scale if and only if the remaining time is below 2^(32+scale) |
| `Vmcs.PokeIsUpdate` | crates/rhyve-x86/src/vmx/vmcs.rs:109-136 | a VMWRITE by encoding updates its field of the record, to what fits the width in the encoding, and no other field |
| `Vmcs.Encodings` | crates/rhyve-x86/src/vmx/vmcs.rs:109-136 | each field of the record is the VMREAD of its architectural encoding |
| `Vmcs.Region.Read` | crates/rhyve-x86/src/vmx/vmcs.rs:110-121 | a VMREAD gives the field, or fails with VMREADFailed, and every failure is remembered |
| `Vmcs.Region.Write` | crates/rhyve-x86/src/vmx/vmcs.rs:125-136 | a VMWRITE updates one field, or fails with VMWRITEFailed and changes nothing |
| `VmxCpu.AdjustControl` | crates/rhyve-x86/src/vmx/vmcs.rs:81-87 | a bit of the result is set exactly when it is asked for or forced, and allowed |
| `VmxCpu.EnableVmx` | crates/rhyve-x86/src/vmx/mod.rs:130-193 | a failed VMXON is forgiven if and only if the instruction error is 15, the core already being in VMX operation |
| `VmxCpu.SetupVmcs` | crates/rhyve-x86/src/vmx/mod.rs:198-222 | the run loop's fields are initialised, by encoding, or it fails, exactly when an access does or the APIC page does not resolve; every primary control is on exactly if it is asked for (21, 24, 31) or forced, and allowed |
| `VmxCpu.New` | crates/rhyve-x86/src/vmx/mod.rs:342-383 | fails only for a refused page, a failed VMXON or a failed access; a new vCPU has the timer disarmed, nothing pending, no event left over and hermit's entry registers; it is ready for its first run exactly when the processor lets interrupt-window exiting be off |
| `VmxCpu.VmxCpu.SetInterruptWindow` | crates/rhyve-x86/src/vmx/mod.rs:322-335 | bit 2 of the controls is set as asked, every other bit and field is kept, and after a failed access nothing has changed |
| `VmxCpu.VmxCpu.InjectPending` | crates/rhyve-x86/src/vmx/mod.rs:298-319 | afterwards the window is open exactly when a vector still waits and an event is set up only for a guest that accepts it; a failed access is reported and does not lose the vector |
| `VmxCpu.VmxCpu.ArmPreemptionTimer` | crates/rhyve-x86/src/vmx/mod.rs:283-295 | the value written never overshoots the deadline and falls short by less than one count exactly when the deadline is in reach; a failed access is reported |
| `VmxCpu.VmxCpu.Prepare` | crates/rhyve-x86/src/vmx/mod.rs:392-404 | before VM-entry the VMCS is exactly the specified one, or a failed access is reported and the waiting vector is not lost |
| `VmxCpu.VmxCpu.PreemptionTimerExpired` | crates/rhyve-x86/src/vmx/mod.rs:531-544 | refines the specified expiry |
| `VmxCpu.VmxCpu.HandleExit` | crates/rhyve-x86/src/vmx/mod.rs:433-558 | every exit reason is emulated as the step function says, which `VmxRun.ExitResult`, `RdmsrExit`, `WrmsrExit` and `Transparent` pin down, and every failed VMREAD or VMWRITE is reported |
| `VmxCpu.VmxCpu.Run` | crates/rhyve-x86/src/vmx/mod.rs:392-559 | the guest is entered only in the specified state; without a failed access the whole is one step of the specification, for an arbitrary guest or a refused entry; every failed access ends in an error; the host's FP state is unchanged in every case |
| `VmxCpu.RunTurns` | src/vcpu.rs:136-228 | the same up to the first failed access, for the runs of `VmxRun` |
| `VmxCpu.RawIo` | crates/rhyve-x86/src/vmx/mod.rs:524-530 | an I/O exit reports the qualification at encoding 0x6400, whose bits 31:16 are the port and bit 3 the direction, and skips the instruction by the length at 0x440C |
| `VmxRun.ExitResult` | crates/rhyve-x86/src/vmx/mod.rs:433-558 | which result each basic exit reason gives, in both directions: success, I/O, shutdown, unknown |
| `VmxRun.EntryState` | crates/rhyve-x86/src/vmx/mod.rs:298-335 | at every entry the window is open exactly when a vector still waits, an event is injected only with bit 9 of RFLAGS set and no blocking by STI or MOV SS, and a vector waits only otherwise |
| `VmxRun.Deliveries` | crates/rhyve-x86/src/vmx/mod.rs:298-319 | over every run each injected vector is the LVT vector of the latest expiry, none is replayed, and what is pending is the expiry not yet injected |
| `VmxRun.Conserved` | crates/rhyve-x86/src/vmx/mod.rs:531-544 | over every run expiries = injections + coalesced + one if pending |
| `VmxRun.Programmed` | crates/rhyve-x86/src/vmx/mod.rs:243-278 | over every such run vector, mask and mode are those of the latest WRMSR to LVT_TIMER in the exits, or of reset |
| `VmxRun.InjectedIsProgrammed` | crates/rhyve-x86/src/vmx/mod.rs:243-319 | over every run of a new vCPU, each injected vector is the low byte of the latest WRMSR to LVT_TIMER before its expiry, which is the latest expiry; nothing is injected in between |
| `VmxRun.WindowExit` | crates/rhyve-x86/src/vmx/mod.rs:545-549 | an interrupt-window exit is followed by an entry that injects the waiting vector and closes the window |
| `VmxRun.TurnKeepsTimer` | crates/rhyve-x86/src/vmx/mod.rs:243-278 | one turn keeps the timer invariant if and only if its write does not wrap |
| `VmxRun.TimerSound` | crates/rhyve-x86/src/vmx/mod.rs:243-278 | over every run without such a write the invariant holds and TSC_DEADLINE reads zero exactly when disarmed |
| `VmxRun.NeverLate` | crates/rhyve-x86/src/vmx/mod.rs:283-293 | no exit comes later than the deadline by more than the time between reading the clock and entering the guest |
| `VmxRun.EarlyBound` | crates/rhyve-x86/src/vmx/mod.rs:531-544 | the exit that makes the vector pending comes less than two counts before the deadline if the deadline fits the timer; where in a count the guest was entered apart, less than one count if and only if it fits |
| `VmxRun.EarlyWhenClamped` | crates/rhyve-x86/src/vmx/mod.rs:283-293 | a deadline that does not fit, and a turn that makes its vector pending before half of the wait is over |
| `VmxRun.NeverEarly` | crates/rhyve-x86/src/vmx/mod.rs:531-544 | over every run without timer writes whose exits all come two counts before a deadline that fits, no expiry is logged and the timer stays armed |
| `VmxRun.RunTimer` | crates/rhyve-x86/src/vmx/mod.rs:531-544 | over every run without timer writes the timer is its initial one after as many expiries as were logged |
| `VmxRun.RunsDoNotDrift` | crates/rhyve-x86/src/vmx/mod.rs:539-541 | over every such run, after n logged expiries the deadline is `min(d0 + n * period, 2^64 - 1)` |
| `VmxRun.Transparent` | crates/rhyve-x86/src/vmx/mod.rs:396-549 | the next entry loads the registers and FP state of the last exit, changed only by its emulation: nothing for a host interrupt, a window or a timer exit, the four results for CPUID, RIP and one byte of RAX for IN |
| `VmxRun.GuestMsrRoundTrip` | crates/rhyve-x86/src/vmx/mod.rs:446-488 | RDMSR returns in EDX:EAX the halves that WRMSR took from them |
| `VmxRun.RdmsrExit` | crates/rhyve-x86/src/vmx/mod.rs:445-464 | RDMSR returns FS base, GS base, EFER or the armed deadline in EDX:EAX, and zero for any other MSR |
| `VmxRun.WrmsrExit` | crates/rhyve-x86/src/vmx/mod.rs:465-484 | after any exit the VMCS is the guest's, except that a WRMSR of FS base, GS base or EFER stores EDX:EAX in that field |
| `Machine.PushedAt` | crates/rhyve-x86/src/vmx/run.rs:71-85 | each pushed register is found in its stack slot |
| `Machine.PopsValue` | crates/rhyve-x86/src/vmx/run.rs:156-170 | a run of pops restores each register from its slot of the stack |
| `Machine.PopsFrame` | crates/rhyve-x86/src/vmx/run.rs:156-170 | and moves RSP past them, and touches no other register and no memory |
| `Machine.StoresEffect` | crates/rhyve-x86/src/vmx/run.rs:135-148 | a run of stores puts each register in its slot of the block and touches nothing outside it |
| `Machine.BlockLayout` | crates/rhyve-x86/src/vmx/run.rs:13-38 | the register block is the fifteen registers at their offsets in the structure |
| `VmxTrampoline.GuestEnters` | crates/rhyve-x86/src/vmx/run.rs:89-130 | VMRESUME, and VMLAUNCH after a failed VMRESUME, find exactly the register block in the fifteen registers |
| `VmxTrampoline.CaughtReturns` | crates/rhyve-x86/src/vmx/run.rs:133-175 | after a VM-exit the block holds the guest's registers, and RSP, every host register but RAX and all other aligned words of memory are as before the call |
| `VmxTrampoline.CallCorrect` | crates/rhyve-x86/src/vmx/run.rs:68-175 | the same for a whole call on every path; after a failure the block is untouched and RAX holds the flags of the instruction that failed |
| `VmxTrampoline.ResumeDepth` | crates/rhyve-x86/src/vmx/run.rs:120-134 | a resumed call returns with its stack pointer if and only if it is made at the depth recorded at launch |
| `VmxTrampoline.EveryCallCorrect` | crates/rhyve-x86/src/vmx/run.rs:68-175 | every call of any sequence from one stack depth is correct, whatever mix of launches, resumptions and failures came before |
| `VmxTrampoline.BlockAfter` | crates/rhyve-x86/src/vmx/mod.rs:412-413 | a call on a block that holds the backend's registers starts the guest with them and leaves the guest's, or the same ones if it is refused |
| `SvmTrampoline.AtVmrunState` | crates/rhyve-x86/src/svm/run.rs:58-100 | VMRUN executes with the block in the fourteen registers, RAX naming the guest's VMCB, its hidden state loaded and interrupts masked |
| `SvmTrampoline.CallCorrect` | crates/rhyve-x86/src/svm/run.rs:110-136 | the block then holds the guest's registers with RAX's slot untouched; RSP, RBX, RBP, R12, R13, R14, R15 and the other aligned words of memory are as before |
| `SvmTrampoline.HostState` | crates/rhyve-x86/src/svm/run.rs:101-108 | the host's hidden state comes back if and only if the two VMCBs are distinct or the guest left the same state; the guest's is in its VMCB |
| `SvmTrampoline.Transparent` | crates/rhyve-x86/src/svm/run.rs:55-136 | all of it for the whole code, and at every instruction boundary the hidden state is the host's or interrupts are masked |
| `SvmTrampoline.BlockAfter` | crates/rhyve-x86/src/svm/mod.rs:361 | a call on a block that holds the backend's registers starts the guest with them, RAX apart, and leaves what the backend takes back |
| `Ansi.Chunked` | src/uart.rs:67-94 | feeding bytes in two chunks is feeding them at once |
| `Ansi.ParseSplits` | src/uart.rs:60-94 | every byte string splits into text, control, escape and CSI tokens and at most one unfinished tail |
| `Ansi.ParseRecovers` | src/uart.rs:60-94 | parsing recovers any well-formed decomposition |
| `Ansi.DecompositionIsUnique` | src/uart.rs:60-94 | there is only one |
| `Ansi.FilterIsText` | src/uart.rs:67-94 | the output is exactly the text tokens in order, and the final state is the tail's |
| `Ansi.SequenceStripped` | src/uart.rs:78-92 | after ESC and `[` every byte is dropped up to the first from 0x40 to 0x7E, and that byte ends the sequence |
| `Ansi.PassesIffText` | src/uart.rs:74-76 | from Normal a string passes unchanged if and only if all its bytes are tab, line feed, carriage return or at least 0x20 |
| `Ansi.Idempotent` | src/uart.rs:61-66 | filtering the output again changes nothing |
| `Uart.Uart.constructor` | src/uart.rs:52-59 | registers clear, no consumer, outside any sequence |
| `Uart.Uart.AnsiFilter` | src/uart.rs:67-94 | one byte is one step of the transducer |
| `Uart.Uart.Write` | src/uart.rs:117-134 | a transmitted byte makes one chunk, or none if it is stripped; other registers behave as specified |
| `Uart.Uart.WriteBuffer` | src/uart.rs:137-151 | a buffer makes exactly one chunk, the filter of the whole buffer, and leaves the filter's state |
| `Vcpu.WholeStream` | src/vcpu.rs:136-237 | for every trace of exits the chunks together are the filter applied once to all bytes transmitted by the four ways; `Vcpu.Transcript` says which bytes these are |
| `Vcpu.Transcript` | src/vcpu.rs:136-237 | over every trace that does not end the run the consumer receives the filter applied once to the bytes the guest handed over, read off registers and memory, in order |
| `Vcpu.SerialBufferSends` | src/vcpu.rs:167-174 | SerialWriteBuffer transmits the bytes at the guest address and of the length that lie, little-endian, in its structure |
| `Vcpu.FileWriteSends` | src/vcpu.rs:175-188 | FileWrite to descriptors 1 and 2 transmits the bytes its structure describes and answers with their number; to any other it transmits nothing and answers -1 |
| `Vcpu.ByteSends` | src/vcpu.rs:164-166 | SerialWriteByte transmits the low byte of RDI, an OUT to 0x800 the low byte of RAX |
| `Vcpu.FilesFail` | src/vcpu.rs:191-205 | the other file calls transmit nothing and are answered with -1 at their result field |
| `Vcpu.OthersSilent` | src/vcpu.rs:158-227 | no other exit transmits or is answered |
| `Vcpu.ChunkingIrrelevant` | src/vcpu.rs:164-190 | traces that transmit the same bytes stream the same output |
| `Vcpu.NothingAfterHalt` | src/vcpu.rs:148-163 | nothing is emitted, answered or changed after an exit-port write, Exit hypercall, shutdown or error |
| `Vcpu.ReadBack` | src/uart.rs:103-133 | after any trace an IN from MCR or SCR returns the byte of the latest OUT to it, and leaves the other bytes of RAX |
| `Vcpu.AlwaysReady` | src/uart.rs:17-25 | after any trace an IN from the line-status register finds the transmitter empty and no input pending, and leaves the other bytes of RAX |
| `Vcpu.AlwaysConnected` | src/uart.rs:17-25 | after any trace an IN from the modem-status register finds carrier, data set ready and clear to send |
| `Vcpu.OthersReadZero` | src/vcpu.rs:218-225 | an IN from any other port reads zero and leaves the other bytes of RAX |
| `Vcpu.InBoundsIff` | src/vcpu.rs:158-209 | every host access made for an exit stays in the buffer if and only if the guest handed over ranges of its own memory |
| `Vcpu.ReplyWithin` | src/vcpu.rs:176-205 | such a guest's results are stored in its buffer |
| `Vcpu.BufferDecides` | src/vcpu.rs:169-190 | what a guest that keeps its bounds transmits and is answered depends on no byte of host memory outside its buffer |
| `Vcpu.Cpu.Io` | src/vcpu.rs:141-228 | an I/O exit has exactly the classified effect on the port and the registers, and a hypercall's result is stored at the field its parameter points to |
| `Vcpu.Cpu.Run` | src/vcpu.rs:136-237 | the loop stops at the first halting exit, and streams, answers and updates the port as the whole-trace functions say |
| `Exits.SvmIo` | src/vcpu.rs:141-160 | on AMD-V, which bits of EXITINFO1 make an exit an input, the end of the run, a hypercall or an output, and on which port |
| `Exits.VmxIo` | src/vcpu.rs:141-160 | the same on VT-x, for the exit qualification |
| `Exits.SvmHalts` | src/vcpu.rs:138-163 | on AMD-V a run ends if and only if the exit is SHUTDOWN, is none the run loop handles, or is an OUT to port 0xF4 or 0x540 or the Exit hypercall |
| `Exits.VmxHalts` | src/vcpu.rs:138-163 | on VT-x the same, for a refused entry, a triple fault, an unhandled reason and those OUTs |
| `Exits.SvmOut` | src/vcpu.rs:212-227 | on AMD-V an OUT to port 0x800 transmits the byte at 0x5F8 of the control block, AL |
| `Exits.VmxOut` | src/vcpu.rs:212-227 | on VT-x it transmits AL |

## Left out

- Web service, image upload, HTML page: I/O and user interface.
- Device tree, ELF loading and boot-info serialization: thin wrappers over other crates.
- Decoding of hypercall addresses and the layout of their parameter structures: from another crate; the loop takes both as arbitrary functions and reads the parameters from host memory. `fd` is taken as 4 bytes and `buf`, `len` and every result as 8.
- The host's `sti; nop; cli` window, XSETBV, CPUID and MSR side effects on the host: results of CPUID are inputs, the rest has no effect on the modelled state.
- Selection of FP components by XCR0: `save` and `restore` copy the whole state.
- `setup_host`, `setup_apic`, `setup_svm` and the control-register part of `setup_vmxon`: configuration constants.
- VmxCpu.SetupVmcs: of the VMCS set-up only the fields the run loop uses are modelled, with the capability word as an input; VmxCpu.New fails on those accesses only.
- NestedTables.Host.Alloc: a page freed after its address did not resolve is not given out again (`NestedTables.Supply`); the code may get the same frame a second time.
- Delivery inside the processor: the log records entries at which an interrupt was injected. An exit while it is being delivered (EXITINTINFO on AMD-V, IDT-vectoring information on VT-x) is never looked at by the code, and such an interrupt is lost.
- NestedTables.NestedTables.MapPage: is stated for page frames, which is what the trait documents; `Paging.LeafExact` shows that these are exactly the addresses that map to themselves.
- Several vCPUs sharing one UART or one core: the model has one vCPU.
- Other deallocation, alignment attributes and logging.
- Liveness: nothing says when a guest becomes interruptible; on AMD-V the interrupt shadow after STI and HLT is whatever the control block holds.
- Vcpu.Cpu.Run: the source's loop is unbounded; the model runs it on every finite trace of backend returns.
- SvmTrampoline.Transparent: addresses are unbounded integers, so a stack or register block that wraps around the end of the address space is not modelled; the same holds of VmxTrampoline.CallCorrect.
- VmxTrampoline.CallCorrect: the guest cannot write the host's stack or the register block while it runs, which is what nested paging is for; the same holds of SvmTrampoline.CallCorrect.
