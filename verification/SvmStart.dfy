/** The control block a virtual CPU starts with on AMD-V, as the processor reads it: by byte
    offset, with the bits of the architecture written out. */
module SvmStart {
  import opened Bits
  import Bytes
  import BootMemory
  import V = Vmcb

  /** The exits the run loop deals with, by the processor's numbers: INTR, CPUID, PAUSE, HLT, IOIO,
      MSR, SHUTDOWN, XSETBV. */
  predicate Handled(code: nat) {
    code == 0x60 || code == 0x72 || code == 0x77 || code == 0x78 || code == 0x7B || code == 0x7C || code == 0x7F || code == 0x8D
  }

  /** What is to be intercepted: what is handled, and VMRUN itself, which the processor insists on. */
  predicate Wanted(code: nat) {
    Handled(code) || code == 0x80
  }

  function Weight(code: nat): nat {
    if Wanted(code) then 1 else 0
  }

  /** The intercept word whose bit `k` belongs to exit code `base + k`. */
  function InterceptWord(base: nat, n: nat): nat
    decreases n
  {
    if n == 0 then 0 else Weight(base) + 2 * InterceptWord(base + 1, n - 1)
  }

  lemma {:induction false} InterceptBit(base: nat, n: nat, k: nat)
    ensures Bit(InterceptWord(base, n), k) <==> k < n && Wanted(base + k)
    decreases n, k
  {
    hide Wanted;
    if n == 0 {
      NoBits(k);
    } else {
      Halve(Weight(base), InterceptWord(base + 1, n - 1));
      if k > 0 {
        InterceptBit(base + 1, n - 1, k - 1);
      }
    }
  }

  /** Four bits of an intercept word. */
  lemma Nibble(base: nat, n: nat, v: nat)
    requires v == Weight(base) + 2 * Weight(base + 1) + 4 * Weight(base + 2) + 8 * Weight(base + 3)
    ensures InterceptWord(base, n + 4) == v + 0x10 * InterceptWord(base + 4, n)
  {
    hide Weight;
    assert InterceptWord(base + 1, n + 3) == Weight(base + 1) + 2 * InterceptWord(base + 2, n + 2);
    assert InterceptWord(base + 2, n + 2) == Weight(base + 2) + 2 * InterceptWord(base + 3, n + 1);
    assert InterceptWord(base + 3, n + 1) == Weight(base + 3) + 2 * InterceptWord(base + 4, n);
  }

  lemma NoWord(base: nat)
    ensures InterceptWord(base, 0) == 0
  {
  }

  lemma InterceptConstants()
    ensures V.INTERCEPTS_1 == InterceptWord(0x60, 32) && V.INTERCEPTS_2 == InterceptWord(0x80, 32)
  {
    FirstWord();
    SecondWord();
  }

  lemma FirstWord()
    ensures V.INTERCEPTS_1 == InterceptWord(0x60, 32)
  {
    hide InterceptWord;
    Nibble(0x60, 28, 1);
    Nibble(0x64, 24, 0);
    Nibble(0x68, 20, 0);
    Nibble(0x6C, 16, 0);
    Nibble(0x70, 12, 4);
    Nibble(0x74, 8, 8);
    Nibble(0x78, 4, 9);
    Nibble(0x7C, 0, 9);
    NoWord(0x80);
  }

  lemma SecondWord()
    ensures V.INTERCEPTS_2 == InterceptWord(0x80, 32)
  {
    hide InterceptWord;
    Nibble(0x80, 28, 1);
    Nibble(0x84, 24, 0);
    Nibble(0x88, 20, 0);
    Nibble(0x8C, 16, 2);
    Nibble(0x90, 12, 0);
    Nibble(0x94, 8, 0);
    Nibble(0x98, 4, 0);
    Nibble(0x9C, 0, 0);
    NoWord(0xA0);
  }

  /** The two words intercept exactly what is wanted. */
  ghost predicate Intercepts(first: nat, second: nat) {
    && (forall k: nat :: Bit(first, k) <==> k < 32 && Wanted(0x60 + k))
    && (forall k: nat :: Bit(second, k) <==> k < 32 && Wanted(0x80 + k))
  }

  /** The control area: exactly the wanted exits are intercepted, the permission maps and the nested
      tables are the ones given, the guest has an ASID of its own and starts with an empty TLB,
      nested paging is on, and nothing waits to be injected. */
  ghost predicate ControlArea(page: V.Page, ncr3: u64, iopm: u64, msrpm: u64) {
    && Intercepts(Bytes.Read(page, 0x0C, 4), Bytes.Read(page, 0x10, 4))
    && V.Word(page, 0x40) == iopm && V.Word(page, 0x48) == msrpm
    && V.Word(page, 0x58) == 1 + 0x1_0000_0000
    && V.Word(page, 0x68) == 0 && V.Word(page, 0xA8) == 0
    && V.Word(page, 0x90) == 1 && V.Word(page, 0xB0) == ncr3
  }

  /** The registers: long mode with LME (8), LMA (10) and SVME (12) in EFER, PE (0), ET (4), NE (5) and
      PG (31) in CR0, PAE (5) in CR4; CR3 is the root that `init_guest_memory` builds. */
  ghost predicate SaveArea(page: V.Page, entryPoint: u64, rsp: u64) {
    LongMode(page) && RunState(page, entryPoint, rsp)
  }

  ghost predicate LongMode(page: V.Page) {
    && V.Word(page, 0x4D0) == 0x100 + 0x400 + 0x1000
    && V.Word(page, 0x558) == 0x1 + 0x10 + 0x20 + 0x8000_0000
    && V.Word(page, 0x548) == 0x20 && V.Word(page, 0x550) == BootMemory.BOOT_PML4 && V.Word(page, 0x640) == 0
  }

  /** Ring 0, interrupts off, and the reset values of the debug registers and the PAT. */
  ghost predicate RunState(page: V.Page, entryPoint: u64, rsp: u64) {
    && V.Word(page, 0x578) == entryPoint && V.Word(page, 0x5D8) == rsp && V.Word(page, 0x5F8) == 0
    && V.Word(page, 0x570) == 2 && Bytes.Read(page, 0x4CB, 1) == 0
    && V.Word(page, 0x560) == 0x400 && V.Word(page, 0x568) == 0xFFFF_0FF0
    && V.Word(page, 0x648) == 0x0007_0406_0007_0406
  }

  /** A segment register as the block holds it: selector, attributes, limit, base. */
  datatype Cached = Cached(selector: nat, attrib: nat, limit: nat, base: nat)

  /** Slot `i` of the save area, in the order ES, CS, SS, DS, FS, GS, GDTR, LDTR, IDTR, TR. */
  function Slot(page: V.Page, i: nat): Cached
    requires i < 10
  {
    var at := 0x400 + 0x10 * i;
    Cached(Bytes.Read(page, at, 2), Bytes.Read(page, at + 2, 2), Bytes.Read(page, at + 4, 4), Bytes.Read(page, at + 8, 8))
  }

  ghost predicate SegmentArea(page: V.Page) {
    FlatSegments(page) && SystemSegments(page)
  }

  ghost predicate FlatSegments(page: V.Page) {
    && Slot(page, 1) == Cached(8, 0xA9B, 0xF_FFFF, 0)
    && Slot(page, 0) == Slot(page, 2) == Slot(page, 3) == Slot(page, 4) == Slot(page, 5) == Cached(16, 0xC93, 0xF_FFFF, 0)
  }

  /** GDTR covers the three descriptors of the boot GDT; there is no IDT yet, a busy TSS, no LDT. */
  ghost predicate SystemSegments(page: V.Page) {
    && Slot(page, 6) == Cached(0, 0, 8 * 3 - 1, BootMemory.GDT_OFFSET)
    && Slot(page, 7) == Cached(0, 0, 0xFFFF, 0) && Slot(page, 8) == Cached(0, 0, 0xFFFF, 0)
    && Slot(page, 9) == Cached(0, 0x08B, 0xFFFF, 0)
  }

  /** What `setup_control` and `setup_guest` leave in the zeroed page. */
  ghost predicate Start(page: V.Page, ncr3: u64, iopm: u64, msrpm: u64, entryPoint: u64, rsp: u64) {
    ControlArea(page, ncr3, iopm, msrpm) && SaveArea(page, entryPoint, rsp) && SegmentArea(page)
  }

  lemma InitialStarts(page: V.Page, r: V.Record, ncr3: u64, iopm: u64, msrpm: u64, entryPoint: u64, rsp: u64)
    requires V.View(page) == V.Initial(r, ncr3, iopm, msrpm, entryPoint, rsp)
    requires V.At(r, V.EventInj) == 0 && V.At(r, V.IntState) == 0
    ensures Start(page, ncr3, iopm, msrpm, entryPoint, rsp)
  {
    hide ControlArea, LongMode, RunState, FlatSegments, SystemSegments;
    StartControls(page, r, ncr3, iopm, msrpm, entryPoint, rsp);
    StartLongMode(page, r, ncr3, iopm, msrpm, entryPoint, rsp);
    StartRunState(page, r, ncr3, iopm, msrpm, entryPoint, rsp);
    StartFlat(page, r, ncr3, iopm, msrpm, entryPoint, rsp);
    StartSystem(page, r, ncr3, iopm, msrpm, entryPoint, rsp);
  }

  lemma StartControls(page: V.Page, r: V.Record, ncr3: u64, iopm: u64, msrpm: u64, entryPoint: u64, rsp: u64)
    requires V.View(page) == V.Initial(r, ncr3, iopm, msrpm, entryPoint, rsp)
    requires V.At(r, V.EventInj) == 0 && V.At(r, V.IntState) == 0
    ensures ControlArea(page, ncr3, iopm, msrpm)
  {
    hide V.View, V.At, V.Initial, V.Word, Bytes.Read, Bit, InterceptWord, Wanted;
    V.Layout(page);
    V.SetupLayout(page);
    V.InitialAt(r, ncr3, iopm, msrpm, entryPoint, rsp, V.InterceptInstr1);
    V.InitialAt(r, ncr3, iopm, msrpm, entryPoint, rsp, V.InterceptInstr2);
    V.InitialAt(r, ncr3, iopm, msrpm, entryPoint, rsp, V.IopmBasePa);
    V.InitialAt(r, ncr3, iopm, msrpm, entryPoint, rsp, V.MsrpmBasePa);
    V.InitialAt(r, ncr3, iopm, msrpm, entryPoint, rsp, V.GuestAsid);
    V.InitialAt(r, ncr3, iopm, msrpm, entryPoint, rsp, V.IntState);
    V.InitialAt(r, ncr3, iopm, msrpm, entryPoint, rsp, V.EventInj);
    V.InitialAt(r, ncr3, iopm, msrpm, entryPoint, rsp, V.NpEnable);
    V.InitialAt(r, ncr3, iopm, msrpm, entryPoint, rsp, V.NCr3);
    InterceptConstants();
    forall k: nat
      ensures Bit(InterceptWord(0x60, 32), k) <==> k < 32 && Wanted(0x60 + k)
      ensures Bit(InterceptWord(0x80, 32), k) <==> k < 32 && Wanted(0x80 + k)
    {
      InterceptBit(0x60, 32, k);
      InterceptBit(0x80, 32, k);
    }
  }

  lemma StartLongMode(page: V.Page, r: V.Record, ncr3: u64, iopm: u64, msrpm: u64, entryPoint: u64, rsp: u64)
    requires V.View(page) == V.Initial(r, ncr3, iopm, msrpm, entryPoint, rsp)
    ensures LongMode(page)
  {
    hide V.View, V.At, V.Initial, V.Word, Bytes.Read;
    V.Layout(page);
    V.SetupLayout(page);
    V.InitialAt(r, ncr3, iopm, msrpm, entryPoint, rsp, V.Efer);
    V.InitialAt(r, ncr3, iopm, msrpm, entryPoint, rsp, V.Cr0);
    V.InitialAt(r, ncr3, iopm, msrpm, entryPoint, rsp, V.Cr2);
    V.InitialAt(r, ncr3, iopm, msrpm, entryPoint, rsp, V.Cr3);
    V.InitialAt(r, ncr3, iopm, msrpm, entryPoint, rsp, V.Cr4);
  }

  lemma StartRunState(page: V.Page, r: V.Record, ncr3: u64, iopm: u64, msrpm: u64, entryPoint: u64, rsp: u64)
    requires V.View(page) == V.Initial(r, ncr3, iopm, msrpm, entryPoint, rsp)
    ensures RunState(page, entryPoint, rsp)
  {
    hide V.View, V.At, V.Initial, V.Word, Bytes.Read;
    V.Layout(page);
    V.SetupLayout(page);
    V.InitialAt(r, ncr3, iopm, msrpm, entryPoint, rsp, V.Rip);
    V.InitialAt(r, ncr3, iopm, msrpm, entryPoint, rsp, V.Rsp);
    V.InitialAt(r, ncr3, iopm, msrpm, entryPoint, rsp, V.Rax);
    V.InitialAt(r, ncr3, iopm, msrpm, entryPoint, rsp, V.Rflags);
    V.InitialAt(r, ncr3, iopm, msrpm, entryPoint, rsp, V.Cpl);
    V.InitialAt(r, ncr3, iopm, msrpm, entryPoint, rsp, V.Dr6);
    V.InitialAt(r, ncr3, iopm, msrpm, entryPoint, rsp, V.Dr7);
    V.InitialAt(r, ncr3, iopm, msrpm, entryPoint, rsp, V.GPat);
  }

  lemma StartSegment(page: V.Page, r: V.Record, ncr3: u64, iopm: u64, msrpm: u64, entryPoint: u64, rsp: u64, s: V.Segment, i: nat)
    requires V.View(page) == V.Initial(r, ncr3, iopm, msrpm, entryPoint, rsp)
    requires i < 10 && s == [V.ES, V.CS, V.SS, V.DS, V.FS, V.GS, V.GDTR, V.LDTR, V.IDTR, V.TR][i]
    ensures Slot(page, i) == match s
                             case CS => Cached(8, 0xA9B, 0xF_FFFF, 0)
                             case TR => Cached(0, 0x08B, 0xFFFF, 0)
                             case LDTR => Cached(0, 0, 0xFFFF, 0)
                             case GDTR => Cached(0, 0, 23, 0x1000)
                             case IDTR => Cached(0, 0, 0xFFFF, 0)
                             case _ => Cached(16, 0xC93, 0xF_FFFF, 0)
  {
    hide V.View, V.At, V.Initial, Bytes.Read;
    V.SegmentLayout(page, s, i);
    V.InitialAt(r, ncr3, iopm, msrpm, entryPoint, rsp, V.Seg(s, V.Selector));
    V.InitialAt(r, ncr3, iopm, msrpm, entryPoint, rsp, V.Seg(s, V.Attrib));
    V.InitialAt(r, ncr3, iopm, msrpm, entryPoint, rsp, V.Seg(s, V.Limit));
    V.InitialAt(r, ncr3, iopm, msrpm, entryPoint, rsp, V.Seg(s, V.Base));
  }

  lemma StartFlat(page: V.Page, r: V.Record, ncr3: u64, iopm: u64, msrpm: u64, entryPoint: u64, rsp: u64)
    requires V.View(page) == V.Initial(r, ncr3, iopm, msrpm, entryPoint, rsp)
    ensures FlatSegments(page)
  {
    hide V.View, V.Initial, Slot;
    StartSegment(page, r, ncr3, iopm, msrpm, entryPoint, rsp, V.ES, 0);
    StartSegment(page, r, ncr3, iopm, msrpm, entryPoint, rsp, V.CS, 1);
    StartSegment(page, r, ncr3, iopm, msrpm, entryPoint, rsp, V.SS, 2);
    StartSegment(page, r, ncr3, iopm, msrpm, entryPoint, rsp, V.DS, 3);
    StartSegment(page, r, ncr3, iopm, msrpm, entryPoint, rsp, V.FS, 4);
    StartSegment(page, r, ncr3, iopm, msrpm, entryPoint, rsp, V.GS, 5);
  }

  lemma StartSystem(page: V.Page, r: V.Record, ncr3: u64, iopm: u64, msrpm: u64, entryPoint: u64, rsp: u64)
    requires V.View(page) == V.Initial(r, ncr3, iopm, msrpm, entryPoint, rsp)
    ensures SystemSegments(page)
  {
    hide V.View, V.Initial, Slot;
    StartSegment(page, r, ncr3, iopm, msrpm, entryPoint, rsp, V.GDTR, 6);
    StartSegment(page, r, ncr3, iopm, msrpm, entryPoint, rsp, V.LDTR, 7);
    StartSegment(page, r, ncr3, iopm, msrpm, entryPoint, rsp, V.IDTR, 8);
    StartSegment(page, r, ncr3, iopm, msrpm, entryPoint, rsp, V.TR, 9);
  }

  // --- The block and the guest's memory ---------------------------------------------------

  /** The parts of a segment descriptor: attributes in bits 55:52 and 47:40, the limit in bits 51:48
      and 15:0, the base in bits 63:56 and 39:16. */
  function Described(selector: nat, d: nat): Cached {
    Cached(selector, d / 0x100_0000_0000 % 0x100 + d / 0x10_0000_0000_0000 % 0x10 * 0x100,
           d % 0x1_0000 + d / 0x1_0000_0000_0000 % 0x10 * 0x1_0000,
           d / 0x1_0000 % 0x100_0000 + d / 0x100_0000_0000_0000 % 0x100 * 0x100_0000)
  }

  /** The segment registers the guest starts with are what loading their selectors from the GDT in
      its memory gives: GDTR points there, and every selector lies within its limit. */
  lemma SegmentsMatchGdt(page: V.Page, s: seq<u8>, i: nat)
    requires SegmentArea(page) && BootMemory.Gdt(s) && i < 6
    ensures var c, gdtr := Slot(page, i), Slot(page, 6);
            && c.selector % 8 == 0 && 0 < c.selector && c.selector + 7 <= gdtr.limit
            && gdtr.base + c.selector + 8 <= |s| && c == Described(c.selector, Bytes.Read(s, gdtr.base + c.selector, 8))
  {
    hide Slot, Bytes.Read;
    DescriptorParts();
    assert Slot(page, i) == if i == 1 then Cached(8, 0xA9B, 0xF_FFFF, 0) else Cached(16, 0xC93, 0xF_FFFF, 0);
    assert Bytes.Read(s, BootMemory.GDT_OFFSET + 8, 8) == BootMemory.EntryAt(s, BootMemory.GDT_OFFSET, 1);
    assert Bytes.Read(s, BootMemory.GDT_OFFSET + 16, 8) == BootMemory.EntryAt(s, BootMemory.GDT_OFFSET, 2);
  }

  lemma DescriptorParts()
    ensures Described(8, 0x00AF_9B00_0000_FFFF) == Cached(8, 0xA9B, 0xF_FFFF, 0)
    ensures Described(16, 0x00CF_9300_0000_FFFF) == Cached(16, 0xC93, 0xF_FFFF, 0)
  {
  }
}
