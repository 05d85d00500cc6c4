/** The AMD-V control block: a 4 KiB page of bytes, which behaves as a record of named
    fields because no two of them overlap. */
module Vmcb {
  import opened Bits
  import opened Bytes

  const SIZE: nat := 0x1000

  datatype Segment = ES | CS | SS | DS | FS | GS | GDTR | LDTR | IDTR | TR
  datatype Part = Selector | Attrib | Limit | Base

  datatype Field =
    | InterceptInstr1 | InterceptInstr2 | IopmBasePa | MsrpmBasePa | GuestAsid | IntState
    | ExitCode | ExitInfo1 | ExitInfo2 | NpEnable | EventInj | NCr3
    | Seg(segment: Segment, part: Part)
    | Cpl | Efer | Cr4 | Cr3 | Cr0 | Dr7 | Dr6 | Rflags | Rip | Rsp | Rax | Cr2 | GPat

  function SegmentOffset(s: Segment): nat {
    match s
    case ES => 0x400 case CS => 0x410 case SS => 0x420 case DS => 0x430 case FS => 0x440
    case GS => 0x450 case GDTR => 0x460 case LDTR => 0x470 case IDTR => 0x480 case TR => 0x490
  }

  function PartOffset(p: Part): nat {
    match p case Selector => 0 case Attrib => 2 case Limit => 4 case Base => 8
  }

  function PartWidth(p: Part): nat {
    match p case Selector => 2 case Attrib => 2 case Limit => 4 case Base => 8
  }

  function Offset(f: Field): nat {
    match f
    case InterceptInstr1 => 0x00C case InterceptInstr2 => 0x010
    case IopmBasePa => 0x040 case MsrpmBasePa => 0x048 case GuestAsid => 0x058 case IntState => 0x068
    case ExitCode => 0x070 case ExitInfo1 => 0x078 case ExitInfo2 => 0x080 case NpEnable => 0x090
    case EventInj => 0x0A8 case NCr3 => 0x0B0
    case Seg(s, p) => SegmentOffset(s) + PartOffset(p)
    case Cpl => 0x4CB case Efer => 0x4D0 case Cr4 => 0x548 case Cr3 => 0x550 case Cr0 => 0x558
    case Dr7 => 0x560 case Dr6 => 0x568 case Rflags => 0x570 case Rip => 0x578 case Rsp => 0x5D8
    case Rax => 0x5F8 case Cr2 => 0x640 case GPat => 0x648
  }

  function Width(f: Field): nat {
    match f
    case InterceptInstr1 => 4
    case InterceptInstr2 => 4
    case Seg(_, p) => PartWidth(p)
    case Cpl => 1
    case _ => 8
  }

  lemma InPage(f: Field)
    ensures Offset(f) + Width(f) <= SIZE
  {
  }

  /** No two fields overlap. */
  lemma Disjoint(f: Field, g: Field)
    requires f != g
    ensures Offset(f) + Width(f) <= Offset(g) || Offset(g) + Width(g) <= Offset(f)
  {
  }

  // --- The page as a record ------------------------------------------------------------

  type Page = s: seq<u8> | |s| == SIZE witness seq(SIZE, i => 0)

  function Get(page: Page, f: Field): nat {
    InPage(f);
    Read(page, Offset(f), Width(f))
  }

  ghost predicate FitsIn(f: Field, v: nat) {
    Fits(v, Width(f))
  }

  function Put(page: Page, f: Field, v: nat): Page {
    InPage(f);
    Write(page, Offset(f), v, Width(f))
  }

  lemma PutGet(page: Page, f: Field, v: nat, g: Field)
    requires FitsIn(f, v)
    ensures Get(Put(page, f, v), g) == if g == f then v else Get(page, g)
  {
    hide Offset, Width, Read, Write;
    InPage(f);
    InPage(g);
    if g == f {
      ReadWritten(page, Offset(f), v, Width(f));
    } else {
      Disjoint(f, g);
      ReadElsewhere(page, Offset(f), v, Width(f), Offset(g), Width(g));
    }
  }

  /** A 64-bit field reads as a 64-bit word. */
  lemma FieldIsWord(page: Page, f: Field)
    ensures Width(f) == 8 ==> Get(page, f) < WORD
  {
    InPage(f);
    EncodeOfValue(page[Offset(f)..Offset(f) + Width(f)]);
    if Width(f) == 8 {
      FitsEight(Get(page, f));
    }
  }

  lemma ZeroField(page: Page, f: Field)
    requires forall i :: 0 <= i < SIZE ==> page[i] == 0
    ensures At(View(page), f) == 0
  {
    hide Offset, Width;
    InPage(f);
    var field := page[Offset(f)..Offset(f) + Width(f)];
    forall i | 0 <= i < |field|
      ensures field[i] == 0
    {
      assert field[i] == page[Offset(f) + i];
    }
    ZeroValue(field);
    ViewAt(page, f);
  }

  lemma FitsEight(v: nat)
    ensures Fits(v, 8) <==> v < WORD
  {
    if v < WORD {
      WordFits(v);
    } else {
      var a := v / 0x100 / 0x100 / 0x100 / 0x100;
      assert a >= 0x1_0000_0000;
      assert !Fits(a, 4);
    }
  }

  const FS_BASE := Seg(FS, Base)
  const GS_BASE := Seg(GS, Base)

  /** The page as a record: a value for every field. */
  type Record = imap<Field, nat>

  ghost function View(page: Page): Record {
    imap f: Field :: Get(page, f)
  }

  lemma ViewAt(page: Page, f: Field)
    ensures At(View(page), f) == Get(page, f)
  {
  }

  ghost function At(r: Record, f: Field): nat {
    if f in r then r[f] else 0
  }

  /** The 64-bit word at an offset of the page. */
  function Word(page: Page, off: nat): nat
    requires off + 8 <= SIZE
  {
    Read(page, off, 8)
  }

  lemma FieldBytes(page: Page, f: Field)
    ensures Offset(f) + Width(f) <= SIZE && At(View(page), f) == Read(page, Offset(f), Width(f))
  {
    InPage(f);
  }

  /** The layout of the page in appendix B of volume 2 of the AMD64 Architecture Programmer's
      Manual, as far as the run loop reads and writes it. */
  lemma Layout(page: Page)
    ensures var v := View(page);
            && At(v, IntState) == Word(page, 0x68) && At(v, EventInj) == Word(page, 0xA8)
            && At(v, ExitCode) == Word(page, 0x70) && At(v, ExitInfo1) == Word(page, 0x78) && At(v, ExitInfo2) == Word(page, 0x80)
            && At(v, Efer) == Word(page, 0x4D0) && At(v, FS_BASE) == Word(page, 0x448) && At(v, GS_BASE) == Word(page, 0x458)
            && At(v, Rflags) == Word(page, 0x570) && At(v, Rip) == Word(page, 0x578)
            && At(v, Rsp) == Word(page, 0x5D8) && At(v, Rax) == Word(page, 0x5F8)
  {
    hide At, View, Read;
    FieldBytes(page, IntState);
    FieldBytes(page, EventInj);
    FieldBytes(page, ExitCode);
    FieldBytes(page, ExitInfo1);
    FieldBytes(page, ExitInfo2);
    FieldBytes(page, Efer);
    FieldBytes(page, FS_BASE);
    FieldBytes(page, GS_BASE);
    FieldBytes(page, Rflags);
    FieldBytes(page, Rip);
    FieldBytes(page, Rsp);
    FieldBytes(page, Rax);
  }

  /** The same for the fields that are written once, at set-up. */
  lemma SetupLayout(page: Page)
    ensures var v := View(page);
            && At(v, InterceptInstr1) == Read(page, 0x0C, 4) && At(v, InterceptInstr2) == Read(page, 0x10, 4)
            && At(v, IopmBasePa) == Word(page, 0x40) && At(v, MsrpmBasePa) == Word(page, 0x48)
            && At(v, GuestAsid) == Word(page, 0x58) && At(v, NpEnable) == Word(page, 0x90) && At(v, NCr3) == Word(page, 0xB0)
            && At(v, Cpl) == Read(page, 0x4CB, 1) && At(v, Cr0) == Word(page, 0x558)
            && At(v, Cr2) == Word(page, 0x640) && At(v, Cr3) == Word(page, 0x550) && At(v, Cr4) == Word(page, 0x548)
            && At(v, Dr6) == Word(page, 0x568) && At(v, Dr7) == Word(page, 0x560) && At(v, GPat) == Word(page, 0x648)
  {
    hide At, View, Read;
    FieldBytes(page, InterceptInstr1);
    FieldBytes(page, InterceptInstr2);
    FieldBytes(page, IopmBasePa);
    FieldBytes(page, MsrpmBasePa);
    FieldBytes(page, GuestAsid);
    FieldBytes(page, NpEnable);
    FieldBytes(page, NCr3);
    FieldBytes(page, Cpl);
    FieldBytes(page, Cr0);
    FieldBytes(page, Cr2);
    FieldBytes(page, Cr3);
    FieldBytes(page, Cr4);
    FieldBytes(page, Dr6);
    FieldBytes(page, Dr7);
    FieldBytes(page, GPat);
  }

  /** A segment register takes sixteen bytes, in the processor's order of the registers. */
  lemma SegmentLayout(page: Page, s: Segment, i: nat)
    requires i < 10 && s == [ES, CS, SS, DS, FS, GS, GDTR, LDTR, IDTR, TR][i]
    ensures var v, at := View(page), 0x400 + 0x10 * i;
            && At(v, Seg(s, Selector)) == Read(page, at, 2) && At(v, Seg(s, Attrib)) == Read(page, at + 2, 2)
            && At(v, Seg(s, Limit)) == Read(page, at + 4, 4) && At(v, Seg(s, Base)) == Read(page, at + 8, 8)
  {
    hide Read;
  }

  /** Storing a field at its offset is updating the record. */
  lemma PutIsUpdate(page: Page, f: Field, v: nat)
    requires FitsIn(f, v)
    ensures View(Put(page, f, v)) == View(page)[f := v]
  {
    hide Get, Put, FitsIn;
    forall g: Field
      ensures Get(Put(page, f, v), g) == if g == f then v else Get(page, g)
    {
      PutGet(page, f, v, g);
    }
  }

  class Vmcb {
    const data: array<u8>

    ghost predicate Valid() {
      data.Length == SIZE
    }

    ghost function Record(): Record
      requires Valid()
      reads data
    {
      View(data[..])
    }

    /** A zeroed page: every field is zero. */
    constructor ()
      ensures Valid() && fresh(data)
      ensures forall f :: At(Record(), f) == 0
    {
      data := new u8[SIZE](_ => 0);
      new;
      forall f ensures At(View(data[..]), f) == 0 {
        ZeroField(data[..], f);
      }
    }

    method ReadU64(f: Field) returns (v: u64)
      requires Valid() && Width(f) == 8
      ensures v == At(Record(), f)
    {
      InPage(f);
      FieldIsWord(data[..], f);
      ViewAt(data[..], f);
      v := Bytes.Load(data, Offset(f), Width(f));
    }

    method WriteField(f: Field, v: nat)
      requires Valid() && FitsIn(f, v)
      modifies data
      ensures Record() == old(Record())[f := v]
    {
      InPage(f);
      PutIsUpdate(data[..], f, v);
      Bytes.Store(data, Offset(f), v, Width(f));
    }

    method WriteU64(f: Field, v: u64)
      requires Valid() && Width(f) == 8
      modifies data
      ensures Record() == old(Record())[f := v]
    {
      FitsEight(v);
      WriteField(f, v);
    }

    method WriteSegment(s: Segment, selector: u16, attrib: u16, limit: u32, base: u64)
      requires Valid()
      modifies data
      ensures Record() == WithSegment(old(Record()), s, selector, attrib, limit, base)
    {
      hide View, Offset;
      WriteField(Seg(s, Selector), selector);
      WriteField(Seg(s, Attrib), attrib);
      WriteField(Seg(s, Limit), limit);
      WriteU64(Seg(s, Base), base);
    }

    method SetupControl(ncr3: u64, iopm: u64, msrpm: u64)
      requires Valid()
      modifies data
      ensures Record() == Controls(old(Record()), ncr3, iopm, msrpm)
    {
      hide View, Offset;
      WriteField(InterceptInstr1, INTERCEPTS_1);
      WriteField(InterceptInstr2, INTERCEPTS_2);
      WriteU64(IopmBasePa, iopm);
      WriteU64(MsrpmBasePa, msrpm);
      WriteU64(GuestAsid, 0x1_0000_0001);
      WriteU64(NpEnable, 1);
      WriteU64(NCr3, ncr3);
    }

    method SetupSegments()
      requires Valid()
      modifies data
      ensures Record() == Segments(old(Record()))
    {
      hide View, Offset, WithSegment;
      WriteSegment(CS, 0x08, 0xA9B, 0xF_FFFF, 0);
      WriteSegment(SS, 0x10, 0xC93, 0xF_FFFF, 0);
      WriteSegment(DS, 0x10, 0xC93, 0xF_FFFF, 0);
      WriteSegment(ES, 0x10, 0xC93, 0xF_FFFF, 0);
      WriteSegment(FS, 0x10, 0xC93, 0xF_FFFF, 0);
      WriteSegment(GS, 0x10, 0xC93, 0xF_FFFF, 0);
      WriteSegment(TR, 0, 0x08B, 0xFFFF, 0);
      WriteSegment(LDTR, 0, 0, 0xFFFF, 0);
      WriteSegment(GDTR, 0, 0, 23, 0x1000);
      WriteSegment(IDTR, 0, 0, 0xFFFF, 0);
    }

    method SetupRegisters(entryPoint: u64, rsp: u64)
      requires Valid()
      modifies data
      ensures Record() == RunRegisters(old(Record()), entryPoint, rsp)
    {
      hide View, Offset;
      WriteU64(Efer, EFER_BOOT);
      WriteU64(Dr7, 0x400);
      WriteU64(Dr6, 0xFFFF_0FF0);
      WriteU64(Rflags, 2);
      WriteU64(Rip, entryPoint);
      WriteU64(Rsp, rsp);
      WriteU64(Rax, 0);
      WriteU64(GPat, 0x0007_0406_0007_0406);
    }

    method SetupGuest(entryPoint: u64, rsp: u64)
      requires Valid()
      modifies data
      ensures Record() == RunRegisters(ControlRegisters(Segments(old(Record()))), entryPoint, rsp)
    {
      hide View, Offset, Segments, RunRegisters;
      SetupSegments();
      WriteField(Cpl, 0);
      WriteU64(Cr0, CR0_BOOT);
      WriteU64(Cr3, 0x1_0000);
      WriteU64(Cr4, 0x20);
      WriteU64(Cr2, 0);
      SetupRegisters(entryPoint, rsp);
    }
  }

  // --- The initial contents ------------------------------------------------------------

  /** INTR | CPUID | HLT | PAUSE | IOIO | MSR | SHUTDOWN. */
  const INTERCEPTS_1: nat := 0x9984_0001
  /** VMRUN | XSETBV. */
  const INTERCEPTS_2: nat := 0x2001
  /** PE | ET | NE | PG. */
  const CR0_BOOT: u64 := 0x8000_0031
  /** LME | LMA | SVME. */
  const EFER_BOOT: u64 := 0x1500

  ghost function WithSegment(r: Record, s: Segment, selector: nat, attrib: nat, limit: nat, base: nat): Record {
    r[Seg(s, Selector) := selector][Seg(s, Attrib) := attrib][Seg(s, Limit) := limit][Seg(s, Base) := base]
  }

  ghost function Controls(r: Record, ncr3: u64, iopm: u64, msrpm: u64): Record {
    r[InterceptInstr1 := INTERCEPTS_1][InterceptInstr2 := INTERCEPTS_2][IopmBasePa := iopm][MsrpmBasePa := msrpm]
     [GuestAsid := 0x1_0000_0001][NpEnable := 1][NCr3 := ncr3]
  }

  ghost function CodeAndData(r: Record): Record {
    var r1 := WithSegment(r, CS, 0x08, 0xA9B, 0xF_FFFF, 0);
    var r2 := WithSegment(r1, SS, 0x10, 0xC93, 0xF_FFFF, 0);
    var r3 := WithSegment(r2, DS, 0x10, 0xC93, 0xF_FFFF, 0);
    var r4 := WithSegment(r3, ES, 0x10, 0xC93, 0xF_FFFF, 0);
    var r5 := WithSegment(r4, FS, 0x10, 0xC93, 0xF_FFFF, 0);
    WithSegment(r5, GS, 0x10, 0xC93, 0xF_FFFF, 0)
  }

  ghost function Segments(r: Record): Record {
    var r1 := WithSegment(CodeAndData(r), TR, 0, 0x08B, 0xFFFF, 0);
    var r2 := WithSegment(r1, LDTR, 0, 0, 0xFFFF, 0);
    WithSegment(WithSegment(r2, GDTR, 0, 0, 23, 0x1000), IDTR, 0, 0, 0xFFFF, 0)
  }

  ghost function ControlRegisters(r: Record): Record {
    r[Cpl := 0][Cr0 := CR0_BOOT][Cr3 := 0x1_0000][Cr4 := 0x20][Cr2 := 0]
  }

  ghost function RunRegisters(r: Record, entryPoint: u64, rsp: u64): Record {
    r[Efer := EFER_BOOT][Dr7 := 0x400][Dr6 := 0xFFFF_0FF0][Rflags := 2][Rip := entryPoint][Rsp := rsp][Rax := 0]
     [GPat := 0x0007_0406_0007_0406]
  }

  /** The control block of a new vCPU, from the zeroed one `r`. */
  ghost function Initial(r: Record, ncr3: u64, iopm: u64, msrpm: u64, entryPoint: u64, rsp: u64): Record {
    RunRegisters(ControlRegisters(Segments(Controls(r, ncr3, iopm, msrpm))), entryPoint, rsp)
  }

  // --- The initial contents, field by field ---------------------------------------------

  lemma UpdateAt(r: Record, f: Field, v: nat, g: Field)
    ensures At(r[f := v], g) == if g == f then v else At(r, g)
  {
  }

  function FourParts(p: Part, selector: nat, attrib: nat, limit: nat, base: nat): nat {
    match p case Selector => selector case Attrib => attrib case Limit => limit case Base => base
  }

  lemma WithSegmentAt(r: Record, s: Segment, selector: nat, attrib: nat, limit: nat, base: nat, f: Field)
      returns (r': Record)
    ensures r' == WithSegment(r, s, selector, attrib, limit, base)
    ensures At(r', f) == if f.Seg? && f.segment == s then FourParts(f.part, selector, attrib, limit, base) else At(r, f)
  {
    r' := WithSegment(r, s, selector, attrib, limit, base);
    hide WithSegment, FourParts, At;
    if f.Seg? && f.segment == s {
      SegmentPart(r, s, selector, attrib, limit, base, f.part);
    } else {
      SegmentOther(r, s, selector, attrib, limit, base, f);
    }
  }

  lemma SegmentPart(r: Record, s: Segment, selector: nat, attrib: nat, limit: nat, base: nat, p: Part)
    ensures At(WithSegment(r, s, selector, attrib, limit, base), Seg(s, p)) == FourParts(p, selector, attrib, limit, base)
  {
    match p case Selector => case Attrib => case Limit => case Base =>
  }

  lemma SegmentOther(r: Record, s: Segment, selector: nat, attrib: nat, limit: nat, base: nat, f: Field)
    requires !(f.Seg? && f.segment == s)
    ensures At(WithSegment(r, s, selector, attrib, limit, base), f) == At(r, f)
  {
  }

  lemma CodeAndDataAt(r: Record, f: Field)
    ensures At(CodeAndData(r), f) ==
            if !f.Seg? || f.segment in {TR, LDTR, GDTR, IDTR} then At(r, f)
            else if f.segment == CS then FourParts(f.part, 0x08, 0xA9B, 0xF_FFFF, 0)
            else FourParts(f.part, 0x10, 0xC93, 0xF_FFFF, 0)
  {
    hide WithSegment, At, FourParts;
    var r1 := WithSegmentAt(r, CS, 0x08, 0xA9B, 0xF_FFFF, 0, f);
    var r2 := WithSegmentAt(r1, SS, 0x10, 0xC93, 0xF_FFFF, 0, f);
    var r3 := WithSegmentAt(r2, DS, 0x10, 0xC93, 0xF_FFFF, 0, f);
    var r4 := WithSegmentAt(r3, ES, 0x10, 0xC93, 0xF_FFFF, 0, f);
    var r5 := WithSegmentAt(r4, FS, 0x10, 0xC93, 0xF_FFFF, 0, f);
    var r6 := WithSegmentAt(r5, GS, 0x10, 0xC93, 0xF_FFFF, 0, f);
  }

  /** The segment set-up: 64-bit code and flat data, a busy TSS, the boot GDT, no IDT. */
  lemma SegmentsAt(r: Record, f: Field)
    ensures At(Segments(r), f) ==
            match f
            case Seg(CS, p) => FourParts(p, 0x08, 0xA9B, 0xF_FFFF, 0)
            case Seg(TR, p) => FourParts(p, 0, 0x08B, 0xFFFF, 0)
            case Seg(LDTR, p) => FourParts(p, 0, 0, 0xFFFF, 0)
            case Seg(GDTR, p) => FourParts(p, 0, 0, 23, 0x1000)
            case Seg(IDTR, p) => FourParts(p, 0, 0, 0xFFFF, 0)
            case Seg(_, p) => FourParts(p, 0x10, 0xC93, 0xF_FFFF, 0)
            case _ => At(r, f)
  {
    hide WithSegment, At, FourParts, CodeAndData;
    CodeAndDataAt(r, f);
    var r1 := WithSegmentAt(CodeAndData(r), TR, 0, 0x08B, 0xFFFF, 0, f);
    var r2 := WithSegmentAt(r1, LDTR, 0, 0, 0xFFFF, 0, f);
    var r3 := WithSegmentAt(r2, GDTR, 0, 0, 23, 0x1000, f);
    var r4 := WithSegmentAt(r3, IDTR, 0, 0, 0xFFFF, 0, f);
  }

  lemma ControlsAt(r: Record, ncr3: u64, iopm: u64, msrpm: u64, f: Field)
    ensures At(Controls(r, ncr3, iopm, msrpm), f) ==
            match f
            case InterceptInstr1 => INTERCEPTS_1 case InterceptInstr2 => INTERCEPTS_2
            case IopmBasePa => iopm case MsrpmBasePa => msrpm
            case GuestAsid => 0x1_0000_0001 case NpEnable => 1 case NCr3 => ncr3
            case _ => At(r, f)
  {
  }

  lemma ControlRegistersAt(r: Record, f: Field)
    ensures At(ControlRegisters(r), f) ==
            match f
            case Cpl => 0 case Cr0 => CR0_BOOT case Cr3 => 0x1_0000 case Cr4 => 0x20 case Cr2 => 0
            case _ => At(r, f)
  {
  }

  lemma RunRegistersAt(r: Record, entryPoint: u64, rsp: u64, f: Field)
    ensures At(RunRegisters(r, entryPoint, rsp), f) ==
            match f
            case Efer => EFER_BOOT case Dr7 => 0x400 case Dr6 => 0xFFFF_0FF0 case Rflags => 2
            case Rip => entryPoint case Rsp => rsp case Rax => 0 case GPat => 0x0007_0406_0007_0406
            case _ => At(r, f)
  {
  }

  /** Every field of a new control block. */
  lemma InitialAt(r: Record, ncr3: u64, iopm: u64, msrpm: u64, entryPoint: u64, rsp: u64, f: Field)
    ensures At(Initial(r, ncr3, iopm, msrpm, entryPoint, rsp), f) ==
            match f
            case Cpl => 0 case Cr0 => CR0_BOOT case Cr3 => 0x1_0000 case Cr4 => 0x20 case Cr2 => 0
            case Efer => EFER_BOOT case Dr7 => 0x400 case Dr6 => 0xFFFF_0FF0 case Rflags => 2
            case Rip => entryPoint case Rsp => rsp case Rax => 0 case GPat => 0x0007_0406_0007_0406
            case InterceptInstr1 => INTERCEPTS_1 case InterceptInstr2 => INTERCEPTS_2
            case IopmBasePa => iopm case MsrpmBasePa => msrpm
            case GuestAsid => 0x1_0000_0001 case NpEnable => 1 case NCr3 => ncr3
            case Seg(CS, p) => FourParts(p, 0x08, 0xA9B, 0xF_FFFF, 0)
            case Seg(TR, p) => FourParts(p, 0, 0x08B, 0xFFFF, 0)
            case Seg(LDTR, p) => FourParts(p, 0, 0, 0xFFFF, 0)
            case Seg(GDTR, p) => FourParts(p, 0, 0, 23, 0x1000)
            case Seg(IDTR, p) => FourParts(p, 0, 0, 0xFFFF, 0)
            case Seg(_, p) => FourParts(p, 0x10, 0xC93, 0xF_FFFF, 0)
            case _ => At(r, f)
  {
    hide At, RunRegisters, ControlRegisters, Segments, Controls, FourParts;
    var c := Controls(r, ncr3, iopm, msrpm);
    ControlsAt(r, ncr3, iopm, msrpm, f);
    SegmentsAt(c, f);
    ControlRegistersAt(Segments(c), f);
    RunRegistersAt(ControlRegisters(Segments(c)), entryPoint, rsp, f);
  }
}
