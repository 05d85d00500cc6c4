/** The address translation a booting guest experiences: its own page tables lie in
    guest-physical memory, so each of their entries is read through the nested
    tables, and so is the page they finally name. */
module TwoDimensional {
  import opened Bits
  import opened Bytes
  import opened Options
  import opened Paging
  import opened NestedTables
  import opened NestedBuild
  import opened Vm
  import opened BootMemory

  /** Host-physical memory, byte by byte. */
  type HostBytes = nat -> u8

  function WordOf(host: HostBytes, a: nat): nat {
    Value(seq(8, (i: nat) => host(a + i)))
  }

  /** Entry `i` of the guest table at guest-physical address `t`. */
  function GuestReader(nested: Tree, host: HostBytes): Reader {
    (t: nat, i: nat) => GuestEntry(nested, host, t + 8 * i)
  }

  function GuestEntry(nested: Tree, host: HostBytes, gpa: nat): Option<u64> {
    match nested.Translate(gpa / PAGE)
    case Hit(page, _) =>
      var w := WordOf(host, page + gpa % PAGE);
      if w < WORD then Some(w) else None
    case Fault => None
    case Wild => None
  }

  /** The host page that guest-virtual page `n` reaches. */
  function Translate2(nested: Tree, host: HostBytes, cr3: nat, n: nat): Outcome {
    match Walk(LongMode, GuestReader(nested, host), cr3, 4, n, RWX)
    case Fault => Fault
    case Wild => Wild
    case Hit(gpa, p) =>
      match nested.Translate(gpa / PAGE)
      case Fault => Fault
      case Wild => Wild
      case Hit(page, q) => Hit(page, p.Meet(q))
  }

  /** The guest's memory `s` lies in the frames of `backing`. */
  ghost predicate Resident(host: HostBytes, s: seq<u8>, backing: Backing) {
    && |s| == PAGE * |backing|
    && (forall p :: 0 <= p < |backing| ==> backing[p].Some? && IsFrame(backing[p].value))
    && (forall a :: 0 <= a < |s| ==> s[a] == host(backing[a / PAGE].value + a % PAGE))
  }

  /** A word of guest memory, read through the nested tables. */
  lemma ReadThrough(nested: Tree, host: HostBytes, s: seq<u8>, backing: Backing, calls: seq<Call>, gpa: nat)
    requires Resident(host, s, backing) && Denotes(nested, backing, calls) && AboveRam(calls)
    requires gpa % 8 == 0 && gpa + 8 <= |s| && |backing| <= Span(2)
    ensures GuestEntry(nested, host, gpa) == Some(Read(s, gpa, 8))
  {
    hide WordOf, Walk, Value, AboveRam, Resident, Space, Tree.Translate;
    ResidentPage(host, s, backing, gpa);
    LowSpace(backing, calls, gpa / PAGE);
    assert nested.Translate(gpa / PAGE) == Hit(backing[gpa / PAGE].value, RWX);
    WordInPage(host, s, backing, gpa);
    EncodeOfValue(s[gpa..gpa + 8]);
    EightBytes(Read(s, gpa, 8));
  }

  lemma ResidentPage(host: HostBytes, s: seq<u8>, backing: Backing, a: nat)
    requires Resident(host, s, backing) && a < |s|
    ensures a / PAGE < |backing| && backing[a / PAGE].Some?
  {
    Division(a, PAGE);
  }

  lemma WordInPage(host: HostBytes, s: seq<u8>, backing: Backing, gpa: nat)
    requires Resident(host, s, backing) && gpa % 8 == 0 && gpa + 8 <= |s|
    ensures WordOf(host, backing[gpa / PAGE].value + gpa % PAGE) == Read(s, gpa, 8)
  {
    var a := backing[gpa / PAGE].value + gpa % PAGE;
    var bytes := seq(8, (i: nat) => host(a + i));
    forall i | 0 <= i < 8
      ensures bytes[i] == s[gpa..gpa + 8][i]
    {
      SamePage(gpa, i);
      assert s[gpa + i] == host(backing[(gpa + i) / PAGE].value + (gpa + i) % PAGE);
    }
    assert bytes == s[gpa..gpa + 8];
  }

  lemma SamePage(gpa: nat, i: nat)
    requires gpa % 8 == 0 && i < 8
    ensures (gpa + i) / PAGE == gpa / PAGE && (gpa + i) % PAGE == gpa % PAGE + i
  {
    var q := gpa / 8;
    assert gpa == 8 * q && gpa / PAGE == q / 0x200 && gpa % PAGE == 8 * (q % 0x200);
  }

  lemma EightBytes(v: nat)
    requires Fits(v, 8)
    ensures v < WORD
  {
    var a := v / 0x100 / 0x100 / 0x100 / 0x100;
    assert Fits(a, 4);
  }

  /** The calls only map pages outside the first 1 GiB. */
  ghost predicate AboveRam(calls: seq<Call>) {
    forall c :: c in calls ==> Span(2) <= PageOf(c.gpa)
  }

  lemma {:induction false} LowSpace(backing: Backing, calls: seq<Call>, n: nat)
    requires AboveRam(calls) && n < Span(2)
    ensures Space(backing, calls, n) == Ram(backing, n)
    decreases |calls|
  {
    if calls != [] {
      assert calls[|calls| - 1] in calls;
      LowSpace(backing, calls[..|calls| - 1], n);
    }
  }

  // --- The guest's own tables ---------------------------------------------------------

  lemma DecodeLink(level: nat, frame: nat)
    requires 3 <= level <= 4 && IsFrame(frame)
    ensures frame + 3 < WORD && Decode(LongMode, level, frame + 3) == Next(frame, RWX)
  {
    EntryRoundTrip(frame, 3);
    hide Or, And;
  }

  lemma DecodeHuge(i: nat)
    requires i < ENTRY_COUNT
    ensures i * 0x20_0000 + 0x83 < WORD && Decode(LongMode, 2, i * 0x20_0000 + 0x83) == Leaf(i * 0x20_0000, RWX)
  {
    hide Or, And;
    assert i * 0x20_0000 == PAGE * (0x200 * i);
    QuotientIs(i * 0x20_0000, PAGE, 0x200 * i, 0);
    EntryRoundTrip(i * 0x20_0000, 0x83);
  }

  ghost predicate Booted(nested: Tree, host: HostBytes, s: seq<u8>, backing: Backing, calls: seq<Call>) {
    && Resident(host, s, backing) && Denotes(nested, backing, calls) && AboveRam(calls)
    && BootTables(s) && |backing| <= Span(2)
  }

  /** The boot tables map the first 1 GiB onto itself, and nothing else. */
  lemma BootWalk(nested: Tree, host: HostBytes, s: seq<u8>, backing: Backing, calls: seq<Call>, n: nat)
    requires Booted(nested, host, s, backing, calls) && n < PAGE_COUNT
    ensures Walk(LongMode, GuestReader(nested, host), BOOT_PML4, 4, n, RWX)
            == if n < Span(2) then Hit(n * PAGE, RWX) else Fault
  {
    hide Booted, Decode, LeafPage;
    TopIndices(n);
    var read := GuestReader(nested, host);
    BootEntry(nested, host, s, backing, calls, BOOT_PML4, Index(n, 4));
    BootEntry(nested, host, s, backing, calls, BOOT_PDPTE, Index(n, 3));
    BootEntry(nested, host, s, backing, calls, BOOT_PDE, Index(n, 2));
    DecodeHuge(Index(n, 2));
    if Index(n, 4) != 0 {
      DecodeEmpty(LongMode, 4);
      StepAbsent(LongMode, read, BOOT_PML4, 4, n, 0);
    } else {
      DecodeLink(4, BOOT_PDPTE);
      StepNext(LongMode, read, BOOT_PML4, 4, n, BOOT_PDPTE + 3, BOOT_PDPTE);
      if Index(n, 3) != 0 {
        DecodeEmpty(LongMode, 3);
        StepAbsent(LongMode, read, BOOT_PDPTE, 3, n, 0);
      } else {
        DecodeLink(3, BOOT_PDE);
        StepNext(LongMode, read, BOOT_PDPTE, 3, n, BOOT_PDE + 3, BOOT_PDE);
        StepLeaf(LongMode, read, BOOT_PDE, 2, n, Index(n, 2) * 0x20_0000 + 0x83, Index(n, 2) * 0x20_0000);
        HugePage(n);
      }
    }
  }

  /** What the processor reads at entry `i` of each boot table. */
  lemma BootEntry(nested: Tree, host: HostBytes, s: seq<u8>, backing: Backing, calls: seq<Call>, base: nat, i: nat)
    requires Booted(nested, host, s, backing, calls) && i < ENTRY_COUNT
    requires base == BOOT_PML4 || base == BOOT_PDPTE || base == BOOT_PDE
    ensures base == BOOT_PML4 ==> GuestReader(nested, host)(base, i) == Some(if i == 0 then BOOT_PDPTE + 3 else 0)
    ensures base == BOOT_PDPTE ==> GuestReader(nested, host)(base, i) == Some(if i == 0 then BOOT_PDE + 3 else 0)
    ensures base == BOOT_PDE ==> GuestReader(nested, host)(base, i) == Some(i * 0x20_0000 + 0x83)
  {
    hide Denotes, Resident, AboveRam, GuestEntry, Read;
    ReadThrough(nested, host, s, backing, calls, base + 8 * i);
    assert EntryAt(s, base, i) == Read(s, base + 8 * i, 8);
  }

  lemma HugePage(n: nat)
    requires n < Span(2)
    ensures LeafPage(Index(n, 2) * 0x20_0000, 2, n) == n * PAGE
  {
  }

  /** End to end: a guest-virtual page reaches its page of the guest buffer, and every
      other guest-virtual page faults. */
  lemma EndToEnd(nested: Tree, host: HostBytes, s: seq<u8>, backing: Backing, calls: seq<Call>, n: nat)
    requires Booted(nested, host, s, backing, calls) && n < PAGE_COUNT
    ensures Translate2(nested, host, BOOT_PML4, n) == if n < |backing| then Hit(backing[n].value, RWX) else Fault
  {
    hide BootTables, Walk, AboveRam;
    BootWalk(nested, host, s, backing, calls, n);
    if n < Span(2) {
      LowSpace(backing, calls, n);
    }
  }

  /** The guest's memory is initialised and its machine built, in the order of the
      hypervisor's start-up: whatever frames the buffer lies in, the guest finds its
      memory mapped one to one, and nothing beyond it. */
  method Boot(mem: array<u8>, host: Host, fmt: Format, backing: Backing) returns (r: Result<Machine>)
    requires host.Valid() && Nested(fmt) && Backed(backing) && TableCount(backing) <= ENTRY_COUNT
    requires BOOT_END <= mem.Length == PAGE * |backing| && mem != host.words as object
    modifies mem, host, host.words
    ensures Gdt(mem[..]) && Untouched(old(mem[..]), mem[..])
    ensures r.Ok? ==> forall bytes: HostBytes, n: nat :: Resident(bytes, mem[..], backing) && n < PAGE_COUNT ==>
              Translate2(r.value.paging.View(), bytes, BOOT_PML4, n) == Ram(backing, n)
  {
    hide BootTables, Gdt, Untouched, Denotes, Resident, Translate2, Host.Valid, Backed, AboveRam, PageOf;
    InitGuestMemory(mem);
    r := Vm.New(host, fmt, backing);
    if r.Ok? {
      ghost var view := r.value.paging.View();
      ghost var calls := ApicCalls(r.value.apicFrame, r.value.ioapicFrame);
      ApicsAboveRam(r.value.apicFrame, r.value.ioapicFrame);
      forall bytes: HostBytes, n: nat | Resident(bytes, mem[..], backing) && n < PAGE_COUNT
        ensures Translate2(view, bytes, BOOT_PML4, n) == Ram(backing, n)
      {
        ResidentRam(bytes, mem[..], backing, n);
        EndToEnd(view, bytes, mem[..], backing, calls, n);
      }
    }
  }

  lemma ApicsAboveRam(apic: nat, ioapic: nat)
    ensures AboveRam(ApicCalls(apic, ioapic))
  {
    ApicsMappable();
  }

  lemma ResidentRam(host: HostBytes, s: seq<u8>, backing: Backing, n: nat)
    requires Resident(host, s, backing)
    ensures Ram(backing, n) == if n < |backing| then Hit(backing[n].value, RWX) else Fault
  {
  }
}
