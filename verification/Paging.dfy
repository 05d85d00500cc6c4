/** What the processor sees when it walks 4-level paging structures: the entry
    formats of AMD nested paging (AMD64 APM volume 2, section 15.25), of Intel
    EPT (Intel SDM, section 29.3) and of ordinary long-mode paging, one walk over
    all three, and the shape every tree built by the hypervisor keeps. */
module Paging {
  import opened Bits
  import opened Options

  const PAGE: nat := 0x1000
  const ENTRY_COUNT: nat := 512
  const ADDR_MASK: nat := 0x000F_FFFF_FFFF_F000
  /** Number of 4 KiB pages in a 48-bit address space. */
  const PAGE_COUNT: nat := 0x10_0000_0000

  /** `LongMode` is the guest's own paging, walked in supervisor mode. */
  datatype Format = Npt | Ept | LongMode

  datatype Perms = Perms(read: bool, write: bool, exec: bool) {
    function Meet(p: Perms): Perms {
      Perms(read && p.read, write && p.write, exec && p.exec)
    }
  }

  const RWX := Perms(true, true, true)

  datatype Decoded = Absent | Denied | Next(table: nat, perms: Perms) | Leaf(page: nat, perms: Perms)

  /** `Wild` is a walk that reads a frame which holds no table of the tree. */
  datatype Outcome = Fault | Wild | Hit(page: nat, perms: Perms)

  /** `PRESENT | WRITE | USER`, resp. `READ | WRITE | EXECUTE`. */
  const TABLE_FLAGS: nat := 0x7

  /** Adds `ACCESSED | DIRTY`, resp. the write-back memory type. */
  function LeafFlags(fmt: Format): nat {
    if fmt.Ept? then 0x37 else 0x67
  }

  predicate IsFrame(a: nat) {
    a % PAGE == 0 && a < 0x10_0000_0000_0000
  }

  /** The bit of the given weight. */
  predicate Flag(e: u64, weight: nat)
    requires 0 < weight
  {
    e / weight % 2 == 1
  }

  const NO_EXECUTE: nat := 0x8000_0000_0000_0000

  function Decode(fmt: Format, level: nat, e: u64): Decoded {
    var target := And(e, ADDR_MASK);
    var f := e % PAGE;
    var last := level == 1 || (level < 4 && Flag(f, 0x80));
    match fmt
    case Npt =>
      if !Flag(f, 1) then Absent
      else if !Flag(f, 4) || (level == 4 && Flag(f, 0x80)) then Denied
      else Entry(last, target, Perms(true, Flag(f, 2), !Flag(e, NO_EXECUTE)))
    case Ept =>
      if !Flag(f, 1) && !Flag(f, 2) && !Flag(f, 4) then Absent
      else if !Flag(f, 1) && Flag(f, 2) then Denied
      else if last && !MemoryType(f / 8 % 8) then Denied
      else if !last && f / 8 % 16 != 0 then Denied
      else if level == 4 && Flag(f, 0x80) then Denied
      else Entry(last, target, Perms(Flag(f, 1), Flag(f, 2), Flag(f, 4)))
    case LongMode =>
      if !Flag(f, 1) then Absent
      else if level == 4 && Flag(f, 0x80) then Denied
      else Entry(last, target, Perms(true, Flag(f, 2), !Flag(e, NO_EXECUTE)))
  }

  function Entry(last: bool, target: nat, perms: Perms): Decoded {
    if last then Leaf(target, perms) else Next(target, perms)
  }

  /** The EPT memory types: UC, WC, WT, WP and WB. */
  predicate MemoryType(t: nat) {
    t == 0 || t == 1 || t == 4 || t == 5 || t == 6
  }

  /** Pages covered by one table of the given level. */
  function Span(level: nat): nat {
    if level == 0 then 1 else if level == 1 then 0x200 else if level == 2 then 0x4_0000
    else if level == 3 then 0x800_0000 else 0x10_0000_0000
  }

  /** The entry of a `level` table that page number `n` goes through. */
  function Index(n: nat, level: nat): (i: nat)
    requires 1 <= level
    ensures i < ENTRY_COUNT
  {
    n / Span(level - 1) % ENTRY_COUNT
  }

  type Reader = (nat, nat) -> Option<u64>

  /** The walk of page number `n`, standing at table `table`. */
  function Walk(fmt: Format, read: Reader, table: nat, level: nat, n: nat, perms: Perms): Outcome
    requires 1 <= level <= 4
    decreases level
  {
    match read(table, Index(n, level))
    case None => Wild
    case Some(e) =>
      match Decode(fmt, level, e)
      case Absent => Fault
      case Denied => Fault
      case Leaf(page, p) => Hit(LeafPage(page, level, n), perms.Meet(p))
      case Next(t, p) => if level == 1 then Fault else Walk(fmt, read, t, level - 1, n, perms.Meet(p))
  }

  /** The 4 KiB page of `n` within a leaf of the given level. */
  function LeafPage(page: nat, level: nat, n: nat): nat
    requires 1 <= level
  {
    if level == 1 then page
    else
      var size := Span(level - 1) * PAGE;
      page / size * size + n % Span(level - 1) * PAGE
  }

  type Mem = map<nat, seq<u64>>

  function TableReader(mem: Mem): Reader {
    (t: nat, i: nat) => if t in mem && i < |mem[t]| then Some(mem[t][i]) else None
  }

  function WalkTables(fmt: Format, mem: Mem, table: nat, level: nat, n: nat): Outcome
    requires 1 <= level <= 4
  {
    Walk(fmt, TableReader(mem), table, level, n, RWX)
  }

  // --- Entries ------------------------------------------------------------------

  lemma AddrField(e: nat, k: nat)
    requires k == 0
    ensures And(e, ADDR_MASK) == e / PAGE % 0x100_0000_0000 * PAGE
  {
    PagePowers(k);
    AndFieldArithmetic(e, k + 12, k + 40, PAGE, 0x100_0000_0000, ADDR_MASK);
  }

  lemma OrFlags(frame: nat, flags: nat, k: nat)
    requires k == 0
    requires frame % PAGE == 0 && flags < PAGE
    ensures Or(frame, flags) == frame + flags
  {
    PagePowers(k);
    Arithmetic(frame, k + 12, PAGE);
    Arithmetic(flags, k + 12, PAGE);
    OrDisjoint(frame, flags, k + 12);
  }

  /** Flags added one after the other only combine among themselves. */
  lemma OrMoreFlags(frame: nat, f: nat, g: nat, k: nat)
    requires k == 0
    requires frame % PAGE == 0 && f < PAGE && g < PAGE
    ensures Or(frame + f, g) == frame + Or(f, g)
  {
    PagePowers(k);
    Arithmetic(frame / PAGE, k + 12, PAGE);
    Arithmetic(f, k + 12, PAGE);
    Arithmetic(g, k + 12, PAGE);
    OrLow(frame / PAGE, f, g, k + 12);
  }

  /** A frame combined with flags gives both back: the frame through the mask,
      the flags below it. */
  lemma EntryRoundTrip(frame: nat, flags: nat)
    requires IsFrame(frame) && flags < PAGE
    ensures Or(frame, flags) == frame + flags < 0x10_0000_0000_0000
    ensures And(Or(frame, flags), ADDR_MASK) == frame && Or(frame, flags) % PAGE == flags
  {
    hide And, Or;
    OrFlags(frame, flags, 0);
    AddrField(frame + flags, 0);
    var q := frame / PAGE;
    assert frame == PAGE * q && q < 0x100_0000_0000;
    QuotientIs(frame + flags, PAGE, q, flags);
  }

  predicate Nested(fmt: Format) {
    fmt.Npt? || fmt.Ept?
  }

  /** Reading back what `new`, `child_or_alloc` and `map_page` store. */
  lemma DecodeTable(fmt: Format, level: nat, frame: nat)
    requires Nested(fmt) && IsFrame(frame) && 2 <= level <= 4
    ensures Or(frame, TABLE_FLAGS) < WORD && And(Or(frame, TABLE_FLAGS), 1) != 0
    ensures Decode(fmt, level, Or(frame, TABLE_FLAGS)) == Next(frame, RWX)
  {
    hide And, Or;
    EntryRoundTrip(frame, TABLE_FLAGS);
    AndOne(frame + TABLE_FLAGS);
    var q := frame / PAGE;
    assert frame + TABLE_FLAGS == 2 * (0x800 * q + 3) + 1;
  }

  lemma DecodeLeaf(fmt: Format, frame: nat)
    requires Nested(fmt) && IsFrame(frame)
    ensures Or(frame, LeafFlags(fmt)) < WORD
    ensures Decode(fmt, 1, Or(frame, LeafFlags(fmt))) == Leaf(frame, RWX)
  {
    hide And, Or;
    EntryRoundTrip(frame, LeafFlags(fmt));
    LowFlags(frame, LeafFlags(fmt));
  }

  /** The no-execute bit of an entry made from a frame is clear. */
  lemma LowFlags(frame: nat, flags: nat)
    requires IsFrame(frame) && flags < PAGE
    ensures frame + flags < WORD && !Flag(frame + flags, NO_EXECUTE)
  {
    QuotientIs(frame + flags, NO_EXECUTE, 0, frame + flags);
  }

  /** `map_page` ORs in whatever address it is given: the page then maps to that address if and
      only if it is a frame. */
  lemma LeafExact(fmt: Format, hpa: u64)
    requires Nested(fmt)
    ensures Or(hpa, LeafFlags(fmt)) < WORD
    ensures Decode(fmt, 1, Or(hpa, LeafFlags(fmt))) == Leaf(hpa, RWX) <==> IsFrame(hpa)
  {
    hide Or, And, Ones;
    LeafFits(hpa, LeafFlags(fmt), 0);
    AddrField(Or(hpa, LeafFlags(fmt)), 0);
    if IsFrame(hpa) {
      DecodeLeaf(fmt, hpa);
    }
  }

  lemma LeafFits(hpa: u64, flags: nat, k: nat)
    requires k == 0 && flags < PAGE
    ensures Or(hpa, flags) < WORD
  {
    hide Or, Ones;
    var l := hpa % PAGE;
    PagePowers(k);
    OrMoreFlags(hpa - l, l, flags, k);
    OrFits(l, flags, k + 12);
  }

  lemma DecodeEmpty(fmt: Format, level: nat)
    ensures Decode(fmt, level, 0) == Absent
  {
  }

  /** Every entry the code writes has the access rights in bits 2:0. A leaf has beside them, in EPT
      format, the write-back memory type in bits 5:3, and in NPT format the accessed and dirty bits 6:5. */
  lemma EntryBits(fmt: Format, frame: nat)
    requires IsFrame(frame)
    ensures var e := Or(frame, LeafFlags(fmt));
            e % 8 == 7 && e / 8 % 0x10 == if fmt.Ept? then 6 else 12
    ensures Or(frame, TABLE_FLAGS) % PAGE == 7
  {
    hide Or, And;
    EntryRoundTrip(frame, LeafFlags(fmt));
    EntryRoundTrip(frame, TABLE_FLAGS);
    Division(frame, PAGE);
    LeafBits(frame / PAGE, if fmt.Ept? then 6 else 12);
  }

  lemma LeafBits(q: nat, t: nat)
    requires t < 0x10
    ensures (PAGE * q + 8 * t + 7) % 8 == 7 && (PAGE * q + 8 * t + 7) / 8 % 0x10 == t
  {
    QuotientIs(PAGE * q + 8 * t + 7, 8, 0x200 * q + t, 7);
    QuotientIs(0x200 * q + t, 0x10, 0x20 * q, t);
  }

  // --- Trees ---------------------------------------------------------------------

  /** A table that covers the pages `n` with `n / Span(level) == prefix`. */
  datatype Role = Role(level: nat, prefix: nat)

  /** What an entry of a tree may be: empty, a leaf in a lowest-level table, or a
      pointer to the one table that covers this entry's pages. */
  ghost predicate EntryOk(fmt: Format, roles: map<nat, Role>, r: Role, i: nat, e: u64) {
    || e == 0
    || (r.level == 1 && exists h :: IsFrame(h) && e == Or(h, LeafFlags(fmt)))
    || (2 <= r.level && exists t ::
          && t in roles && IsFrame(t) && e == Or(t, TABLE_FLAGS)
          && roles[t] == Role(r.level - 1, r.prefix * ENTRY_COUNT + i))
  }

  ghost predicate TreeOk(fmt: Format, mem: Mem, roles: map<nat, Role>) {
    && Nested(fmt)
    && (forall t :: t in roles ==> t in mem && IsFrame(t) && |mem[t]| == ENTRY_COUNT && 1 <= roles[t].level <= 4)
    && (forall t, i :: t in roles && 0 <= i < ENTRY_COUNT ==> EntryOk(fmt, roles, roles[t], i, mem[t][i]))
  }

  /** In an EPT tree, every page is mapped write-back: bits 5:3 of its entry are 6. */
  lemma LeavesWriteBack(mem: Mem, roles: map<nat, Role>, t: nat, i: nat)
    requires TreeOk(Ept, mem, roles) && t in roles && roles[t].level == 1 && i < ENTRY_COUNT && mem[t][i] != 0
    ensures mem[t][i] / 8 % 0x10 == 6
  {
    hide Or, IsFrame;
    assert EntryOk(Ept, roles, roles[t], i, mem[t][i]);
    var h: nat :| IsFrame(h) && mem[t][i] == Or(h, LeafFlags(Ept));
    EntryBits(Ept, h);
  }

  /** The table `t` stands on the path of page `n`. */
  ghost predicate OnPath(roles: map<nat, Role>, t: nat, level: nat, n: nat) {
    t in roles && roles[t] == Role(level, n / Span(level))
  }

  lemma PrefixStep(n: nat, level: nat)
    requires 1 <= level <= 4
    ensures n / Span(level) * ENTRY_COUNT + Index(n, level) == n / Span(level - 1)
  {
  }

  /** One step of a walk in a well-formed tree. */
  lemma Step(fmt: Format, mem: Mem, roles: map<nat, Role>, t: nat, level: nat, n: nat) returns (e: u64)
    requires TreeOk(fmt, mem, roles) && 1 <= level <= 4 && OnPath(roles, t, level, n)
    ensures TableReader(mem)(t, Index(n, level)) == Some(e) && e == mem[t][Index(n, level)]
    ensures var d := Decode(fmt, level, e);
            || (e == 0 && d == Absent)
            || (level == 1 && d.Leaf? && d.perms == RWX)
            || (2 <= level && d.Next? && d.perms == RWX && OnPath(roles, d.table, level - 1, n))
  {
    e := mem[t][Index(n, level)];
    PrefixStep(n, level);
    assert EntryOk(fmt, roles, roles[t], Index(n, level), e);
    DecodeEmpty(fmt, level);
    if e != 0 {
      if level == 1 {
        var h :| IsFrame(h) && e == Or(h, LeafFlags(fmt));
        DecodeLeaf(fmt, h);
      } else {
        var c :| c in roles && IsFrame(c) && e == Or(c, TABLE_FLAGS)
                 && roles[c] == Role(level - 1, roles[t].prefix * ENTRY_COUNT + Index(n, level));
        DecodeTable(fmt, level, c);
      }
    }
  }

  /** No walk of a well-formed tree leaves its tables, and whatever it maps is
      readable, writable and executable. */
  lemma {:induction false} NeverWild(fmt: Format, mem: Mem, roles: map<nat, Role>, t: nat, level: nat, n: nat)
    requires TreeOk(fmt, mem, roles) && 1 <= level <= 4 && OnPath(roles, t, level, n)
    ensures var w := WalkTables(fmt, mem, t, level, n); w == Fault || (w.Hit? && w.perms == RWX)
    decreases level
  {
    var e := Step(fmt, mem, roles, t, level, n);
    var d := Decode(fmt, level, e);
    if d.Next? {
      NeverWild(fmt, mem, roles, d.table, level - 1, n);
    }
  }

  function WithEntry(row: seq<u64>, i: nat, e: u64): seq<u64>
    requires i < |row|
  {
    row[i := e]
  }

  function SetEntry(mem: Mem, t: nat, i: nat, e: u64): Mem
    requires t in mem && i < |mem[t]|
  {
    mem[t := WithEntry(mem[t], i, e)]
  }

  /** Storing a leaf keeps the tree well formed and changes no other page. */
  lemma {:induction false} SetLeafFrame(fmt: Format, mem: Mem, roles: map<nat, Role>, pt: nat, i: nat, h: nat,
                                        t: nat, level: nat, n: nat)
    requires TreeOk(fmt, mem, roles) && 1 <= level <= 4 && OnPath(roles, t, level, n)
    requires pt in roles && roles[pt].level == 1 && i < ENTRY_COUNT && IsFrame(h)
    requires n != roles[pt].prefix * ENTRY_COUNT + i
    requires Or(h, LeafFlags(fmt)) < WORD
    ensures WalkTables(fmt, SetEntry(mem, pt, i, Or(h, LeafFlags(fmt))), t, level, n) == WalkTables(fmt, mem, t, level, n)
    decreases level
  {
    var e := Step(fmt, mem, roles, t, level, n);
    PrefixStep(n, level);
    var d := Decode(fmt, level, e);
    if d.Next? {
      SetLeafFrame(fmt, mem, roles, pt, i, h, d.table, level - 1, n);
    }
  }

  lemma SetLeafKeepsTree(fmt: Format, mem: Mem, roles: map<nat, Role>, pt: nat, i: nat, h: nat)
    requires TreeOk(fmt, mem, roles)
    requires pt in roles && roles[pt].level == 1 && i < ENTRY_COUNT && IsFrame(h)
    requires Or(h, LeafFlags(fmt)) < WORD
    ensures TreeOk(fmt, SetEntry(mem, pt, i, Or(h, LeafFlags(fmt))), roles)
  {
  }

  function EmptyTable(): (row: seq<u64>)
    ensures |row| == ENTRY_COUNT && forall i :: 0 <= i < ENTRY_COUNT ==> row[i] == 0
  {
    seq(ENTRY_COUNT, i => 0)
  }

  /** Linking an empty table into an empty slot. */
  function LinkTable(mem: Mem, parent: nat, i: nat, t: nat): Mem
    requires parent in mem && t != parent && i < |mem[parent]| && Or(t, TABLE_FLAGS) < WORD
  {
    SetEntry(mem[t := EmptyTable()], parent, i, Or(t, TABLE_FLAGS))
  }

  function ChildRole(r: Role, i: nat): Role
    requires 2 <= r.level
  {
    Role(r.level - 1, r.prefix * ENTRY_COUNT + i)
  }

  ghost predicate CanLink(fmt: Format, mem: Mem, roles: map<nat, Role>, parent: nat, i: nat, t: nat) {
    && TreeOk(fmt, mem, roles)
    && parent in roles && 2 <= roles[parent].level && i < ENTRY_COUNT && mem[parent][i] == 0
    && t !in mem && IsFrame(t) && Or(t, TABLE_FLAGS) < WORD
  }

  /** An entry stays right when tables are added. */
  lemma EntryStays(fmt: Format, roles: map<nat, Role>, roles': map<nat, Role>, r: Role, i: nat, e: u64)
    requires EntryOk(fmt, roles, r, i, e)
    requires forall t :: t in roles ==> t in roles' && roles'[t] == roles[t]
    ensures EntryOk(fmt, roles', r, i, e)
  {
    hide Or;
  }

  lemma EmptyEntryOk(fmt: Format, roles: map<nat, Role>, r: Role, i: nat)
    ensures EntryOk(fmt, roles, r, i, 0)
  {
  }

  lemma ChildLevel(r: Role, i: nat)
    requires 2 <= r.level <= 4
    ensures 1 <= ChildRole(r, i).level <= 4
  {
  }

  lemma TableEntryOk(fmt: Format, roles: map<nat, Role>, r: Role, i: nat, t: nat)
    requires 2 <= r.level && t in roles && roles[t] == ChildRole(r, i) && IsFrame(t) && Or(t, TABLE_FLAGS) < WORD
    ensures EntryOk(fmt, roles, r, i, Or(t, TABLE_FLAGS))
  {
    hide Or;
  }

  lemma LinkKeepsTree(fmt: Format, mem: Mem, roles: map<nat, Role>, parent: nat, i: nat, t: nat)
    requires CanLink(fmt, mem, roles, parent, i, t)
    ensures TreeOk(fmt, LinkTable(mem, parent, i, t), roles[t := ChildRole(roles[parent], i)])
  {
    hide Or, EntryOk, ChildRole, IsFrame;
    var mem' := LinkTable(mem, parent, i, t);
    var roles' := roles[t := ChildRole(roles[parent], i)];
    ChildLevel(roles[parent], i);
    forall s, k | s in roles' && 0 <= k < ENTRY_COUNT
      ensures EntryOk(fmt, roles', roles'[s], k, mem'[s][k])
    {
      if s == t {
        EmptyEntryOk(fmt, roles', roles'[s], k);
      } else if s == parent && k == i {
        TableEntryOk(fmt, roles', roles[s], k, t);
      } else {
        EntryStays(fmt, roles, roles', roles[s], k, mem[s][k]);
      }
    }
  }

  lemma {:induction false} LinkFrame(fmt: Format, mem: Mem, roles: map<nat, Role>, parent: nat, i: nat, c: nat,
                                     t: nat, level: nat, n: nat)
    requires CanLink(fmt, mem, roles, parent, i, c)
    requires 1 <= level <= 4 && OnPath(roles, t, level, n)
    ensures WalkTables(fmt, LinkTable(mem, parent, i, c), t, level, n) == WalkTables(fmt, mem, t, level, n)
    decreases level
  {
    hide Decode, And, Or, Walk, TreeOk, Index;
    var e := Step(fmt, mem, roles, t, level, n);
    var d := Decode(fmt, level, e);
    CanLinkFacts(fmt, mem, roles, parent, i, c);
    DecodeEmpty(fmt, level);
    var read, read' := TableReader(mem), TableReader(LinkTable(mem, parent, i, c));
    LinkEntry(fmt, mem, roles, parent, i, c, t, level, Index(n, level));
    if d.Next? {
      LinkFrame(fmt, mem, roles, parent, i, c, d.table, level - 1, n);
      StepNext(fmt, read, t, level, n, e, d.table);
      StepNext(fmt, read', t, level, n, e, d.table);
    } else if d.Leaf? {
      StepLeaf(fmt, read, t, level, n, e, d.page);
      StepLeaf(fmt, read', t, level, n, e, d.page);
    } else if t == parent && Index(n, level) == i {
      DecodeTable(fmt, level, c);
      DecodeEmpty(fmt, level - 1);
      StepAbsent(fmt, read, t, level, n, e);
      StepNext(fmt, read', t, level, n, Or(c, TABLE_FLAGS), c);
      StepAbsent(fmt, read', c, level - 1, n, 0);
    } else {
      StepAbsent(fmt, read, t, level, n, e);
      StepAbsent(fmt, read', t, level, n, e);
    }
  }

  lemma CanLinkFacts(fmt: Format, mem: Mem, roles: map<nat, Role>, parent: nat, i: nat, c: nat)
    requires CanLink(fmt, mem, roles, parent, i, c)
    ensures Nested(fmt) && parent in mem && c != parent && |mem[parent]| == ENTRY_COUNT
  {
  }

  /** What the processor reads of a tree after a link. */
  lemma LinkEntry(fmt: Format, mem: Mem, roles: map<nat, Role>, parent: nat, i: nat, c: nat, t: nat, level: nat, k: nat)
    requires CanLink(fmt, mem, roles, parent, i, c) && t in roles && roles[t].level == level && k < ENTRY_COUNT
    ensures var read' := TableReader(LinkTable(mem, parent, i, c));
            && t in mem && k < |mem[t]|
            && read'(t, k) == Some(if t == parent && k == i then Or(c, TABLE_FLAGS) else mem[t][k])
            && (t == parent && k == i ==> level >= 2 && mem[t][k] == 0)
    ensures forall j: nat :: j < ENTRY_COUNT ==> TableReader(LinkTable(mem, parent, i, c))(c, j) == Some(0)
  {
    hide Decode, And, Or, EntryOk;
  }

  /** A frame outside the tree is never looked at. */
  lemma {:induction false} SpareFrame(fmt: Format, mem: Mem, roles: map<nat, Role>, s: nat, t: nat, level: nat, n: nat)
    requires TreeOk(fmt, mem, roles) && s !in roles
    requires 1 <= level <= 4 && OnPath(roles, t, level, n)
    ensures WalkTables(fmt, mem[s := EmptyTable()], t, level, n) == WalkTables(fmt, mem, t, level, n)
    decreases level
  {
    var e := Step(fmt, mem, roles, t, level, n);
    var d := Decode(fmt, level, e);
    if d.Next? {
      SpareFrame(fmt, mem, roles, s, d.table, level - 1, n);
    }
  }

  // --- Single steps of a walk ------------------------------------------------------

  lemma StepNext(fmt: Format, read: Reader, t: nat, level: nat, n: nat, e: u64, child: nat)
    requires 2 <= level <= 4 && read(t, Index(n, level)) == Some(e) && Decode(fmt, level, e) == Next(child, RWX)
    ensures Walk(fmt, read, t, level, n, RWX) == Walk(fmt, read, child, level - 1, n, RWX)
  {
  }

  lemma StepLeaf(fmt: Format, read: Reader, t: nat, level: nat, n: nat, e: u64, page: nat)
    requires 1 <= level <= 4 && read(t, Index(n, level)) == Some(e) && Decode(fmt, level, e) == Leaf(page, RWX)
    ensures Walk(fmt, read, t, level, n, RWX) == Hit(LeafPage(page, level, n), RWX)
  {
  }

  lemma StepAbsent(fmt: Format, read: Reader, t: nat, level: nat, n: nat, e: u64)
    requires 1 <= level <= 4 && read(t, Index(n, level)) == Some(e) && Decode(fmt, level, e) == Absent
    ensures Walk(fmt, read, t, level, n, RWX) == Fault
  {
  }

  // --- Following a known path ------------------------------------------------------

  lemma Follow(fmt: Format, mem: Mem, t: nat, level: nat, n: nat, child: nat)
    requires Nested(fmt) && 2 <= level <= 4 && IsFrame(child)
    requires t in mem && |mem[t]| == ENTRY_COUNT && mem[t][Index(n, level)] == Or(child, TABLE_FLAGS)
    ensures WalkTables(fmt, mem, t, level, n) == WalkTables(fmt, mem, child, level - 1, n)
  {
    DecodeTable(fmt, level, child);
  }

  lemma FollowLeaf(fmt: Format, mem: Mem, t: nat, n: nat, h: nat)
    requires Nested(fmt) && IsFrame(h)
    requires t in mem && |mem[t]| == ENTRY_COUNT && mem[t][Index(n, 1)] == Or(h, LeafFlags(fmt))
    ensures WalkTables(fmt, mem, t, 1, n) == Hit(h, RWX)
  {
    DecodeLeaf(fmt, h);
  }

  lemma FollowEmpty(fmt: Format, mem: Mem, t: nat, level: nat, n: nat)
    requires Nested(fmt) && 1 <= level <= 4
    requires t in mem && |mem[t]| == ENTRY_COUNT && mem[t][Index(n, level)] == 0
    ensures WalkTables(fmt, mem, t, level, n) == Fault
  {
    DecodeEmpty(fmt, level);
  }
}
