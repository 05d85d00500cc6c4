/** The guest's boot memory (`init_guest_memory`): a GDT, and page tables that map the
    first 1 GiB onto itself. */
module BootMemory {
  import opened Bits
  import opened Bytes
  import opened Paging

  const GDT_OFFSET: nat := 0x1000
  const BOOT_PML4: nat := 0x1_0000
  const BOOT_PDPTE: nat := 0x1_1000
  const BOOT_PDE: nat := 0x1_2000
  /** End of the last structure written. */
  const BOOT_END: nat := 0x1_3000

  /** Entry `i` of the table at `base`. */
  function EntryAt(s: seq<u8>, base: nat, i: nat): nat
    requires base + 8 * i + 8 <= |s|
  {
    Read(s, base + 8 * i, 8)
  }

  /** A table of 512 entries whose first entry is `first` and whose others are zero. */
  ghost predicate SingleEntry(s: seq<u8>, base: nat, first: nat) {
    && base + PAGE <= |s|
    && (forall i :: 0 <= i < ENTRY_COUNT ==> EntryAt(s, base, i) == if i == 0 then first else 0)
  }

  /** The page directory: entry `i` maps the `i`-th 2 MiB onto themselves. */
  ghost predicate Identity(s: seq<u8>, base: nat, count: nat) {
    && base + PAGE <= |s| && count <= ENTRY_COUNT
    && (forall i :: 0 <= i < count ==> EntryAt(s, base, i) == i * 0x20_0000 + 0x83)
  }

  ghost predicate Gdt(s: seq<u8>) {
    && GDT_OFFSET + 24 <= |s|
    && EntryAt(s, GDT_OFFSET, 0) == 0
    && EntryAt(s, GDT_OFFSET, 1) == 0x00AF_9B00_0000_FFFF
    && EntryAt(s, GDT_OFFSET, 2) == 0x00CF_9300_0000_FFFF
  }

  ghost predicate BootTables(s: seq<u8>) {
    && SingleEntry(s, BOOT_PML4, BOOT_PDPTE + 3)
    && SingleEntry(s, BOOT_PDPTE, BOOT_PDE + 3)
    && Identity(s, BOOT_PDE, ENTRY_COUNT)
  }

  /** The bytes `init_guest_memory` may change. */
  predicate Reserved(off: nat) {
    GDT_OFFSET <= off < GDT_OFFSET + 24 || BOOT_PML4 <= off < BOOT_END
  }

  ghost predicate Untouched(s: seq<u8>, t: seq<u8>) {
    |s| == |t| && forall off :: 0 <= off < |s| && !Reserved(off) ==> t[off] == s[off]
  }

  lemma SlotsApart(base: nat, i: nat, base': nat, i': nat)
    requires base % PAGE == 0 && base' % PAGE == 0 && i < ENTRY_COUNT && i' < ENTRY_COUNT
    requires base != base' || i != i'
    ensures base + 8 * i + 8 <= base' + 8 * i' || base' + 8 * i' + 8 <= base + 8 * i
  {
    Division(base, PAGE);
    Division(base', PAGE);
  }

  /** Writing entry `i` of a table changes that entry and no other. */
  lemma EntryWritten(s: seq<u8>, base: nat, i: nat, v: u64, base': nat, i': nat)
    requires base % PAGE == 0 && base' % PAGE == 0 && i < ENTRY_COUNT && i' < ENTRY_COUNT
    requires base + PAGE <= |s| && base' + PAGE <= |s|
    ensures EntryAt(Write(s, base + 8 * i, v, 8), base', i')
            == if base == base' && i == i' then v else EntryAt(s, base', i')
  {
    hide Write, Read;
    if base == base' && i == i' {
      WordFits(v);
      ReadWritten(s, base + 8 * i, v, 8);
    } else {
      SlotsApart(base, i, base', i');
      ReadElsewhere(s, base + 8 * i, v, 8, base' + 8 * i', 8);
    }
  }

  /** What storing entry `i` of the table at `base` does to every table entry. */
  ghost predicate Put(s: seq<u8>, t: seq<u8>, base: nat, i: nat, v: nat) {
    && |s| == |t|
    && (forall b: nat, k: nat :: b % PAGE == 0 && b + PAGE <= |s| && k < ENTRY_COUNT ==>
          EntryAt(t, b, k) == if b == base && k == i then v else EntryAt(s, b, k))
    && (forall off :: 0 <= off < |s| && !(base + 8 * i <= off < base + 8 * i + 8) ==> t[off] == s[off])
  }

  method WriteEntry(mem: array<u8>, base: nat, i: nat, v: u64)
    requires base % PAGE == 0 && base + PAGE <= mem.Length && i < ENTRY_COUNT
    modifies mem
    ensures Put(old(mem[..]), mem[..], base, i, v)
  {
    ghost var s := mem[..];
    Bytes.Store(mem, base + 8 * i, v, 8);
    forall b: nat, k: nat | b % PAGE == 0 && b + PAGE <= |s| && k < ENTRY_COUNT
      ensures EntryAt(mem[..], b, k) == if b == base && k == i then v else EntryAt(s, b, k)
    {
      EntryWritten(s, base, i, v, b, k);
    }
  }

  ghost predicate Zeros(s: seq<u8>, base: nat, count: nat) {
    && base + PAGE <= |s| && count <= ENTRY_COUNT
    && (forall i :: 0 <= i < count ==> EntryAt(s, base, i) == 0)
  }

  /** A step that leaves the untouched bytes and the GDT alone. */
  lemma PutKeeps(s0: seq<u8>, s: seq<u8>, t: seq<u8>, base: nat, i: nat, v: nat)
    requires Untouched(s0, s) && Put(s, t, base, i, v) && BOOT_END <= |s| && i < ENTRY_COUNT
    requires base == BOOT_PML4 || base == BOOT_PDPTE || base == BOOT_PDE
    ensures Untouched(s0, t) && (Gdt(s) ==> Gdt(t))
  {
  }

  method WriteGdt(mem: array<u8>)
    requires BOOT_END <= mem.Length
    modifies mem
    ensures Gdt(mem[..]) && Untouched(old(mem[..]), mem[..])
  {
    WriteEntry(mem, GDT_OFFSET, 0, 0);
    WriteEntry(mem, GDT_OFFSET, 1, 0x00AF_9B00_0000_FFFF);
    WriteEntry(mem, GDT_OFFSET, 2, 0x00CF_9300_0000_FFFF);
  }

  method ClearTables(mem: array<u8>)
    requires BOOT_END <= mem.Length && Gdt(mem[..])
    modifies mem
    ensures Gdt(mem[..]) && Untouched(old(mem[..]), mem[..])
    ensures Zeros(mem[..], BOOT_PML4, ENTRY_COUNT) && Zeros(mem[..], BOOT_PDPTE, ENTRY_COUNT)
  {
    for i := 0 to ENTRY_COUNT
      invariant Gdt(mem[..]) && Untouched(old(mem[..]), mem[..])
      invariant Zeros(mem[..], BOOT_PML4, i) && Zeros(mem[..], BOOT_PDPTE, i)
    {
      ghost var s := mem[..];
      WriteEntry(mem, BOOT_PML4, i, 0);
      PutKeeps(old(mem[..]), s, mem[..], BOOT_PML4, i, 0);
      ghost var t := mem[..];
      WriteEntry(mem, BOOT_PDPTE, i, 0);
      PutKeeps(old(mem[..]), t, mem[..], BOOT_PDPTE, i, 0);
    }
  }

  method LinkTables(mem: array<u8>)
    requires BOOT_END <= mem.Length && Gdt(mem[..])
    requires Zeros(mem[..], BOOT_PML4, ENTRY_COUNT) && Zeros(mem[..], BOOT_PDPTE, ENTRY_COUNT)
    modifies mem
    ensures Gdt(mem[..]) && Untouched(old(mem[..]), mem[..])
    ensures SingleEntry(mem[..], BOOT_PML4, BOOT_PDPTE + 3) && SingleEntry(mem[..], BOOT_PDPTE, BOOT_PDE + 3)
  {
    FlagSums();
    ghost var s := mem[..];
    WriteEntry(mem, BOOT_PML4, 0, Or(Or(BOOT_PDPTE, 1), 2));
    PutKeeps(s, s, mem[..], BOOT_PML4, 0, BOOT_PDPTE + 3);
    ghost var t := mem[..];
    WriteEntry(mem, BOOT_PDPTE, 0, Or(Or(BOOT_PDE, 1), 2));
    PutKeeps(s, t, mem[..], BOOT_PDPTE, 0, BOOT_PDE + 3);
  }

  lemma FlagSums()
    ensures Or(Or(BOOT_PDPTE, 1), 2) == BOOT_PDPTE + 3 && Or(Or(BOOT_PDE, 1), 2) == BOOT_PDE + 3
  {
  }

  /** `(i << 21) | PG_PRESENT | PG_RW | PG_HUGE`. */
  lemma HugeEntry(i: nat)
    requires i < ENTRY_COUNT
    ensures Or(Or(Or(i * 0x20_0000, 1), 2), 0x80) == i * 0x20_0000 + 0x83 < WORD
  {
    var x := i * 0x20_0000;
    OrFlags(x, 1, 0);
    OrMoreFlags(x, 1, 2, 0);
    OrMoreFlags(x, 3, 0x80, 0);
    assert Or(1, 2) == 3 && Or(3, 0x80) == 0x83;
  }

  method MapIdentity(mem: array<u8>)
    requires BOOT_END <= mem.Length && Gdt(mem[..])
    requires SingleEntry(mem[..], BOOT_PML4, BOOT_PDPTE + 3) && SingleEntry(mem[..], BOOT_PDPTE, BOOT_PDE + 3)
    modifies mem
    ensures Gdt(mem[..]) && BootTables(mem[..]) && Untouched(old(mem[..]), mem[..])
  {
    for i := 0 to ENTRY_COUNT
      invariant Gdt(mem[..]) && Untouched(old(mem[..]), mem[..])
      invariant SingleEntry(mem[..], BOOT_PML4, BOOT_PDPTE + 3) && SingleEntry(mem[..], BOOT_PDPTE, BOOT_PDE + 3)
      invariant Identity(mem[..], BOOT_PDE, i)
    {
      ghost var s := mem[..];
      HugeEntry(i);
      WriteEntry(mem, BOOT_PDE, i, Or(Or(Or(i * 0x20_0000, 1), 2), 0x80));
      PutKeeps(old(mem[..]), s, mem[..], BOOT_PDE, i, i * 0x20_0000 + 0x83);
    }
  }

  /** `init_guest_memory`. */
  method InitGuestMemory(mem: array<u8>)
    requires BOOT_END <= mem.Length
    modifies mem
    ensures Gdt(mem[..]) && BootTables(mem[..]) && Untouched(old(mem[..]), mem[..])
  {
    WriteGdt(mem);
    ClearTables(mem);
    LinkTables(mem);
    MapIdentity(mem);
  }
}
