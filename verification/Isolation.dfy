/** What keeps a guest's address space as it was built. The nested tables let the guest reach only
    its buffer and the two APIC pages, none of which holds a table. The host also stores for the
    guest, at addresses the guest hands over without a bound: the address space is safe from
    these stores exactly as far as the guest hands over addresses of its own buffer. */
module Isolation {
  import opened Bits
  import opened Options
  import opened Words
  import opened Registers
  import opened Backend
  import opened GuestMemory
  import opened Paging
  import opened NestedTables
  import opened NestedBuild
  import opened Vm
  import opened Vcpu

  /** The guest's buffer lies outside the memory that the host's allocator hands out. */
  ghost predicate Outside(backing: Backing, pool: iset<nat>) {
    forall p :: 0 <= p < |backing| && backing[p].Some? ==> backing[p].value !in pool
  }

  ghost predicate InBuffer(backing: Backing, f: nat) {
    exists p :: 0 <= p < |backing| && backing[p] == Some(f)
  }

  /** Some guest-physical page translates to frame `f`. */
  ghost predicate Reaches(t: Tree, f: nat) {
    exists n: nat :: n < PAGE_COUNT && t.Translate(n) == Hit(f, RWX)
  }

  /** What `Vm::new` leaves: the tables, in frames of the pool, and two pages that are not tables. */
  ghost predicate Separate(t: Tree, pool: iset<nat>, apic: nat, ioapic: nat) {
    && (forall f :: f in t.roles ==> f in pool)
    && apic !in t.roles && ioapic !in t.roles
  }

  /** Every frame the nested tables reach is a page of the buffer or an APIC page, and holds no
      table. */
  lemma Confined(t: Tree, backing: Backing, pool: iset<nat>, apic: nat, ioapic: nat, f: nat)
    requires Denotes(t, backing, ApicCalls(apic, ioapic)) && TableCount(backing) <= ENTRY_COUNT
    requires Outside(backing, pool) && Separate(t, pool, apic, ioapic) && Reaches(t, f)
    ensures f !in t.roles && (f == apic || f == ioapic || InBuffer(backing, f))
  {
    hide Tree.Translate, Space, ApicCalls;
    var n: nat :| n < PAGE_COUNT && t.Translate(n) == Hit(f, RWX);
    ApicDomain(backing, apic, ioapic, n);
  }

  /** Memory that agrees on the tables gives the same walks. */
  lemma {:induction false} TablesDecide(fmt: Format, mem: Mem, mem': Mem, roles: map<nat, Role>, t: nat, level: nat, n: nat)
    requires TreeOk(fmt, mem, roles) && 1 <= level <= 4 && OnPath(roles, t, level, n)
    requires forall s :: s in roles && s in mem ==> s in mem' && mem'[s] == mem[s]
    ensures WalkTables(fmt, mem', t, level, n) == WalkTables(fmt, mem, t, level, n)
    decreases level
  {
    var e := Step(fmt, mem, roles, t, level, n);
    var d := Decode(fmt, level, e);
    if d.Next? && 2 <= level {
      TablesDecide(fmt, mem, mem', roles, d.table, level - 1, n);
    }
  }

  lemma SameTables(t: Tree, mem': Mem)
    requires t.Good() && forall s :: s in t.roles && s in t.mem ==> s in mem' && mem'[s] == t.mem[s]
    ensures t.(mem := mem').Good() && SameWalks(t.fmt, t.mem, mem', t.pml4)
  {
    forall n: nat | n < PAGE_COUNT
      ensures WalkTables(t.fmt, mem', t.pml4, 4, n) == WalkTables(t.fmt, t.mem, t.pml4, 4, n)
    {
      RootOnPath(t, n);
      TablesDecide(t.fmt, t.mem, mem', t.roles, t.pml4, 4, n);
    }
  }

  lemma RootOnPath(t: Tree, n: nat)
    requires t.Good() && n < PAGE_COUNT
    ensures OnPath(t.roles, t.pml4, 4, n)
  {
  }

  // --- Runs --------------------------------------------------------------------------------------

  /** The host's own mapping, from virtual page numbers to frames. */
  type HostMap = nat -> nat

  /** The buffer at `start` is what `backing` was resolved from. */
  ghost predicate Backs(phys: HostMap, start: u64, backing: Backing) {
    && start % PAGE == 0 && start + PAGE * |backing| <= WORD
    && forall p :: 0 <= p < |backing| ==> backing[p] == Some(phys(start / PAGE + p))
  }

  /** The frames an 8-byte store touches. */
  predicate Touches(phys: HostMap, s: Store, f: nat) {
    f == phys(s.address / PAGE) || f == phys((s.address + 7) / PAGE)
  }

  /** The guest runs for a while, or the loop handles one of its exits. */
  datatype Event = GuestRuns | Handled(x: VmExit)

  ghost predicate MayChange(t: Tree, e: Event, abi: Abi, phys: HostMap, f: nat) {
    match e
    case GuestRuns => Reaches(t, f)
    case Handled(x) => Reply(x, abi).Some? && Touches(phys, Reply(x, abi).value, f)
  }

  /** Memory `mem'` may follow `t.mem` when `e` happens. */
  ghost predicate Follows(t: Tree, e: Event, abi: Abi, phys: HostMap, mem': Mem) {
    forall f :: f in t.mem && !MayChange(t, e, abi, phys, f) ==> f in mem' && mem'[f] == t.mem[f]
  }

  /** A virtual machine as `Vm::new` leaves it, over a buffer of its own. */
  ghost predicate Standing(t: Tree, backing: Backing, pool: iset<nat>, apic: nat, ioapic: nat) {
    && t.Good() && Denotes(t, backing, ApicCalls(apic, ioapic)) && TableCount(backing) <= ENTRY_COUNT
    && Outside(backing, pool) && Separate(t, pool, apic, ioapic)
  }

  /** A store within the buffer touches frames of the buffer only. */
  lemma StoreInBuffer(phys: HostMap, start: u64, backing: Backing, s: Store, f: nat)
    requires Backs(phys, start, backing) && start <= s.address && s.address + 8 <= start + PAGE * |backing|
    requires Touches(phys, s, f)
    ensures InBuffer(backing, f)
  {
    var p, q := s.address / PAGE - start / PAGE, (s.address + 7) / PAGE - start / PAGE;
    assert 0 <= p < |backing| && 0 <= q < |backing|;
    assert backing[p] == Some(phys(start / PAGE + p)) && backing[q] == Some(phys(start / PAGE + q));
  }

  lemma ChangesNoTable(t: Tree, backing: Backing, pool: iset<nat>, apic: nat, ioapic: nat, abi: Abi, phys: HostMap,
                       e: Event, f: nat)
    requires Standing(t, backing, pool, apic, ioapic) && Backs(phys, abi.start, backing)
    requires e.Handled? ==> InBounds(e.x, abi, PAGE * |backing|)
    requires MayChange(t, e, abi, phys, f)
    ensures f !in t.roles
  {
    hide Tree.Good, Denotes, ApicCalls, Reaches, Backs, Reply, InBounds, Touches;
    match e
    case GuestRuns => Confined(t, backing, pool, apic, ioapic, f);
    case Handled(x) =>
      assert abi.start + PAGE * |backing| <= WORD by { BufferFits(phys, abi.start, backing); }
      ReplyWithin(x, abi, PAGE * |backing|);
      StoreInBuffer(phys, abi.start, backing, Reply(x, abi).value, f);
  }

  lemma BufferFits(phys: HostMap, start: u64, backing: Backing)
    requires Backs(phys, start, backing)
    ensures start + PAGE * |backing| <= WORD
  {
  }

  lemma StandingStays(t: Tree, backing: Backing, pool: iset<nat>, apic: nat, ioapic: nat, abi: Abi, phys: HostMap,
                      e: Event, mem': Mem)
    requires Standing(t, backing, pool, apic, ioapic) && Backs(phys, abi.start, backing)
    requires e.Handled? ==> InBounds(e.x, abi, PAGE * |backing|)
    requires Follows(t, e, abi, phys, mem')
    ensures Standing(t.(mem := mem'), backing, pool, apic, ioapic)
  {
    hide Tree.Good, Denotes, ApicCalls, MayChange, Backs, InBounds, SameWalks;
    forall s | s in t.roles && s in t.mem
      ensures s in mem' && mem'[s] == t.mem[s]
    {
      if MayChange(t, e, abi, phys, s) {
        ChangesNoTable(t, backing, pool, apic, ioapic, abi, phys, e, s);
      }
    }
    SameTables(t, mem');
    DenotesNothingNew(t, t.(mem := mem'), backing, ApicCalls(apic, ioapic));
  }

  lemma StandingAgree(t: Tree, t': Tree, backing: Backing, pool: iset<nat>, apic: nat, ioapic: nat)
    requires Standing(t, backing, pool, apic, ioapic) && Standing(t', backing, pool, apic, ioapic)
    ensures forall n: nat :: n < PAGE_COUNT ==> t'.Translate(n) == t.Translate(n)
  {
    hide Tree.Good, Tree.Translate, Outside, Separate, Space, ApicCalls;
  }

  /** The memories of a run: `mems[k]` before event `k`. */
  ghost predicate History(t: Tree, events: seq<Event>, abi: Abi, phys: HostMap, mems: seq<Mem>) {
    && |mems| == |events| + 1 && mems[0] == t.mem
    && forall k :: 0 <= k < |events| ==> Follows(t.(mem := mems[k]), events[k], abi, phys, mems[k + 1])
  }

  /** Every hypercall of the run hands over addresses of the buffer only. */
  ghost predicate KeepsBounds(events: seq<Event>, abi: Abi, size: nat) {
    forall k :: 0 <= k < |events| && events[k].Handled? ==> InBounds(events[k].x, abi, size)
  }

  /** Over every run whose hypercalls keep the bounds, whatever the guest writes and the host
      stores for it, every guest-physical page translates as at the start. */
  lemma {:induction false} TamperProof(t: Tree, backing: Backing, pool: iset<nat>, apic: nat, ioapic: nat, abi: Abi,
                                       phys: HostMap, events: seq<Event>, mems: seq<Mem>, k: nat)
    requires Standing(t, backing, pool, apic, ioapic) && Backs(phys, abi.start, backing)
    requires History(t, events, abi, phys, mems) && KeepsBounds(events, abi, PAGE * |backing|) && k <= |events|
    ensures Standing(t.(mem := mems[k]), backing, pool, apic, ioapic)
    ensures forall n: nat :: n < PAGE_COUNT ==> t.(mem := mems[k]).Translate(n) == t.Translate(n)
  {
    hide Standing, Backs, Follows, InBounds, Tree.Translate;
    if k == 0 {
      assert t.(mem := mems[0]) == t;
    } else {
      TamperProof(t, backing, pool, apic, ioapic, abi, phys, events, mems, k - 1);
      var before := t.(mem := mems[k - 1]);
      assert Follows(before, events[k - 1], abi, phys, mems[k]);
      StandingStays(before, backing, pool, apic, ioapic, abi, phys, events[k - 1], mems[k]);
      assert before.(mem := mems[k]) == t.(mem := mems[k]);
    }
    StandingAgree(t, t.(mem := mems[k]), backing, pool, apic, ioapic);
  }

  // --- The bound is needed -----------------------------------------------------------------------

  /** A FileRead hypercall whose result field is at host address `v`. */
  function ReplyAt(abi: Abi, port: u16, regs: GuestRegisters, memory: HostMemory, v: u64): VmExit {
    var gpa := Back(v, abi.start);
    var rdi := Back(gpa, abi.layout(FileRead).result);
    VmExit(Ok(IoInstruction(Qualification(port, false))), regs.(gprs := regs.gprs.(rdi := rdi)), memory)
  }

  /** The offset from `b` to `a` in 64 bits. */
  function Back(a: u64, b: u64): u64 {
    if b <= a then a - b else a + WORD - b
  }

  /** The code sets no bound: for a result field at the address of the root table, the host's store
      is allowed for, and after it the guest has lost every page below 512 GiB. */
  lemma BoundNeeded(t: Tree, abi: Abi, phys: HostMap, port: u16, regs: GuestRegisters, memory: HostMemory, v: u64)
    requires t.Good() && phys(v / PAGE) == t.pml4 && v % PAGE == 0
    requires !IsExitPort(port) && abi.decode(port) == Some(FileRead)
    ensures var x := ReplyAt(abi, port, regs, memory, v);
            var mem' := SetEntry(t.mem, t.pml4, 0, FAILED);
            && Reply(x, abi) == Some(Store(v, FAILED)) && Follows(t, Handled(x), abi, phys, mem')
            && forall n: nat :: n < Span(3) ==> t.(mem := mem').Translate(n) == Fault
  {
    var x := ReplyAt(abi, port, regs, memory, v);
    var mem' := SetEntry(t.mem, t.pml4, 0, FAILED);
    ReplyGoes(abi, port, regs, memory, v);
    hide Reply, Qualification;
    forall n: nat | n < Span(3)
      ensures t.(mem := mem').Translate(n) == Fault
    {
      RootLost(t, n);
    }
  }

  lemma ReplyGoes(abi: Abi, port: u16, regs: GuestRegisters, memory: HostMemory, v: u64)
    requires !IsExitPort(port) && abi.decode(port) == Some(FileRead)
    ensures Reply(ReplyAt(abi, port, regs, memory, v), abi) == Some(Store(v, FAILED))
  {
  }

  lemma RootLost(t: Tree, n: nat)
    requires t.Good() && n < Span(3)
    ensures t.(mem := SetEntry(t.mem, t.pml4, 0, FAILED)).Translate(n) == Fault
  {
    AllOnes(t.fmt);
    hide And, Decode;
    assert Paging.Index(n, 4) == 0;
  }

  lemma AllOnes(fmt: Format)
    ensures Decode(fmt, 4, FAILED) == Denied
  {
    hide And;
  }

  /** `Vm::new` again: over a buffer outside the allocator's memory, the guest is confined. */
  method NewConfined(host: Host, fmt: Format, backing: Backing) returns (r: Result<Machine>)
    requires host.Valid() && Nested(fmt) && Backed(backing) && TableCount(backing) <= ENTRY_COUNT
    requires Outside(backing, host.pool)
    modifies host, host.words
    ensures r.Ok? ==> Standing(r.value.paging.View(), backing, host.pool, r.value.apicFrame, r.value.ioapicFrame)
    ensures r.Ok? ==> forall f :: Reaches(r.value.paging.View(), f) ==>
                        && f !in r.value.paging.roles
                        && (f == r.value.apicFrame || f == r.value.ioapicFrame || InBuffer(backing, f))
  {
    hide CanBuild, Denotes, Outside, Reaches, InBuffer, ApicCalls, Tree.Good;
    r := Vm.New(host, fmt, backing);
    if r.Ok? {
      ghost var t, apic, ioapic := r.value.paging, r.value.apicFrame, r.value.ioapicFrame;
      TablesAllocated(t, backing, ApicCalls(apic, ioapic));
      forall f | Reaches(t.View(), f)
        ensures f !in t.roles && (f == apic || f == ioapic || InBuffer(backing, f))
      {
        Confined(t.View(), backing, host.pool, apic, ioapic, f);
      }
    }
  }
}
