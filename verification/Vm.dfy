/** `Vm::new`: guest RAM plus the pages behind the local APIC and the I/O APIC,
    and what any sequence of `map_mmio` calls denotes. */
module Vm {
  import opened Bits
  import opened Options
  import opened Paging
  import opened NestedTables
  import opened NestedBuild

  const LAPIC_BASE: u64 := 0xFEE0_0000
  const IOAPIC_BASE: u64 := 0xFEC0_0000

  /** One `map_mmio` call: a guest-physical address and the frame to put there. */
  datatype Call = Call(gpa: u64, frame: nat)

  predicate CallOk(c: Call) {
    Mappable(c.gpa) && IsFrame(c.frame)
  }

  /** The specification of a guest-physical address space: RAM, overlaid by the calls
      that succeeded, the last one winning. */
  function Space(backing: Backing, calls: seq<Call>, n: nat): Outcome {
    if calls == [] then Ram(backing, n)
    else
      var c := calls[|calls| - 1];
      if PageOf(c.gpa) == n then Hit(c.frame, RWX) else Space(backing, calls[..|calls| - 1], n)
  }

  ghost predicate Denotes(t: Tree, backing: Backing, calls: seq<Call>) {
    forall n: nat :: n < PAGE_COUNT ==> t.Translate(n) == Space(backing, calls, n)
  }

  lemma DenotesNothingNew(t: Tree, t': Tree, backing: Backing, calls: seq<Call>)
    requires Denotes(t, backing, calls) && t.fmt == t'.fmt && t.pml4 == t'.pml4
    requires SameWalks(t.fmt, t.mem, t'.mem, t.pml4)
    ensures Denotes(t', backing, calls)
  {
  }

  lemma DenotesCall(t: Tree, t': Tree, backing: Backing, calls: seq<Call>, c: Call)
    requires Denotes(t, backing, calls) && t.fmt == t'.fmt && t.pml4 == t'.pml4
    requires SameWalksBut(t.fmt, t.mem, t'.mem, t.pml4, PageOf(c.gpa))
    requires t'.Translate(PageOf(c.gpa)) == Hit(c.frame, RWX)
    ensures Denotes(t', backing, calls + [c])
  {
    assert (calls + [c])[..|calls|] == calls;
  }

  lemma BuiltDenotes(t: Tree, pts: seq<nat>, backing: Backing)
    requires Built(t, pts, backing, TableCount(backing))
    ensures Denotes(t, backing, [])
  {
    forall n: nat | n < PAGE_COUNT
      ensures t.Translate(n) == Space(backing, [], n)
    {
      BuiltTranslates(t, pts, backing, n);
    }
  }

  /** A tree that serves the address space given by `backing` and `calls`. */
  ghost predicate Serves(t: NestedTables, backing: Backing, calls: seq<Call>)
    reads t, t.host, t.host.words
  {
    t.Valid() && t.View().HasChild(t.pml4, 0, t.pdpt) && Denotes(t.View(), backing, calls)
  }

  /** One call either takes effect, or changes nothing. */
  method MapMmio(t: NestedTables, c: Call, ghost backing: Backing, ghost calls: seq<Call>) returns (r: Result<()>)
    requires Serves(t, backing, calls) && CallOk(c)
    modifies t`extra, t`roles, t.host, t.host.words
    ensures Serves(t, backing, if r.Ok? then calls + [c] else calls)
    ensures old(t.View()).Claims(t.View())
    ensures Took(old(t.host.attempts), t.host.attempts, Needs(old(t.host.mem), t.pdpt, PageOf(c.gpa)), r)
    ensures r.Ok? && Needs(old(t.host.mem), t.pdpt, PageOf(c.gpa)) == 2 ==> Opened(t.host.mem, t.pdpt, PageOf(c.gpa))
  {
    ghost var v := t.View();
    r := t.MapPage(c.gpa, c.frame);
    hide SameWalks, SameWalksBut, Denotes, Grants, Needs, Opened;
    if r.Ok? {
      DenotesCall(v, t.View(), backing, calls, c);
    } else {
      DenotesNothingNew(v, t.View(), backing, calls);
    }
  }

  /** Any sequence of calls, each of which may fail: the address space is RAM overlaid by the
      calls that succeeded, in order, and two grants are enough for a call to succeed. */
  method MapAll(t: NestedTables, calls: seq<Call>, ghost backing: Backing, ghost before: seq<Call>)
      returns (done: seq<Call>)
    requires Serves(t, backing, before) && forall c :: c in calls ==> CallOk(c)
    modifies t`extra, t`roles, t.host, t.host.words
    ensures Serves(t, backing, before + done)
    ensures 2 * |calls| <= Grants(old(t.host.attempts)) ==> done == calls
  {
    hide Serves, Grants, Needs, Opened;
    done := [];
    assert before + done == before;
    ghost var enough := 2 * |calls| <= Grants(t.host.attempts);
    for i := 0 to |calls|
      invariant Serves(t, backing, before + done)
      invariant enough ==> done == calls[..i] && 2 * (|calls| - i) <= Grants(t.host.attempts)
    {
      NeedsTwo(t.host.mem, t.pdpt, PageOf(calls[i].gpa));
      var r := MapMmio(t, calls[i], backing, before + done);
      assert calls[..i + 1] == calls[..i] + [calls[i]];
      if r.Ok? {
        assert before + (done + [calls[i]]) == (before + done) + [calls[i]];
        done := done + [calls[i]];
      }
    }
  }

  /** A zeroed page of its own, resolved; the address space is not affected. */
  method NewPage(t: NestedTables, ghost backing: Backing, ghost calls: seq<Call>) returns (a: Attempt)
    requires Serves(t, backing, calls)
    modifies t.host, t.host.words
    ensures Serves(t, backing, calls) && a == FirstAttempt(old(t.host.attempts))
    ensures t.host.attempts == RestAttempts(old(t.host.attempts))
    ensures a.Gives? ==> IsFrame(a.frame) && a.frame !in old(t.host.mem) && a.frame in t.host.mem
    ensures forall f, k: nat :: f in old(t.host.mem) ==> Slot(t.host.mem, f, k) == Slot(old(t.host.mem), f, k)
    ensures old(t.host.mem).Keys <= t.host.mem.Keys && t.roles == old(t.roles)
  {
    hide Tree.Good, Tree.GrownTo, Tree.HasChild, SameWalks, Denotes, Slot, Supply, Tree.Claims;
    ghost var v := t.View();
    a := t.host.Alloc();
    v.UnusedPage(a);
    v.ChildStays(t.View(), t.pml4, 0, t.pdpt);
    v.GrownWalks(t.View());
    DenotesNothingNew(v, t.View(), backing, calls);
    SpareSlots(v.mem, a);
  }

  lemma SpareSlots(mem: Mem, a: Attempt)
    requires a.Gives? ==> a.frame !in mem
    ensures var mem' := if a.Gives? then mem[a.frame := EmptyTable()] else mem;
            forall f, k: nat :: f in mem ==> Slot(mem', f, k) == Slot(mem, f, k)
  {
  }

  datatype Machine = Machine(paging: NestedTables, apicFrame: nat, ioapicFrame: nat)

  /** `Vm::new`: the guest sees its RAM and the two APIC pages, and nothing else. It succeeds
      exactly when the tables over the buffer can be built and five more pages are granted: the
      two pages, and the three tables that map them. */
  method New(host: Host, fmt: Format, backing: Backing) returns (r: Result<Machine>)
    requires host.Valid() && Nested(fmt) && Backed(backing) && TableCount(backing) <= ENTRY_COUNT
    modifies host, host.words
    ensures r.Ok? <==> CanBuild(old(host.attempts), backing) && 5 <= Grants(Remaining(old(host.attempts), backing))
    ensures r.Err? ==> r.error == AllocationFailed
    ensures r.Ok? ==> fresh(r.value.paging) && r.value.paging.fmt == fmt && r.value.paging.host == host
    ensures r.Ok? ==> IsFrame(r.value.apicFrame) && IsFrame(r.value.ioapicFrame) && r.value.apicFrame != r.value.ioapicFrame
    ensures r.Ok? ==> Serves(r.value.paging, backing, ApicCalls(r.value.apicFrame, r.value.ioapicFrame))
    ensures r.Ok? ==> r.value.apicFrame !in r.value.paging.roles && r.value.ioapicFrame !in r.value.paging.roles
  {
    hide CanBuild, Serves, Grants, ApicCalls, Built, Needs, Opened, Slot, Host.Valid;
    var tables := NestedBuild.New(host, fmt, backing);
    if tables.Err? {
      return Err(tables.error);
    }
    var t := tables.value;
    BuiltServes(t, backing);
    NothingAbove(t.View(), t.pts, backing);
    GrantStep(host.attempts);
    var apic := NewPage(t, backing, []);
    if apic.Fails? {
      return Err(AllocationFailed);
    }
    GrantStep(host.attempts);
    var ioapic := NewPage(t, backing, []);
    if ioapic.Fails? || !apic.resolves {
      return Err(AllocationFailed);
    }
    r := MapApics(t, backing, apic.frame, ioapic);
  }

  /** The two `map_mmio` calls: together they need three tables. */
  method MapApics(t: NestedTables, backing: Backing, apic: nat, ioapic: Attempt) returns (r: Result<Machine>)
    requires Serves(t, backing, []) && Slot(t.host.mem, t.pdpt, 3) == 0
    requires ioapic.Gives? && IsFrame(apic) && IsFrame(ioapic.frame)
    requires apic in t.host.mem && ioapic.frame in t.host.mem && apic !in t.roles && ioapic.frame !in t.roles
    modifies t`extra, t`roles, t.host, t.host.words
    ensures r.Ok? <==> ioapic.resolves && 3 <= Grants(old(t.host.attempts))
    ensures r.Err? ==> r.error == AllocationFailed
    ensures r.Ok? ==> r.value == Machine(t, apic, ioapic.frame) && Serves(t, backing, ApicCalls(apic, ioapic.frame))
    ensures r.Ok? ==> apic !in t.roles && ioapic.frame !in t.roles
  {
    hide Serves, Grants, ApicCalls, Needs, Opened, Slot;
    ApicsMappable();
    ApicPaths();
    AbsentNeeds(t.host.mem, t.pdpt, 0xFEE00);
    var mapped := MapMmio(t, Call(LAPIC_BASE, apic), backing, []);
    if mapped.Err? || !ioapic.resolves {
      return Err(AllocationFailed);
    }
    OpenedNeeds(t.host.mem, t.pdpt, 0xFEE00, 0xFEC00);
    mapped := MapMmio(t, Call(IOAPIC_BASE, ioapic.frame), backing, [] + [Call(LAPIC_BASE, apic)]);
    if mapped.Err? {
      return Err(AllocationFailed);
    }
    TwoCalls(apic, ioapic.frame);
    r := Ok(Machine(t, apic, ioapic.frame));
  }

  lemma NeedsTwo(mem: Mem, pdpt: nat, n: nat)
    ensures Needs(mem, pdpt, n) <= 2
  {
    hide And;
  }

  lemma AbsentNeeds(mem: Mem, pdpt: nat, n: nat)
    requires Slot(mem, pdpt, Index(n, 3)) == 0
    ensures Needs(mem, pdpt, n) == 2
  {
  }

  /** Both APIC pages lie below PDPT[3], in different directory entries. */
  lemma ApicPaths()
    ensures Index(0xFEE00, 3) == Index(0xFEC00, 3) == 3 && Index(0xFEE00, 2) != Index(0xFEC00, 2)
  {
  }

  lemma NothingAbove(t: Tree, pts: seq<nat>, backing: Backing)
    requires Built(t, pts, backing, TableCount(backing))
    ensures Slot(t.mem, t.pdpt, 3) == 0 && t.pdpt in t.mem && forall f :: f in t.roles ==> f in t.mem
  {
  }

  function ApicCalls(apic: nat, ioapic: nat): seq<Call> {
    [Call(LAPIC_BASE, apic), Call(IOAPIC_BASE, ioapic)]
  }

  /** Every table lies in an allocated frame. */
  lemma TablesAllocated(t: NestedTables, backing: Backing, calls: seq<Call>)
    requires Serves(t, backing, calls)
    ensures forall f :: f in t.roles ==> f in t.host.mem && f in t.host.pool
  {
    hide Denotes, Supply;
  }

  lemma TwoCalls(apic: nat, ioapic: nat)
    ensures [] + [Call(LAPIC_BASE, apic)] + [Call(IOAPIC_BASE, ioapic)] == ApicCalls(apic, ioapic)
  {
  }

  lemma BuiltServes(t: NestedTables, backing: Backing)
    requires t.Valid() && Built(t.View(), t.pts, backing, TableCount(backing))
    ensures Serves(t, backing, [])
  {
    BuiltDenotes(t.View(), t.pts, backing);
  }

  lemma ApicsMappable()
    ensures Mappable(LAPIC_BASE) && PageOf(LAPIC_BASE) == 0xFEE00
    ensures Mappable(IOAPIC_BASE) && PageOf(IOAPIC_BASE) == 0xFEC00
  {
    MappableIff(LAPIC_BASE);
    MappableIff(IOAPIC_BASE);
  }

  /** The domain of the address space `New` sets up. */
  lemma ApicDomain(backing: Backing, apic: nat, ioapic: nat, n: nat)
    requires TableCount(backing) <= ENTRY_COUNT
    ensures Space(backing, ApicCalls(apic, ioapic), n)
            == if n == 0xFEE00 then Hit(apic, RWX) else if n == 0xFEC00 then Hit(ioapic, RWX) else Ram(backing, n)
  {
    ApicsMappable();
    var calls := ApicCalls(apic, ioapic);
    assert calls[..1] == [Call(LAPIC_BASE, apic)] && calls[..1][..0] == [];
    assert Space(backing, calls[..1], n) == if n == 0xFEE00 then Hit(apic, RWX) else Ram(backing, n);
    assert |calls| == 2 && calls[1] == Call(IOAPIC_BASE, ioapic);
    assert Space(backing, calls, n) == if n == 0xFEC00 then Hit(ioapic, RWX) else Space(backing, calls[..1], n);
  }

  /** The tables over a buffer, and then any `map_mmio` calls. */
  method BuildAndMap(host: Host, fmt: Format, backing: Backing, calls: seq<Call>) returns (r: Result<NestedTables>)
    requires host.Valid() && Nested(fmt) && Backed(backing) && TableCount(backing) <= ENTRY_COUNT
    requires forall c :: c in calls ==> CallOk(c)
    modifies host, host.words
    ensures CanBuild(old(host.attempts), backing) && 2 * |calls| <= Grants(Remaining(old(host.attempts), backing)) ==>
              && r.Ok? && fresh(r.value) && r.value.host == host && r.value.fmt == fmt
              && Denotes(r.value.View(), backing, calls)
  {
    hide CanBuild, Serves, Grants, Built, Host.Valid, Denotes;
    r := NestedBuild.New(host, fmt, backing);
    if r.Ok? {
      BuiltServes(r.value, backing);
      var done := MapAll(r.value, calls, backing, []);
      assert [] + done == done;
      ServesDenotes(r.value, backing, done);
    }
  }

  lemma ServesDenotes(t: NestedTables, backing: Backing, calls: seq<Call>)
    requires Serves(t, backing, calls)
    ensures Denotes(t.View(), backing, calls)
  {
  }

  /** Built over the same buffer, with the same calls, the two formats give every page the same
      frame with the same rights, wherever their own tables lie. */
  method BothFormats(hostN: Host, hostE: Host, backing: Backing, calls: seq<Call>)
      returns (npt: Result<NestedTables>, ept: Result<NestedTables>)
    requires hostN.Valid() && hostE.Valid() && hostN != hostE && hostN.words != hostE.words
    requires Backed(backing) && TableCount(backing) <= ENTRY_COUNT && forall c :: c in calls ==> CallOk(c)
    requires CanBuild(hostN.attempts, backing) && 2 * |calls| <= Grants(Remaining(hostN.attempts, backing))
    requires CanBuild(hostE.attempts, backing) && 2 * |calls| <= Grants(Remaining(hostE.attempts, backing))
    modifies hostN, hostN.words, hostE, hostE.words
    ensures npt.Ok? && npt.value.fmt == Npt && ept.Ok? && ept.value.fmt == Ept
    ensures forall n: nat :: n < PAGE_COUNT ==> npt.value.View().Translate(n) == ept.value.View().Translate(n)
  {
    hide CanBuild, Grants, Host.Valid, Denotes, Tree.Translate;
    npt := BuildAndMap(hostN, Npt, backing, calls);
    ghost var v := npt.value.View();
    ept := BuildAndMap(hostE, Ept, backing, calls);
    assert npt.value.View() == v;
    forall n: nat | n < PAGE_COUNT
      ensures v.Translate(n) == ept.value.View().Translate(n)
    {
      FormatsAgree(v, ept.value.View(), backing, calls, n);
    }
  }

  /** Nested page tables and extended page tables of the same address space give
      every page the same frame with the same rights. */
  lemma FormatsAgree(npt: Tree, ept: Tree, backing: Backing, calls: seq<Call>, n: nat)
    requires npt.fmt.Npt? && ept.fmt.Ept? && n < PAGE_COUNT
    requires Denotes(npt, backing, calls) && Denotes(ept, backing, calls)
    ensures npt.Translate(n) == ept.Translate(n)
  {
  }
}
