/** `Npt::new` and `Ept::new`: the tree over a guest buffer whose pages may lie
    anywhere in host-physical memory. `backing` gives, page by page, the frame the
    host resolves for the buffer, or nothing where it resolves none. */
module NestedBuild {
  import opened Bits
  import opened Options
  import opened Paging
  import opened NestedTables

  type Backing = seq<Option<nat>>

  ghost predicate Backed(backing: Backing) {
    forall n :: 0 <= n < |backing| && backing[n].Some? ==> IsFrame(backing[n].value)
  }

  /** The specification of `new`: page `n` of the guest is page `n` of the buffer. */
  function Ram(backing: Backing, n: nat): Outcome {
    if n < |backing| && backing[n].Some? then Hit(backing[n].value, RWX) else Fault
  }

  /** `num_pages.div_ceil(ENTRY_COUNT)`. */
  function TableCount(backing: Backing): nat {
    (|backing| + ENTRY_COUNT - 1) / ENTRY_COUNT
  }

  function LeafEntry(fmt: Format, backing: Backing, n: nat): u64
    requires Nested(fmt) && Backed(backing)
  {
    if n < |backing| && backing[n].Some? then
      DecodeLeaf(fmt, backing[n].value);
      Or(backing[n].value, LeafFlags(fmt))
    else 0
  }

  function RowEntry(fmt: Format, backing: Backing, i: nat, j: nat, x: nat): u64
    requires Nested(fmt) && Backed(backing)
  {
    if x < j then LeafEntry(fmt, backing, i * ENTRY_COUNT + x) else 0
  }

  /** Leaf table `i` once its first `j` entries are filled in. */
  function LeafRow(fmt: Format, backing: Backing, i: nat, j: nat): (row: seq<u64>)
    requires Nested(fmt) && Backed(backing)
    ensures |row| == ENTRY_COUNT
    ensures forall x :: 0 <= x < ENTRY_COUNT ==> row[x] == RowEntry(fmt, backing, i, j, x)
  {
    seq(ENTRY_COUNT, x requires 0 <= x < ENTRY_COUNT && Nested(fmt) && Backed(backing) => RowEntry(fmt, backing, i, j, x))
  }

  lemma LeafRowStep(fmt: Format, backing: Backing, i: nat, j: nat)
    requires Nested(fmt) && Backed(backing) && j < ENTRY_COUNT
    ensures LeafRow(fmt, backing, i, j + 1)
         == WithEntry(LeafRow(fmt, backing, i, j), j, LeafEntry(fmt, backing, i * ENTRY_COUNT + j))
    ensures LeafRow(fmt, backing, i, 0) == EmptyTable()
  {
  }

  lemma LeafRowTail(fmt: Format, backing: Backing, i: nat, j: nat)
    requires Nested(fmt) && Backed(backing) && j <= ENTRY_COUNT && |backing| <= i * ENTRY_COUNT + j
    ensures LeafRow(fmt, backing, i, j) == LeafRow(fmt, backing, i, ENTRY_COUNT)
  {
    forall x | 0 <= x < ENTRY_COUNT
      ensures RowEntry(fmt, backing, i, j, x) == RowEntry(fmt, backing, i, ENTRY_COUNT, x)
    {
    }
  }

  /** The tree after `i` leaf tables: nothing beside the path to the directory, whose
      first `i` entries name the filled tables `pts`. */
  ghost predicate Built(t: Tree, pts: seq<nat>, backing: Backing, i: nat) {
    && t.Good() && t.HasChild(t.pml4, 0, t.pdpt) && t.HasChild(t.pdpt, 0, t.pd)
    && (forall k :: 1 <= k < ENTRY_COUNT ==> t.mem[t.pml4][k] == 0 && t.mem[t.pdpt][k] == 0)
    && |pts| == i <= ENTRY_COUNT && Backed(backing)
    && (forall k :: 0 <= k < i ==> t.HasChild(t.pd, k, pts[k]) && t.mem[pts[k]] == LeafRow(t.fmt, backing, k, ENTRY_COUNT))
    && (forall k :: i <= k < ENTRY_COUNT ==> t.mem[t.pd][k] == 0)
  }

  /** A complete tree translates exactly the pages of the buffer. */
  lemma BuiltTranslates(t: Tree, pts: seq<nat>, backing: Backing, n: nat)
    requires Built(t, pts, backing, TableCount(backing)) && n < PAGE_COUNT
    ensures t.Translate(n) == Ram(backing, n)
  {
    if n < |backing| {
      HighPages(backing, n);
    }
    if Index(n, 4) != 0 || Index(n, 3) != 0 {
      BuiltAbove(t, pts, backing, n);
    } else {
      Follow(t.fmt, t.mem, t.pml4, 4, n, t.pdpt);
      Follow(t.fmt, t.mem, t.pdpt, 3, n, t.pd);
      LowIndices(n);
      BuiltDirectory(t, pts, backing, n);
    }
  }

  lemma BuiltAbove(t: Tree, pts: seq<nat>, backing: Backing, n: nat)
    requires Built(t, pts, backing, TableCount(backing))
    requires Index(n, 4) != 0 || Index(n, 3) != 0
    ensures t.Translate(n) == Fault
  {
    if Index(n, 4) != 0 {
      FollowEmpty(t.fmt, t.mem, t.pml4, 4, n);
    } else {
      Follow(t.fmt, t.mem, t.pml4, 4, n, t.pdpt);
      FollowEmpty(t.fmt, t.mem, t.pdpt, 3, n);
    }
  }

  lemma LowIndices(n: nat)
    requires n < PAGE_COUNT && Index(n, 4) == 0 && Index(n, 3) == 0
    ensures n == Index(n, 2) * ENTRY_COUNT + Index(n, 1)
  {
  }

  lemma HighPages(backing: Backing, n: nat)
    requires TableCount(backing) <= ENTRY_COUNT && n < PAGE_COUNT && n < |backing|
    ensures Index(n, 4) == 0 && Index(n, 3) == 0
  {
  }

  lemma BuiltDirectory(t: Tree, pts: seq<nat>, backing: Backing, n: nat)
    requires Built(t, pts, backing, TableCount(backing))
    requires n == Index(n, 2) * ENTRY_COUNT + Index(n, 1)
    ensures WalkTables(t.fmt, t.mem, t.pd, 2, n) == Ram(backing, n)
  {
    hide And, Or, Decode, Walk, EntryOk, NoRepeats, OnDemand;
    var k := Index(n, 2);
    if k < |pts| {
      assert t.HasChild(t.pd, k, pts[k]);
      Follow(t.fmt, t.mem, t.pd, 2, n, pts[k]);
      assert t.mem[pts[k]][Index(n, 1)] == LeafEntry(t.fmt, backing, n);
      if n < |backing| && backing[n].Some? {
        FollowLeaf(t.fmt, t.mem, pts[k], n, backing[n].value);
      } else {
        FollowEmpty(t.fmt, t.mem, pts[k], 1, n);
      }
    } else {
      FollowEmpty(t.fmt, t.mem, t.pd, 2, n);
    }
  }

  /** Adding leaf table `i`, in a new frame, and its directory entry. */
  function Extended(t: Tree, backing: Backing, i: nat, frame: nat): Tree
    requires Nested(t.fmt) && Backed(backing) && t.pd in t.mem && i < |t.mem[t.pd]|
    requires frame != t.pd && Or(frame, TABLE_FLAGS) < WORD
  {
    t.(mem := SetEntry(t.mem[frame := LeafRow(t.fmt, backing, i, ENTRY_COUNT)], t.pd, i, Or(frame, TABLE_FLAGS)),
       roles := t.roles[frame := Role(1, i)])
  }

  lemma ExtendedTree(t: Tree, backing: Backing, i: nat, frame: nat)
    requires t.Good() && Backed(backing) && i < ENTRY_COUNT && t.mem[t.pd][i] == 0
    requires IsFrame(frame) && frame !in t.mem && Or(frame, TABLE_FLAGS) < WORD
    ensures TreeOk(t.fmt, Extended(t, backing, i, frame).mem, Extended(t, backing, i, frame).roles)
  {
    hide Or, EntryOk, LeafRow, Backed, IsFrame, NoRepeats, OnDemand;
    var t' := Extended(t, backing, i, frame);
    forall s, k | s in t'.roles && 0 <= k < ENTRY_COUNT
      ensures EntryOk(t.fmt, t'.roles, t'.roles[s], k, t'.mem[s][k])
    {
      if s == frame {
        LeafEntryOk(t.fmt, t'.roles, backing, i, k);
      } else if s == t.pd && k == i {
        TableEntryOk(t.fmt, t'.roles, t.roles[s], k, frame);
      } else {
        EntryStays(t.fmt, t.roles, t'.roles, t.roles[s], k, t.mem[s][k]);
      }
    }
  }

  lemma LeafEntryOk(fmt: Format, roles: map<nat, Role>, backing: Backing, i: nat, k: nat)
    requires Nested(fmt) && Backed(backing) && k < ENTRY_COUNT
    ensures EntryOk(fmt, roles, Role(1, i), k, LeafRow(fmt, backing, i, ENTRY_COUNT)[k])
  {
  }

  lemma ExtendedGood(t: Tree, backing: Backing, i: nat, frame: nat)
    requires t.Good() && Backed(backing) && i < ENTRY_COUNT && t.mem[t.pd][i] == 0
    requires IsFrame(frame) && frame !in t.mem && Or(frame, TABLE_FLAGS) < WORD
    ensures Extended(t, backing, i, frame).Good()
  {
    hide Or, EntryOk, LeafRow, Backed, IsFrame, NoRepeats;
    ExtendedTree(t, backing, i, frame);
  }

  lemma ExtendedKeeps(t: Tree, backing: Backing, i: nat, frame: nat, parent: nat, k: nat, child: nat)
    requires t.Good() && Backed(backing) && i < ENTRY_COUNT && t.mem[t.pd][i] == 0
    requires frame !in t.mem && Or(frame, TABLE_FLAGS) < WORD
    requires t.HasChild(parent, k, child)
    ensures Extended(t, backing, i, frame).HasChild(parent, k, child)
    ensures child in t.mem && child in Extended(t, backing, i, frame).mem
    ensures child != t.pd ==> Extended(t, backing, i, frame).mem[child] == t.mem[child]
  {
    hide EntryOk, LeafRow, Backed, NoRepeats, OnDemand;
    DecodeTable(t.fmt, 4, child);
    hide Or;
  }

  /** The tables above leaf table `i` after it was added. */
  lemma ExtendedRows(t: Tree, backing: Backing, i: nat, frame: nat)
    requires t.Good() && Backed(backing) && i < ENTRY_COUNT && IsFrame(frame)
    requires frame !in t.mem && Or(frame, TABLE_FLAGS) < WORD
    ensures var t' := Extended(t, backing, i, frame);
            && t'.fmt == t.fmt && t'.pml4 == t.pml4 && t'.pdpt == t.pdpt && t'.pd == t.pd
            && t'.mem[t.pml4] == t.mem[t.pml4] && t'.mem[t.pdpt] == t.mem[t.pdpt]
            && t'.mem[t.pd] == WithEntry(t.mem[t.pd], i, Or(frame, TABLE_FLAGS))
            && t'.HasChild(t.pd, i, frame) && frame in t'.mem && t'.mem[frame] == LeafRow(t.fmt, backing, i, ENTRY_COUNT)
  {
    hide EntryOk, LeafRow, Backed, NoRepeats, OnDemand, Or;
  }

  lemma ExtendedBuilt(t: Tree, pts: seq<nat>, backing: Backing, i: nat, frame: nat)
    requires Built(t, pts, backing, i) && i < ENTRY_COUNT
    requires IsFrame(frame) && frame !in t.mem && Or(frame, TABLE_FLAGS) < WORD
    ensures Built(Extended(t, backing, i, frame), pts + [frame], backing, i + 1)
  {
    hide Tree.Good, Tree.HasChild, Extended, LeafRow, Backed, Or;
    BuiltFacts(t, pts, backing, i);
    var t' := Extended(t, backing, i, frame);
    ExtendedGood(t, backing, i, frame);
    ExtendedRows(t, backing, i, frame);
    ExtendedKeeps(t, backing, i, frame, t.pml4, 0, t.pdpt);
    ExtendedKeeps(t, backing, i, frame, t.pdpt, 0, t.pd);
    forall k | 0 <= k < i + 1
      ensures t'.HasChild(t.pd, k, (pts + [frame])[k]) && (pts + [frame])[k] in t'.mem
           && t'.mem[(pts + [frame])[k]] == LeafRow(t.fmt, backing, k, ENTRY_COUNT)
    {
      if k < i {
        t.ChildDiffers(t.pd, k, pts[k]);
        ExtendedKeeps(t, backing, i, frame, t.pd, k, pts[k]);
      }
    }
  }

  lemma BuiltFacts(t: Tree, pts: seq<nat>, backing: Backing, i: nat)
    requires Built(t, pts, backing, i)
    ensures Nested(t.fmt) && Backed(backing) && t.pd in t.mem && |t.mem[t.pd]| == ENTRY_COUNT
  {
  }

  /** The pages of leaf table `i` all resolve. */
  ghost predicate RowResolves(backing: Backing, i: nat) {
    forall n :: 0 <= n < |backing| && i * ENTRY_COUNT <= n < (i + 1) * ENTRY_COUNT ==> backing[n].Some?
  }

  /** The inner loop of `new`. */
  method FillTable(host: Host, fmt: Format, pt: nat, i: nat, backing: Backing) returns (ok: bool)
    requires host.Valid() && Nested(fmt) && Backed(backing)
    requires pt in host.mem && host.mem[pt] == EmptyTable()
    modifies host`mem, host.words
    ensures host.Valid() && ok == RowResolves(backing, i)
    ensures ok ==> host.mem == old(host.mem)[pt := LeafRow(fmt, backing, i, ENTRY_COUNT)]
  {
    hide Host.Valid, LeafRow, Or;
    var j := 0;
    LeafRowStep(fmt, backing, i, 0);
    assert host.mem == old(host.mem)[pt := EmptyTable()];
    while j < ENTRY_COUNT && i * ENTRY_COUNT + j < |backing|
      invariant j <= ENTRY_COUNT && host.Valid()
      invariant forall n :: i * ENTRY_COUNT <= n < i * ENTRY_COUNT + j ==> n < |backing| && backing[n].Some?
      invariant host.mem == old(host.mem)[pt := LeafRow(fmt, backing, i, j)]
    {
      var n := i * ENTRY_COUNT + j;
      if backing[n].None? {
        return false;
      }
      DecodeLeaf(fmt, backing[n].value);
      host.Store(pt, j, Or(backing[n].value, LeafFlags(fmt)));
      LeafRowStep(fmt, backing, i, j);
      assert host.mem == old(host.mem)[pt := LeafRow(fmt, backing, i, j + 1)];
      j := j + 1;
    }
    if j < ENTRY_COUNT {
      LeafRowTail(fmt, backing, i, j);
    }
    ok := true;
  }

  /** One round of the outer loop of `new`. */
  method AddTable(t: NestedTables, i: nat, backing: Backing) returns (ok: bool)
    requires t.host.Valid() && Built(t.View(), t.pts, backing, i) && i < ENTRY_COUNT
    modifies t`pts, t`roles, t.host, t.host.words
    ensures t.host.Valid() && t.extra == old(t.extra) && t.host.attempts == RestAttempts(old(t.host.attempts))
    ensures ok <==> Granted(FirstAttempt(old(t.host.attempts))) && RowResolves(backing, i)
    ensures ok ==> Built(t.View(), t.pts, backing, i + 1)
  {
    hide Built, Or, LeafRow, Host.Valid, RowResolves, FirstAttempt, RestAttempts, EmptyTable, IsFrame, Backed;
    ghost var v := t.View();
    BuiltFacts(v, t.pts, backing, i);
    var a := t.host.Alloc();
    ok := false;
    if a.Gives? {
      var filled := FillTable(t.host, t.fmt, a.frame, i, backing);
      if filled && a.resolves {
        ok := true;
        Overwritten(v.mem, a.frame, EmptyTable(), LeafRow(t.fmt, backing, i, ENTRY_COUNT));
        Attach(t, v, i, backing, a.frame);
      }
    }
  }

  lemma Overwritten(mem: Mem, t: nat, row: seq<u64>, row': seq<u64>)
    ensures mem[t := row][t := row'] == mem[t := row']
  {
  }

  method Attach(t: NestedTables, ghost v: Tree, i: nat, backing: Backing, frame: nat)
    requires t.host.Valid() && i < ENTRY_COUNT && IsFrame(frame) && frame !in v.mem
    requires Nested(t.fmt) && Backed(backing) && Built(v, t.pts, backing, i)
    requires t.View() == v.(mem := v.mem[frame := LeafRow(t.fmt, backing, i, ENTRY_COUNT)])
    modifies t`pts, t`roles, t.host`mem, t.host.words
    ensures t.host.Valid() && Built(t.View(), t.pts, backing, i + 1)
  {
    hide Built, LeafRow, Host.Valid, Or, WithEntry, IsFrame, Backed, EmptyTable;
    BuiltFacts(v, t.pts, backing, i);
    DecodeTable(t.fmt, 4, frame);
    ExtendedBuilt(v, t.pts, backing, i, frame);
    t.host.Store(t.pd, i, Or(frame, TABLE_FLAGS));
    t.roles := t.roles[frame := Role(1, i)];
    t.pts := t.pts + [frame];
    assert t.View() == Extended(v, backing, i, frame);
  }

  /** The tree with only the path to an empty directory. */
  function RootMem(mem: Mem, a: nat, b: nat, c: nat): Mem
    requires a in mem && b in mem && |mem[a]| == |mem[b]| == ENTRY_COUNT
    requires Or(b, TABLE_FLAGS) < WORD && Or(c, TABLE_FLAGS) < WORD
  {
    SetEntry(SetEntry(mem, a, 0, Or(b, TABLE_FLAGS)), b, 0, Or(c, TABLE_FLAGS))
  }

  lemma RootBuilt(fmt: Format, mem: Mem, a: nat, b: nat, c: nat, backing: Backing)
    requires Nested(fmt) && a != b && a != c && b != c && Backed(backing)
    requires IsFrame(a) && IsFrame(b) && IsFrame(c)
    requires a in mem && b in mem && c in mem && mem[a] == mem[b] == mem[c] == EmptyTable()
    requires Or(b, TABLE_FLAGS) < WORD && Or(c, TABLE_FLAGS) < WORD
    ensures Built(EmptyTree(fmt, RootMem(mem, a, b, c), a, b, c), [], backing, 0)
  {
    hide Or, IsFrame;
    var t := EmptyTree(fmt, RootMem(mem, a, b, c), a, b, c);
    forall s, k | s in t.roles && 0 <= k < ENTRY_COUNT
      ensures EntryOk(fmt, t.roles, t.roles[s], k, t.mem[s][k])
    {
      if s == a && k == 0 {
        assert t.roles[b] == Role(t.roles[s].level - 1, t.roles[s].prefix * ENTRY_COUNT + k);
      } else if s == b && k == 0 {
        assert t.roles[c] == Role(t.roles[s].level - 1, t.roles[s].prefix * ENTRY_COUNT + k);
      }
    }
  }

  ghost predicate RootGranted(attempts: seq<Attempt>) {
    3 <= |attempts| && attempts[0].Gives? && Granted(attempts[1]) && Granted(attempts[2])
  }

  /** `new` succeeds exactly when every allocation does, every table but the root
      resolves, and so does every page of the buffer. */
  ghost predicate CanBuild(attempts: seq<Attempt>, backing: Backing) {
    RootGranted(attempts) && forall i: nat :: i < TableCount(backing) ==> RoundGranted(attempts, backing, i)
  }

  /** The allocator after `new` has succeeded. */
  function Remaining(attempts: seq<Attempt>, backing: Backing): seq<Attempt> {
    if 3 + TableCount(backing) <= |attempts| then attempts[3 + TableCount(backing)..] else []
  }

  ghost predicate RoundGranted(attempts: seq<Attempt>, backing: Backing, i: nat) {
    3 + i < |attempts| && Granted(attempts[3 + i]) && RowResolves(backing, i)
  }

  method AllocThree(host: Host) returns (a: Attempt, b: Attempt, c: Attempt)
    requires host.Valid()
    modifies host, host.words
    ensures host.Valid()
    ensures a.Gives? && Granted(b) && Granted(c) <==> RootGranted(old(host.attempts))
    ensures RootGranted(old(host.attempts)) ==> host.attempts == old(host.attempts)[3..]
    ensures RootGranted(old(host.attempts)) ==>
              && a.frame != b.frame && a.frame != c.frame && b.frame != c.frame
              && IsFrame(a.frame) && IsFrame(b.frame) && IsFrame(c.frame)
              && host.mem == old(host.mem)[a.frame := EmptyTable()][b.frame := EmptyTable()][c.frame := EmptyTable()]
  {
    hide Host.Valid, Supply;
    b, c := Fails, Fails;
    a := host.Alloc();
    if a.Gives? {
      b := host.Alloc();
      if b.Gives? {
        c := host.Alloc();
      }
    }
  }

  method NewRoot(host: Host, fmt: Format, ghost backing: Backing) returns (r: Result<NestedTables>)
    requires host.Valid() && Nested(fmt) && Backed(backing)
    modifies host, host.words
    ensures host.Valid()
    ensures r.Ok? <==> RootGranted(old(host.attempts))
    ensures r.Ok? ==> fresh(r.value) && r.value.host == host && r.value.fmt == fmt && r.value.extra == []
    ensures r.Ok? ==> Built(r.value.View(), r.value.pts, backing, 0) && host.attempts == old(host.attempts)[3..]
    ensures r.Err? ==> r.error == AllocationFailed
  {
    hide Host.Valid, Supply, Built, Or;
    var a, b, c := AllocThree(host);
    if a.Gives? && Granted(b) && Granted(c) {
      EmptyTreeGood(fmt, host.mem, a.frame, b.frame, c.frame);
      var t := new NestedTables(host, fmt, a.resolves, a.frame, b.frame, c.frame);
      DecodeTable(fmt, 4, b.frame);
      DecodeTable(fmt, 4, c.frame);
      RootBuilt(fmt, host.mem, a.frame, b.frame, c.frame, backing);
      host.Store(a.frame, 0, Or(b.frame, TABLE_FLAGS));
      host.Store(b.frame, 0, Or(c.frame, TABLE_FLAGS));
      r := Ok(t);
    } else {
      r := Err(AllocationFailed);
    }
  }

  /** `Npt::new` and `Ept::new`. */
  method New(host: Host, fmt: Format, backing: Backing) returns (r: Result<NestedTables>)
    requires host.Valid() && Nested(fmt) && Backed(backing) && TableCount(backing) <= ENTRY_COUNT
    modifies host, host.words
    ensures host.Valid() && (r.Err? ==> r.error == AllocationFailed)
    ensures r.Ok? <==> CanBuild(old(host.attempts), backing)
    ensures r.Ok? ==> fresh(r.value) && r.value.Valid() && r.value.host == host && r.value.fmt == fmt
    ensures r.Ok? ==> Built(r.value.View(), r.value.pts, backing, TableCount(backing))
    ensures r.Ok? ==> host.attempts == Remaining(old(host.attempts), backing)
  {
    hide Host.Valid, Built, RowResolves;
    r := NewRoot(host, fmt, backing);
    if r.Err? {
      return;
    }
    ghost var attempts := old(host.attempts);
    var t := r.value;
    var i := 0;
    while i < TableCount(backing)
      invariant host.Valid() && t.host == host && i <= TableCount(backing) && t.extra == []
      invariant Built(t.View(), t.pts, backing, i)
      invariant 3 + i <= |attempts| && host.attempts == attempts[3 + i..]
      invariant forall k: nat :: k < i ==> RoundGranted(attempts, backing, k)
    {
      ghost var left := host.attempts;
      var ok := AddTable(t, i, backing);
      assert left != [] ==> FirstAttempt(left) == attempts[3 + i];
      assert ok == RoundGranted(attempts, backing, i);
      if !ok {
        return Err(AllocationFailed);
      }
      assert left[1..] == attempts[3 + (i + 1)..];
      i := i + 1;
    }
    BuiltGood(t.View(), t.pts, backing, i);
  }

  lemma BuiltGood(t: Tree, pts: seq<nat>, backing: Backing, i: nat)
    requires Built(t, pts, backing, i)
    ensures t.Good()
  {
  }
}
