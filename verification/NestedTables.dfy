/** The nested page tables of a virtual machine: `Npt` and `Ept`, which differ
    only in the entry format. A table is a heap array in a host-physical frame; the
    processor's view of all of them is the map `host.mem`, and `Tree.Translate` is
    the processor's walk over that map. */
module NestedTables {
  import opened Bits
  import opened Options
  import opened Paging

  /** The outcome of one page allocation: it fails, or it gives a page in `frame`,
      whose address the host may or may not be able to resolve. */
  datatype Attempt = Fails | Gives(frame: nat, resolves: bool)

  /** Fresh pages lie in frames of their own, in the part of memory the allocator hands out. */
  ghost predicate Supply(attempts: seq<Attempt>, used: set<nat>, pool: iset<nat>) {
    && (forall i :: 0 <= i < |attempts| && attempts[i].Gives? ==>
          IsFrame(attempts[i].frame) && attempts[i].frame !in used && attempts[i].frame in pool)
    && (forall i, j :: 0 <= i < j < |attempts| && attempts[i].Gives? && attempts[j].Gives? ==>
          attempts[i].frame != attempts[j].frame)
  }

  function FirstAttempt(attempts: seq<Attempt>): Attempt {
    if attempts == [] then Fails else attempts[0]
  }

  function RestAttempts(attempts: seq<Attempt>): seq<Attempt> {
    if attempts == [] then [] else attempts[1..]
  }

  predicate Granted(a: Attempt) {
    a.Gives? && a.resolves
  }

  /** How many allocations in a row are about to be granted. */
  function Grants(attempts: seq<Attempt>): nat {
    if attempts == [] || !Granted(attempts[0]) then 0 else 1 + Grants(attempts[1..])
  }

  lemma GrantStep(attempts: seq<Attempt>)
    ensures Grants(attempts) == if Granted(FirstAttempt(attempts)) then 1 + Grants(RestAttempts(attempts)) else 0
  {
  }

  lemma SupplyStep(attempts: seq<Attempt>, used: set<nat>, pool: iset<nat>)
    requires Supply(attempts, used, pool)
    ensures var a := FirstAttempt(attempts);
            && (a.Fails? ==> Supply(RestAttempts(attempts), used, pool))
            && (a.Gives? ==>
                  && IsFrame(a.frame) && a.frame !in used && a.frame in pool
                  && Supply(RestAttempts(attempts), used + {a.frame}, pool))
  {
  }

  /** Host-physical memory as an array of 64-bit words, and the host's allocator,
      given as the outcomes its next calls will have, all in frames of `pool`. `mem` is
      the part of memory that holds allocated pages, by frame. */
  class Host {
    const words: array<u64>
    ghost const pool: iset<nat>
    var attempts: seq<Attempt>
    ghost var mem: Mem

    ghost predicate Holds(t: nat)
      requires t in mem
      reads this`mem, words
    {
      IsFrame(t) && t / 8 + ENTRY_COUNT <= words.Length && mem[t] == words[t / 8..t / 8 + ENTRY_COUNT]
    }

    ghost predicate Valid()
      reads this, words
    {
      && Supply(attempts, mem.Keys, pool)
      && (forall t :: t in mem ==> t in pool)
      && (forall i :: 0 <= i < |attempts| && attempts[i].Gives? ==> attempts[i].frame / 8 + ENTRY_COUNT <= words.Length)
      && (forall t :: t in mem ==> Holds(t))
    }

    constructor (words: array<u64>, attempts: seq<Attempt>, ghost pool: iset<nat>)
      requires Supply(attempts, {}, pool)
      requires forall i :: 0 <= i < |attempts| && attempts[i].Gives? ==> attempts[i].frame / 8 + ENTRY_COUNT <= words.Length
      ensures Valid() && this.words == words && this.attempts == attempts && this.pool == pool && mem == map[]
    {
      this.words, this.attempts, this.pool, mem := words, attempts, pool, map[];
    }

    /** Frames do not overlap. */
    lemma Apart(t: nat, s: nat)
      requires IsFrame(t) && IsFrame(s) && t != s
      ensures t / 8 + ENTRY_COUNT <= s / 8 || s / 8 + ENTRY_COUNT <= t / 8
    {
      var a, b := t / PAGE, s / PAGE;
      Division(t, PAGE);
      Division(s, PAGE);
      QuotientIs(t, 8, ENTRY_COUNT * a, 0);
      QuotientIs(s, 8, ENTRY_COUNT * b, 0);
    }

    /** `alloc_zeroed`: clears the words of a frame. */
    method Clear(t: nat)
      requires IsFrame(t) && t / 8 + ENTRY_COUNT <= words.Length
      modifies words
      ensures words[t / 8..t / 8 + ENTRY_COUNT] == EmptyTable()
      ensures forall s: nat :: IsFrame(s) && s != t && s / 8 + ENTRY_COUNT <= words.Length ==>
                words[s / 8..s / 8 + ENTRY_COUNT] == old(words[s / 8..s / 8 + ENTRY_COUNT])
    {
      var base := t / 8;
      for i := 0 to ENTRY_COUNT
        invariant forall k :: base <= k < base + i ==> words[k] == 0
        invariant forall k :: 0 <= k < words.Length && !(t / 8 <= k < t / 8 + ENTRY_COUNT) ==> words[k] == old(words[k])
      {
        words[base + i] := 0;
      }
      forall s: nat | IsFrame(s) && s != t && s / 8 + ENTRY_COUNT <= words.Length
        ensures words[s / 8..s / 8 + ENTRY_COUNT] == old(words[s / 8..s / 8 + ENTRY_COUNT])
      {
        Apart(s, t);
      }
    }

    /** A cleared frame joins the allocated ones. */
    method Enter(t: nat)
      requires forall s :: s in mem ==> Holds(s)
      requires t !in mem && IsFrame(t) && t / 8 + ENTRY_COUNT <= words.Length
      modifies this`mem, words
      ensures mem == old(mem)[t := EmptyTable()]
      ensures forall s :: s in mem ==> Holds(s)
    {
      hide EmptyTable, IsFrame;
      Clear(t);
      mem := mem[t := EmptyTable()];
      forall s | s in mem
        ensures Holds(s)
      {
        assert s != t ==> old(s in mem && Holds(s));
      }
    }

    /** `alloc_table`: a zeroed page in a frame of its own. */
    method Alloc() returns (a: Attempt)
      requires Valid()
      modifies this, words
      ensures Valid()
      ensures a == FirstAttempt(old(attempts)) && attempts == RestAttempts(old(attempts))
      ensures a.Fails? ==> mem == old(mem)
      ensures a.Gives? ==> IsFrame(a.frame) && a.frame !in old(mem) && mem == old(mem)[a.frame := EmptyTable()]
    {
      hide Supply, EmptyTable, IsFrame, Holds;
      a := FirstAttempt(attempts);
      SupplyStep(attempts, mem.Keys, pool);
      if a.Gives? {
        Enter(a.frame);
        assert mem.Keys == old(mem).Keys + {a.frame};
      }
      attempts := RestAttempts(attempts);
      assert forall i :: 0 <= i < |attempts| ==> attempts[i] == old(attempts)[i + 1];
      assert forall s :: s in mem ==> Holds(s);
    }

    method Load(t: nat, i: nat) returns (e: u64)
      requires Valid() && t in mem && i < ENTRY_COUNT
      ensures i < |mem[t]| && e == mem[t][i]
    {
      assert Holds(t);
      e := words[t / 8 + i];
    }

    method Store(t: nat, i: nat, e: u64)
      requires Valid() && t in mem && i < ENTRY_COUNT
      modifies this`mem, words
      ensures Valid() && i < |old(mem)[t]| && mem == SetEntry(old(mem), t, i, e)
    {
      assert Holds(t);
      words[t / 8 + i] := e;
      mem := SetEntry(mem, t, i, e);
      forall s | s in old(mem)
        ensures Holds(s)
      {
        assert old(Holds(s));
        if s != t {
          Apart(s, t);
        }
      }
    }

    /** Allocates a table and, if its address resolves, stores its entry. */
    method AllocInto(parent: nat, i: nat) returns (a: Attempt)
      requires Valid() && parent in mem && i < |mem[parent]| == ENTRY_COUNT
      modifies this, words
      ensures Valid() && a == FirstAttempt(old(attempts)) && attempts == RestAttempts(old(attempts))
      ensures a.Gives? ==> IsFrame(a.frame) && a.frame !in old(mem) && Or(a.frame, TABLE_FLAGS) < WORD
      ensures mem == AfterAttempt(old(mem), parent, i, a)
    {
      a := Alloc();
      if a.Gives? {
        DecodeTable(Npt, 4, a.frame);
        if a.resolves {
          Store(parent, i, Or(a.frame, TABLE_FLAGS));
        }
      }
    }
  }

  /** Entry `i` of the table in frame `t`, zero where there is none. */
  function Slot(mem: Mem, t: nat, i: nat): u64 {
    if t in mem && i < |mem[t]| then mem[t][i] else 0
  }

  function Missing(mem: Mem, t: nat, i: nat): nat {
    if Slot(mem, t, i) == 0 then 1 else 0
  }

  /** How many tables `map_page` has to allocate for page `n`. */
  function Needs(mem: Mem, pdpt: nat, n: nat): nat {
    var e := Slot(mem, pdpt, Index(n, 3));
    if e == 0 then 2 else if Slot(mem, And(e, ADDR_MASK), Index(n, 2)) == 0 then 1 else 0
  }

  /** The directory on the path of page `n` has no entry but the page's. */
  ghost predicate Opened(mem: Mem, pdpt: nat, n: nat) {
    var e := Slot(mem, pdpt, Index(n, 3));
    e != 0 && forall k: nat :: k != Index(n, 2) ==> Slot(mem, And(e, ADDR_MASK), k) == 0
  }

  lemma OpenedNeeds(mem: Mem, pdpt: nat, n: nat, m: nat)
    requires Opened(mem, pdpt, n) && Index(m, 3) == Index(n, 3) && Index(m, 2) != Index(n, 2)
    ensures Needs(mem, pdpt, m) == 1
  {
  }

  /** The allocations a call took, and whether there were enough. */
  ghost predicate Took<T>(before: seq<Attempt>, after: seq<Attempt>, needs: nat, r: Result<T>) {
    && (r.Ok? <==> needs <= Grants(before))
    && (r.Ok? ==> Grants(after) == Grants(before) - needs)
    && (r.Err? ==> r == Err(AllocationFailed))
  }

  /** The slot names the child afterwards; a child that had to be made is empty; no other entry of
      a table that was there is changed. */
  ghost predicate Filled(mem: Mem, mem': Mem, parent: nat, i: nat, r: Result<nat>) {
    && (r.Ok? ==> Slot(mem', parent, i) != 0 && r.value == And(Slot(mem', parent, i), ADDR_MASK))
    && (Slot(mem, parent, i) != 0 ==> mem' == mem)
    && (r.Ok? && Slot(mem, parent, i) == 0 ==> forall k: nat :: Slot(mem', r.value, k) == 0)
    && OthersKept(mem, mem', parent, i)
  }

  ghost predicate OthersKept(mem: Mem, mem': Mem, parent: nat, i: nat) {
    forall t, k: nat :: t in mem && (t != parent || k != i) ==> Slot(mem', t, k) == Slot(mem, t, k)
  }

  /** Two calls of `child_or_alloc`, down the path of page `n`. */
  lemma TwoFills(m0: Mem, m1: Mem, m2: Mem, pdpt: nat, n: nat, d: nat, r: Result<nat>)
    requires Filled(m0, m1, pdpt, Index(n, 3), Ok(d)) && Filled(m1, m2, d, Index(n, 2), r)
    requires pdpt in m1 && d in m1 && d != pdpt
    ensures Needs(m0, pdpt, n) == Missing(m0, pdpt, Index(n, 3)) + Missing(m1, d, Index(n, 2))
    ensures r.Ok? && Needs(m0, pdpt, n) == 2 ==> Opened(m2, pdpt, n)
  {
    hide And, Index;
  }

  lemma TookTwice(a0: seq<Attempt>, a1: seq<Attempt>, a2: seq<Attempt>, n1: nat, n2: nat, d: nat, r: Result<nat>)
    requires Took(a0, a1, n1, Ok(d)) && Took(a1, a2, n2, r)
    ensures Took(a0, a2, n1 + n2, r)
  {
    hide Grants;
  }

  lemma FirstRefused(mem: Mem, pdpt: nat, n: nat, a0: seq<Attempt>, a1: seq<Attempt>, r: Result<nat>)
    requires Took(a0, a1, Missing(mem, pdpt, Index(n, 3)), r) && r.Err?
    ensures Took(a0, a1, Needs(mem, pdpt, n), r)
  {
    hide Grants, And;
  }

  lemma OtherTable(mem: Mem, b: nat, i: nat, e: u64, t: nat)
    requires b in mem && i < |mem[b]| && t != b
    ensures forall k: nat :: Slot(SetEntry(mem, b, i, e), t, k) == Slot(mem, t, k)
  {
  }

  lemma NoBitOfZero(e: u64)
    ensures And(e, 1) != 0 ==> e != 0
  {
  }

  lemma AlreadyFilled(mem: Mem, parent: nat, i: nat)
    requires Slot(mem, parent, i) != 0
    ensures Filled(mem, mem, parent, i, Ok(And(Slot(mem, parent, i), ADDR_MASK)))
  {
  }

  lemma AttemptFills(mem: Mem, parent: nat, i: nat, a: Attempt)
    requires parent in mem && i < |mem[parent]| && mem[parent][i] == 0
    requires a.Gives? ==> a.frame !in mem && IsFrame(a.frame) && Or(a.frame, TABLE_FLAGS) < WORD
    ensures var r := if Granted(a) then Ok(a.frame) else Err(AllocationFailed);
            Filled(mem, AfterAttempt(mem, parent, i, a), parent, i, r)
  {
    if a.Gives? {
      EntryRoundTrip(a.frame, TABLE_FLAGS);
    }
    hide And, Or;
  }

  /** What `child_or_alloc` does to memory for an allocation outcome. */
  function AfterAttempt(mem: Mem, parent: nat, i: nat, a: Attempt): Mem
    requires parent in mem && i < |mem[parent]|
    requires a.Gives? ==> a.frame != parent && Or(a.frame, TABLE_FLAGS) < WORD
  {
    if Granted(a) then LinkTable(mem, parent, i, a.frame)
    else if a.Gives? then mem[a.frame := EmptyTable()]
    else mem
  }

  /** Every page translates alike in both states of the tree below `root`. */
  ghost predicate SameWalks(fmt: Format, mem: Mem, mem': Mem, root: nat) {
    forall n: nat :: n < PAGE_COUNT ==> WalkTables(fmt, mem', root, 4, n) == WalkTables(fmt, mem, root, 4, n)
  }

  /** What was present stays. */
  ghost predicate KeepsEntries(mem: Mem, mem': Mem) {
    forall t, i :: t in mem && 0 <= i < |mem[t]| && mem[t][i] != 0 ==>
      t in mem' && i < |mem'[t]| && mem'[t][i] == mem[t][i]
  }

  /** Every page but `n` translates alike. */
  ghost predicate SameWalksBut(fmt: Format, mem: Mem, mem': Mem, root: nat, n: nat) {
    forall m: nat :: m < PAGE_COUNT && m != n ==> WalkTables(fmt, mem', root, 4, m) == WalkTables(fmt, mem, root, 4, m)
  }

  /** A table that `map_page` may have to find again by its frame number. */
  predicate OnDemand(r: Role) {
    (r.level == 2 && 1 <= r.prefix) || (r.level == 1 && ENTRY_COUNT <= r.prefix)
  }

  lemma PathPrefix(n: nat)
    requires n / Span(3) == 0
    ensures Index(n, 3) * ENTRY_COUNT + Index(n, 2) == n / Span(1)
  {
    PrefixStep(n, 3);
    PrefixStep(n, 2);
  }

  ghost predicate NoRepeats(s: seq<nat>) {
    forall i, j :: 0 <= i < j < |s| ==> s[i] != s[j]
  }

  /** The tables of a tree as the processor sees them: contents by frame, the part
      of the address space each one covers, and the frames of the on-demand ones. */
  datatype Tree = Tree(fmt: Format, mem: Mem, roles: map<nat, Role>, pml4: nat, pdpt: nat, pd: nat, extra: seq<nat>) {
    ghost predicate Good() {
      && TreeOk(fmt, mem, roles)
      && pml4 in roles && pdpt in roles && pd in roles
      && roles[pml4] == Role(4, 0) && roles[pdpt] == Role(3, 0) && roles[pd] == Role(2, 0)
      && (forall t :: t in roles && OnDemand(roles[t]) ==> t in extra)
      && (forall t :: t in extra ==> t in roles) && NoRepeats(extra)
    }

    function Translate(n: nat): Outcome {
      WalkTables(fmt, mem, pml4, 4, n)
    }

    /** `t` is `this` grown by tables that map nothing. */
    ghost predicate GrownTo(t: Tree) {
      && t.fmt == fmt && t.pml4 == pml4 && t.pdpt == pdpt && t.pd == pd
      && (forall f :: f in roles ==> f in t.roles && t.roles[f] == roles[f])
      && KeepsEntries(mem, t.mem) && SameWalks(fmt, mem, t.mem, pml4) && Claims(t)
    }

    /** The tables of `t` that are new lie in frames that held nothing. */
    ghost predicate Claims(t: Tree) {
      && (forall f :: f in t.roles && f !in roles ==> f !in mem)
      && (forall f :: f in mem ==> f in t.mem)
    }

    ghost predicate HasChild(parent: nat, i: nat, child: nat) {
      && parent in roles && parent in mem && i < |mem[parent]| && child in roles
      && 2 <= roles[parent].level && roles[child] == ChildRole(roles[parent], i)
      && IsFrame(child) && mem[parent][i] == Or(child, TABLE_FLAGS)
    }

    ghost predicate HasSlot(parent: nat, i: nat) {
      parent in roles && parent in mem && 2 <= roles[parent].level && |mem[parent]| == ENTRY_COUNT && i < ENTRY_COUNT
    }

    function Link(parent: nat, i: nat, c: nat): Tree
      requires parent in mem && parent in roles && 2 <= roles[parent].level
      requires parent != c && i < |mem[parent]| && Or(c, TABLE_FLAGS) < WORD
    {
      this.(mem := LinkTable(mem, parent, i, c), roles := roles[c := ChildRole(roles[parent], i)], extra := extra + [c])
    }

    /** Linking an empty table into an empty slot keeps every translation. */
    lemma LinkGrows(parent: nat, i: nat, c: nat)
      requires Good() && HasSlot(parent, i) && mem[parent][i] == 0
      requires c !in mem && IsFrame(c)
      ensures Or(c, TABLE_FLAGS) < WORD
      ensures Link(parent, i, c).Good() && GrownTo(Link(parent, i, c)) && Link(parent, i, c).HasChild(parent, i, c)
    {
      hide And, Or, Walk, WalkTables, SameWalks, KeepsEntries, Claims, NoRepeats, Decode, EntryOk, IsFrame;
      DecodeTable(fmt, 4, c);
      LinkKeepsTree(fmt, mem, roles, parent, i, c);
      LinkKeepsWalks(parent, i, c);
      LinkKeepsEntries(parent, i, c);
      LinkKeepsExtra(parent, i, c);
    }

    lemma LinkKeepsEntries(parent: nat, i: nat, c: nat)
      requires HasSlot(parent, i) && mem[parent][i] == 0 && c !in mem && Or(c, TABLE_FLAGS) < WORD
      ensures KeepsEntries(mem, Link(parent, i, c).mem) && Claims(Link(parent, i, c))
    {
      hide And, Or;
    }

    lemma LinkKeepsExtra(parent: nat, i: nat, c: nat)
      requires Good() && HasSlot(parent, i) && c !in mem && Or(c, TABLE_FLAGS) < WORD
      ensures var t := Link(parent, i, c);
              && (forall s :: s in t.roles && OnDemand(t.roles[s]) ==> s in t.extra)
              && (forall s :: s in t.extra ==> s in t.roles) && NoRepeats(t.extra)
    {
      hide And, Or, EntryOk, OnDemand;
    }

    lemma LinkKeepsWalks(parent: nat, i: nat, c: nat)
      requires CanLink(fmt, mem, roles, parent, i, c) && pml4 in roles && roles[pml4] == Role(4, 0)
      ensures SameWalks(fmt, mem, LinkTable(mem, parent, i, c), pml4)
    {
      forall n: nat | n < PAGE_COUNT
        ensures WalkTables(fmt, LinkTable(mem, parent, i, c), pml4, 4, n) == WalkTables(fmt, mem, pml4, 4, n)
      {
        LinkFrame(fmt, mem, roles, parent, i, c, pml4, 4, n);
      }
    }

    /** A page that is allocated but never linked changes nothing. */
    lemma UnusedPage(a: Attempt)
      requires Good() && (a.Gives? ==> a.frame !in mem)
      ensures var t := this.(mem := if a.Gives? then mem[a.frame := EmptyTable()] else mem); t.Good() && GrownTo(t)
    {
      if a.Gives? {
        var mem' := mem[a.frame := EmptyTable()];
        forall n: nat | n < PAGE_COUNT
          ensures WalkTables(fmt, mem', pml4, 4, n) == WalkTables(fmt, mem, pml4, 4, n)
        {
          SpareFrame(fmt, mem, roles, a.frame, pml4, 4, n);
        }
      }
    }

    lemma ChildDiffers(parent: nat, i: nat, c: nat)
      requires Good() && HasChild(parent, i, c)
      ensures c != parent && parent in mem && c in mem
    {
    }

    lemma GrownToItself()
      ensures GrownTo(this)
    {
    }

    lemma GrownTrans(t: Tree, u: Tree)
      requires GrownTo(t) && t.GrownTo(u)
      ensures GrownTo(u)
    {
    }

    lemma PdptSlot(i: nat)
      requires Good() && 1 <= i < ENTRY_COUNT
      ensures HasSlot(pdpt, i) && OnDemand(ChildRole(roles[pdpt], i))
    {
    }

    lemma DirectorySlot(i: nat, dir: nat, k: nat)
      requires Good() && 1 <= i < ENTRY_COUNT && HasChild(pdpt, i, dir) && k < ENTRY_COUNT
      ensures HasSlot(dir, k) && OnDemand(ChildRole(roles[dir], k))
    {
    }

    lemma PathFrom(n: nat, a: nat, b: nat)
      requires n < Span(3)
      requires HasChild(pml4, 0, pdpt) && HasChild(pdpt, Index(n, 3), a) && HasChild(a, Index(n, 2), b)
      ensures Path(n, a, b)
    {
    }

    lemma GrownWalks(t: Tree)
      requires GrownTo(t)
      ensures SameWalks(fmt, mem, t.mem, pml4) && Claims(t)
    {
    }

    lemma ChildStays(t: Tree, parent: nat, i: nat, child: nat)
      requires GrownTo(t) && HasChild(parent, i, child) && t.Good()
      ensures t.HasChild(parent, i, child)
    {
      DecodeTable(Npt, 4, child);
    }

    function WithLeaf(pt: nat, i: nat, h: nat): Tree
      requires pt in mem && i < |mem[pt]| && Or(h, LeafFlags(fmt)) < WORD
    {
      this.(mem := SetEntry(mem, pt, i, Or(h, LeafFlags(fmt))))
    }

    /** `a` and `b` are the directory and the table on the path of page `n`, which
        lies below the first PDPT. */
    ghost predicate Path(n: nat, a: nat, b: nat) {
      && n / Span(3) == 0
      && HasChild(pml4, 0, pdpt) && HasChild(pdpt, Index(n, 3), a) && HasChild(a, Index(n, 2), b)
    }

    lemma PathRole(n: nat, a: nat, b: nat)
      requires Good() && Path(n, a, b)
      ensures roles[b] == Role(1, n / Span(1))
    {
      PathPrefix(n);
      hide TreeOk, Index, NoRepeats;
    }

    /** Storing a leaf at the end of a page's path maps that page and no other. */
    lemma LeafMaps(n: nat, a: nat, b: nat, h: nat)
      requires Good() && Path(n, a, b) && IsFrame(h)
      ensures Or(h, LeafFlags(fmt)) < WORD && b in mem && |mem[b]| == ENTRY_COUNT
      ensures WithLeaf(b, Index(n, 1), h).Good() && WithLeaf(b, Index(n, 1), h).Translate(n) == Hit(h, RWX)
      ensures WithLeaf(b, Index(n, 1), h).HasChild(pml4, 0, pdpt)
      ensures SameWalksBut(fmt, mem, WithLeaf(b, Index(n, 1), h).mem, pml4, n)
    {
      DecodeLeaf(fmt, h);
      PathRole(n, a, b);
      SetLeafKeepsTree(fmt, mem, roles, b, Index(n, 1), h);
      LeafHit(n, a, b, h);
      LeafLeavesOthers(n, b, h);
    }

    lemma LeafKeepsOpened(n: nat, a: nat, b: nat, h: nat)
      requires Good() && Path(n, a, b) && Or(h, LeafFlags(fmt)) < WORD && b in mem && |mem[b]| == ENTRY_COUNT
      ensures Opened(mem, pdpt, n) ==> Opened(WithLeaf(b, Index(n, 1), h).mem, pdpt, n)
    {
      hide And, Or, Index, TreeOk, NoRepeats;
      EntryRoundTrip(a, TABLE_FLAGS);
      OtherTable(mem, b, Index(n, 1), Or(h, LeafFlags(fmt)), pdpt);
      OtherTable(mem, b, Index(n, 1), Or(h, LeafFlags(fmt)), a);
      assert And(Slot(mem, pdpt, Index(n, 3)), ADDR_MASK) == a;
    }

    lemma LeafLeavesOthers(n: nat, b: nat, h: nat)
      requires Good() && b in roles && roles[b] == Role(1, n / Span(1)) && IsFrame(h) && Or(h, LeafFlags(fmt)) < WORD
      ensures SameWalksBut(fmt, mem, SetEntry(mem, b, Index(n, 1), Or(h, LeafFlags(fmt))), pml4, n)
    {
      forall m: nat | m < PAGE_COUNT && m != n
        ensures WalkTables(fmt, SetEntry(mem, b, Index(n, 1), Or(h, LeafFlags(fmt))), pml4, 4, m)
             == WalkTables(fmt, mem, pml4, 4, m)
      {
        SetLeafFrame(fmt, mem, roles, b, Index(n, 1), h, pml4, 4, m);
      }
    }

    lemma LeafHit(n: nat, a: nat, b: nat, h: nat)
      requires Good() && Path(n, a, b) && IsFrame(h) && Or(h, LeafFlags(fmt)) < WORD
      ensures WithLeaf(b, Index(n, 1), h).Translate(n) == Hit(h, RWX)
    {
      PathRole(n, a, b);
      var t := WithLeaf(b, Index(n, 1), h);
      Follow(fmt, t.mem, pml4, 4, n, pdpt);
      Follow(fmt, t.mem, pdpt, 3, n, a);
      Follow(fmt, t.mem, a, 2, n, b);
      FollowLeaf(fmt, t.mem, b, n, h);
    }

    /** An entry that passes the presence test names exactly one on-demand table, the one that
        covers it. */
    lemma PresentChild(parent: nat, i: nat)
      requires Good() && HasSlot(parent, i) && And(mem[parent][i], 1) != 0
      requires OnDemand(ChildRole(roles[parent], i))
      ensures var c := And(mem[parent][i], ADDR_MASK);
              && HasChild(parent, i, c) && c in extra
              && (forall k, l :: 0 <= k < |extra| && 0 <= l < |extra| && extra[k] == c && extra[l] == c ==> k == l)
    {
      var e := mem[parent][i];
      assert EntryOk(fmt, roles, roles[parent], i, e);
      var c :| c in roles && IsFrame(c) && e == Or(c, TABLE_FLAGS)
               && roles[c] == Role(roles[parent].level - 1, roles[parent].prefix * ENTRY_COUNT + i);
      EntryRoundTrip(c, TABLE_FLAGS);
    }

    /** An entry that fails the presence test is empty. */
    lemma AbsentChild(parent: nat, i: nat)
      requires Good() && HasSlot(parent, i) && And(mem[parent][i], 1) == 0
      ensures mem[parent][i] == 0
    {
      var e := mem[parent][i];
      assert EntryOk(fmt, roles, roles[parent], i, e);
      if e != 0 {
        var c :| c in roles && IsFrame(c) && e == Or(c, TABLE_FLAGS)
                 && roles[c] == Role(roles[parent].level - 1, roles[parent].prefix * ENTRY_COUNT + i);
        DecodeTable(fmt, 4, c);
      }
    }
  }

  class NestedTables {
    const host: Host
    const fmt: Format
    const rootResolves: bool
    const pml4: nat
    const pdpt: nat
    const pd: nat
    var pts: seq<nat>
    var extra: seq<nat>
    ghost var roles: map<nat, Role>

    ghost function View(): Tree
      reads this, host
    {
      Tree(fmt, host.mem, roles, pml4, pdpt, pd, extra)
    }

    ghost predicate Valid()
      reads this, host, host.words
    {
      host.Valid() && View().Good()
    }

    constructor (host: Host, fmt: Format, rootResolves: bool, pml4: nat, pdpt: nat, pd: nat)
      requires host.Valid() && EmptyTree(fmt, host.mem, pml4, pdpt, pd).Good()
      ensures Valid() && this.host == host && View() == EmptyTree(fmt, host.mem, pml4, pdpt, pd) && pts == []
    {
      this.host, this.fmt, this.rootResolves := host, fmt, rootResolves;
      this.pml4, this.pdpt, this.pd := pml4, pdpt, pd;
      pts, extra := [], [];
      roles := map[pml4 := Role(4, 0), pdpt := Role(3, 0), pd := Role(2, 0)];
    }

    /** `ncr3` and `eptp`: the pointer from which the processor recovers the root, and
        in EPT format the walk length (bits 5:3) and memory type (bits 2:0). */
    method Pointer() returns (r: Result<nat>)
      requires IsFrame(pml4)
      ensures r.Ok? <==> rootResolves
      ensures r.Ok? ==> And(r.value, ADDR_MASK) == pml4
      ensures r.Ok? && fmt.Ept? ==> r.value / 8 % 8 == 3 && r.value % 8 == 6
      ensures r.Ok? && !fmt.Ept? ==> r.value == pml4
    {
      hide And, Or;
      if !rootResolves {
        return Err(AllocationFailed);
      }
      EntryRoundTrip(pml4, if fmt.Ept? then 0x1E else 0);
      EptpFlags(pml4);
      EptpBits(pml4);
      r := Ok(if fmt.Ept? then Or(Or(pml4, 0x18), 0x6) else pml4);
    }

    method FindExtra(hpa: nat) returns (found: bool)
      ensures found <==> hpa in extra
    {
      var k := 0;
      while k < |extra| && extra[k] != hpa
        invariant 0 <= k <= |extra|
        invariant forall m :: 0 <= m < k ==> extra[m] != hpa
      {
        k := k + 1;
      }
      found := k < |extra|;
    }

    /** The child of a table in `map_page`'s part of the tree. The lookup among the
        on-demand tables never fails: the only errors are the host's. */
    method ChildOrAlloc(parent: nat, idx: nat) returns (r: Result<nat>)
      requires Valid() && View().HasSlot(parent, idx) && OnDemand(ChildRole(roles[parent], idx))
      modifies this`extra, this`roles, host, host.words
      ensures Valid()
      ensures old(View()).GrownTo(View())
      ensures r.Ok? ==> View().HasChild(parent, idx, r.value)
      ensures Took(old(host.attempts), host.attempts, Missing(old(host.mem), parent, idx), r)
      ensures Filled(old(host.mem), host.mem, parent, idx, r)
    {
      hide Tree.Good, Tree.GrownTo, Tree.HasChild, Supply, Grants, And, OnDemand, Filled;
      View().GrownToItself();
      var e := host.Load(parent, idx);
      if And(e, 1) != 0 {
        assert e != 0 by { NoBitOfZero(e); }
        AlreadyFilled(host.mem, parent, idx);
        View().PresentChild(parent, idx);
        var found := FindExtra(And(e, ADDR_MASK));
        r := if found then Ok(And(e, ADDR_MASK)) else Err(AllocationFailed);
      } else {
        View().AbsentChild(parent, idx);
        r := AllocChild(parent, idx);
      }
    }

    method AllocChild(parent: nat, idx: nat) returns (r: Result<nat>)
      requires Valid() && View().HasSlot(parent, idx) && host.mem[parent][idx] == 0
      modifies this`extra, this`roles, host, host.words
      ensures Valid()
      ensures old(View()).GrownTo(View())
      ensures r.Ok? ==> View().HasChild(parent, idx, r.value)
      ensures Took(old(host.attempts), host.attempts, 1, r)
      ensures Filled(old(host.mem), host.mem, parent, idx, r)
    {
      hide Tree.Good, Tree.GrownTo, SameWalks, Supply, Grants, Filled, And, Or, LinkTable, FirstAttempt, RestAttempts;
      hide Tree.HasChild, ChildRole, Host.Valid, IsFrame, EmptyTable;
      GrantStep(host.attempts);
      var a := host.AllocInto(parent, idx);
      AttemptFills(old(host.mem), parent, idx, a);
      if Granted(a) {
        old(View()).LinkGrows(parent, idx, a.frame);
        roles := roles[a.frame := ChildRole(roles[parent], idx)];
        extra := extra + [a.frame];
        r := Ok(a.frame);
      } else {
        old(View()).UnusedPage(a);
        r := Err(AllocationFailed);
      }
    }

    /** The two calls of `child_or_alloc`: the leaf table of `gpa`'s path. */
    method LeafTable(gpa: u64) returns (r: Result<nat>, ghost dir: nat)
      requires Valid() && View().HasChild(pml4, 0, pdpt) && Mappable(gpa)
      modifies this`extra, this`roles, host, host.words
      ensures Valid()
      ensures old(View()).GrownTo(View()) && View().HasChild(pml4, 0, pdpt)
      ensures r.Ok? ==> View().Path(PageOf(gpa), dir, r.value)
      ensures Took(old(host.attempts), host.attempts, Needs(old(host.mem), pdpt, PageOf(gpa)), r)
      ensures r.Ok? && Needs(old(host.mem), pdpt, PageOf(gpa)) == 2 ==> Opened(host.mem, pdpt, PageOf(gpa))
    {
      hide Host.Valid, Tree.Good, Tree.GrownTo, Tree.HasChild, Tree.HasSlot, Tree.Path, Took, Filled, Needs, Opened, Slot;
      hide OnDemand, ChildRole, Mappable, Field, PageOf, Index, Span, Grants;
      dir := 0;
      FieldsArePath(gpa);
      MappableIff(gpa);
      MappableTop(gpa);
      View().PdptSlot(Field(gpa, 0x4000_0000));
      r := ChildOrAlloc(pdpt, Field(gpa, 0x4000_0000));
      old(View()).ChildStays(View(), pml4, 0, pdpt);
      if r.Ok? {
        dir := r.value;
        label L: View().DirectorySlot(Field(gpa, 0x4000_0000), dir, Field(gpa, 0x20_0000));
        View().ChildDiffers(pdpt, Field(gpa, 0x4000_0000), dir);
        r := ChildOrAlloc(r.value, Field(gpa, 0x20_0000));
        TwoFills(old(host.mem), old@L(host.mem), host.mem, pdpt, PageOf(gpa), dir, r);
        TookTwice(old(host.attempts), old@L(host.attempts), host.attempts, Missing(old(host.mem), pdpt, Index(PageOf(gpa), 3)),
                  Missing(old@L(host.mem), dir, Index(PageOf(gpa), 2)), dir, r);
        old@L(View()).ChildStays(View(), pml4, 0, pdpt);
        old@L(View()).ChildStays(View(), pdpt, Field(gpa, 0x4000_0000), dir);
        old(View()).GrownTrans(old@L(View()), View());
        if r.Ok? {
          View().PathFrom(PageOf(gpa), dir, r.value);
        }
      } else {
        FirstRefused(old(host.mem), pdpt, PageOf(gpa), old(host.attempts), host.attempts, r);
      }
    }

    /** Maps one page, or on failure changes no translation at all. */
    method MapPage(gpa: u64, hpa: nat) returns (r: Result<()>)
      requires Valid() && View().HasChild(pml4, 0, pdpt) && Mappable(gpa) && IsFrame(hpa)
      modifies this`extra, this`roles, host, host.words
      ensures Valid() && View().HasChild(pml4, 0, pdpt)
      ensures r.Ok? ==> View().Translate(PageOf(gpa)) == Hit(hpa, RWX)
      ensures r.Ok? ==> SameWalksBut(fmt, old(host.mem), host.mem, pml4, PageOf(gpa))
      ensures r.Err? ==> SameWalks(fmt, old(host.mem), host.mem, pml4)
      ensures old(View()).Claims(View())
      ensures Took(old(host.attempts), host.attempts, Needs(old(host.mem), pdpt, PageOf(gpa)), r)
      ensures r.Ok? && Needs(old(host.mem), pdpt, PageOf(gpa)) == 2 ==> Opened(host.mem, pdpt, PageOf(gpa))
    {
      hide Tree.Good, Tree.GrownTo, SameWalks, SameWalksBut, Tree.Path, Tree.HasChild, Grants, Needs, Opened;
      hide Host.Valid, And, Or, PageOf, Mappable;
      FieldsArePath(gpa);
      var table, dir := LeafTable(gpa);
      old(View()).GrownWalks(View());
      if table.Err? {
        r := Err(table.error);
      } else {
        ghost var v := View();
        v.LeafMaps(PageOf(gpa), dir, table.value, hpa);
        v.LeafKeepsOpened(PageOf(gpa), dir, table.value, hpa);
        host.Store(table.value, Field(gpa, 0x1000), Or(hpa, LeafFlags(fmt)));
        assert View() == v.WithLeaf(table.value, Index(PageOf(gpa), 1), hpa);
        SameThenBut(fmt, old(host.mem), v.mem, host.mem, pml4, PageOf(gpa));
        r := Ok(());
      }
    }
  }

  lemma SameThenBut(fmt: Format, m0: Mem, m1: Mem, m2: Mem, root: nat, n: nat)
    requires SameWalks(fmt, m0, m1, root) && SameWalksBut(fmt, m1, m2, root, n)
    ensures SameWalksBut(fmt, m0, m2, root, n)
  {
  }

  /** The page `map_page` addresses: its index fields read bits 47:12 only. */
  function PageOf(gpa: u64): nat {
    gpa / PAGE % PAGE_COUNT
  }

  lemma EptpBits(pml4: nat)
    requires pml4 % PAGE == 0
    ensures (pml4 + 0x1E) / 8 % 8 == 3 && (pml4 + 0x1E) % 8 == 6
  {
    var q := pml4 / PAGE;
    assert pml4 + 0x1E == 8 * (8 * (64 * q) + 3) + 6;
  }

  /** `pml4 | EPT_WALK_LENGTH_4 | EPT_POINTER_MEMORY_TYPE_WB`. */
  lemma EptpFlags(pml4: nat)
    requires IsFrame(pml4)
    ensures Or(Or(pml4, 0x18), 0x6) == Or(pml4, 0x1E) == pml4 + 0x1E
  {
    OrFlags(pml4, 0x1E, 0);
    OrFlags(pml4, 0x18, 0);
    OrMoreFlags(pml4, 0x18, 0x6, 0);
    assert Or(0x18, 0x6) == 0x1E;
  }

  /** The asserts of `map_page`. */
  predicate Mappable(gpa: u64) {
    Field(gpa, 0x80_0000_0000) == 0 && Field(gpa, 0x4000_0000) != 0
  }

  /** What the asserts admit: the page number, taken modulo the 48-bit space, lies
      between 1 GiB and 512 GiB. */
  lemma MappableIff(gpa: u64)
    ensures Mappable(gpa) <==> Span(2) <= PageOf(gpa) < Span(3)
  {
    FieldsArePath(gpa);
    TopIndices(PageOf(gpa));
  }

  lemma TopIndices(n: nat)
    requires n < PAGE_COUNT
    ensures Index(n, 4) == 0 <==> n < Span(3)
    ensures n < Span(3) ==> (Index(n, 3) == 0 <==> n < Span(2))
  {
    Division(n, Span(3));
    Division(n, Span(2));
  }

  lemma MappableTop(gpa: u64)
    requires Mappable(gpa)
    ensures 1 <= Field(gpa, 0x4000_0000) < ENTRY_COUNT && Field(gpa, 0x20_0000) < ENTRY_COUNT
  {
    FieldsArePath(gpa);
    hide And;
  }

  /** The addresses above the documented limit of 512 GiB that the asserts let through all the
      same: those whose remainder modulo 2^48 they are meant for, which is the page that gets
      mapped. There are some. */
  lemma MappableAboveLimit(gpa: u64)
    requires 0x80_0000_0000 <= gpa
    ensures Mappable(gpa) <==> 0x4000_0000 <= gpa % 0x1_0000_0000_0000 < 0x80_0000_0000
    ensures PageOf(gpa) == PageOf(gpa % 0x1_0000_0000_0000)
    ensures Mappable(0x1_0000_4000_0000)
  {
    hide Mappable;
    Wrapped(gpa);
    MappableIff(gpa);
    MappableIff(0x1_0000_4000_0000);
  }

  lemma Wrapped(gpa: u64)
    ensures var low := gpa % 0x1_0000_0000_0000;
            && PageOf(gpa) == PageOf(low) == low / PAGE
            && (Span(2) <= low / PAGE < Span(3) <==> 0x4000_0000 <= low < 0x80_0000_0000)
  {
    var q, low := gpa / 0x1_0000_0000_0000, gpa % 0x1_0000_0000_0000;
    assert gpa == PAGE * (PAGE_COUNT * q) + low;
    assert gpa / PAGE == PAGE_COUNT * q + low / PAGE;
  }

  /** `(gpa >> shift) & 0x1ff`, with `weight` the power of two of the shift. */
  function Field(gpa: u64, weight: nat): nat
    requires 0 < weight
  {
    And(gpa / weight, 0x1FF)
  }

  lemma FieldIs(x: nat, k: nat)
    requires k == 0
    ensures And(x, 0x1FF) == x % 0x200
  {
    Plus9(k);
    AndFieldArithmetic(x, k, k + 9, 1, 0x200, 0x1FF);
  }

  lemma LowField(x: nat, low: nat, d: nat, m: nat)
    requires 0 < d && x == d * (0x200 * m) + low
    ensures x / d % 0x200 == low / d % 0x200
  {
    var a, b := low / d, low % d;
    Division(low, d);
    Division(a, 0x200);
    assert x == d * (0x200 * m + a) + b;
    QuotientIs(x, d, 0x200 * m + a, b);
    QuotientIs(0x200 * m + a, 0x200, m + a / 0x200, a % 0x200);
  }

  lemma DropHighBits(x: nat)
    ensures x % PAGE_COUNT % 0x200 == x % 0x200
    ensures x % PAGE_COUNT / 0x200 % 0x200 == x / 0x200 % 0x200
    ensures x % PAGE_COUNT / 0x4_0000 % 0x200 == x / 0x4_0000 % 0x200
    ensures x % PAGE_COUNT / 0x800_0000 % 0x200 == x / 0x800_0000 % 0x200
  {
    var q, low := x / PAGE_COUNT, x % PAGE_COUNT;
    Division(x, PAGE_COUNT);
    LowField(x, low, 1, 0x800_0000 * q);
    LowField(x, low, 0x200, 0x4_0000 * q);
    LowField(x, low, 0x4_0000, 0x200 * q);
    LowField(x, low, 0x800_0000, q);
  }

  lemma ShiftBySteps(gpa: nat)
    ensures gpa / 0x20_0000 == gpa / 0x1000 / 0x200
    ensures gpa / 0x4000_0000 == gpa / 0x1000 / 0x4_0000
    ensures gpa / 0x80_0000_0000 == gpa / 0x1000 / 0x800_0000
  {
  }

  lemma FieldsArePath(gpa: u64)
    ensures Field(gpa, 0x1000) == Index(PageOf(gpa), 1)
    ensures Field(gpa, 0x20_0000) == Index(PageOf(gpa), 2)
    ensures Field(gpa, 0x4000_0000) == Index(PageOf(gpa), 3)
    ensures Field(gpa, 0x80_0000_0000) == Index(PageOf(gpa), 4)
  {
    FieldIs(gpa / 0x1000, 0);
    FieldIs(gpa / 0x20_0000, 0);
    FieldIs(gpa / 0x4000_0000, 0);
    FieldIs(gpa / 0x80_0000_0000, 0);
    ShiftBySteps(gpa);
    DropHighBits(gpa / 0x1000);
  }

  function EmptyTree(fmt: Format, mem: Mem, a: nat, b: nat, c: nat): Tree {
    Tree(fmt, mem, map[a := Role(4, 0), b := Role(3, 0), c := Role(2, 0)], a, b, c, [])
  }

  lemma EmptyTreeGood(fmt: Format, mem: Mem, a: nat, b: nat, c: nat)
    requires Nested(fmt) && a != b && a != c && b != c
    requires IsFrame(a) && IsFrame(b) && IsFrame(c)
    requires a in mem && b in mem && c in mem && mem[a] == mem[b] == mem[c] == EmptyTable()
    ensures EmptyTree(fmt, mem, a, b, c).Good()
  {
  }
}
