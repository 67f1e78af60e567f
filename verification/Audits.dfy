// Auditing a whole tree (pagebtree/integrity.go).

module Audits {
  import opened Contents
  import opened Pages
  import opened Nodes
  import opened Trees
  import opened LeafLinks
  import opened Search
  import opened Invariants
  import opened Updates
  import opened Integrity
  import opened Acceptance

  // ---- Reusable pages ----

  ghost predicate FreeOk(free: seq<PageId>, nextPage: PageId, reachable: set<PageId>) {
    forall i :: 0 <= i < |free| ==> 0 < free[i] < nextPage && free[i] !in reachable && free[i] !in free[..i]
  }

  ghost predicate RetiredOk(retired: seq<RetiredPage>, free: seq<PageId>, nextPage: PageId, reachable: set<PageId>) {
    forall i :: 0 <= i < |retired| ==>
      && retired[i].revision != 0
      && 0 < retired[i].id < nextPage && retired[i].id !in reachable && retired[i].id !in free
      && retired[i].id !in RetiredIds(retired[..i])
  }

  lemma FreeMeans(free: seq<PageId>, nextPage: PageId, reachable: set<PageId>)
    ensures FreeOk(free, nextPage, reachable) <==>
            && (forall id :: id in free ==> 1 <= id < nextPage && id !in reachable)
            && (forall i, j :: 0 <= i < j < |free| ==> free[i] != free[j])
  {
    if FreeOk(free, nextPage, reachable) {
      forall i, j | 0 <= i < j < |free| ensures free[i] != free[j] {
        assert free[..j][i] == free[i];
      }
    } else {
      var j :| 0 <= j < |free| && !(0 < free[j] < nextPage && free[j] !in reachable && free[j] !in free[..j]);
      if free[j] in free[..j] {
        var i :| 0 <= i < j && free[..j][i] == free[j];
      }
    }
  }

  lemma ReusableMeans(free: seq<PageId>, retired: seq<RetiredPage>, nextPage: PageId, reachable: set<PageId>)
    ensures FreeOk(free, nextPage, reachable) <==>
            && (forall id :: id in free ==> 1 <= id < nextPage && id !in reachable)
            && (forall i, j :: 0 <= i < j < |free| ==> free[i] != free[j])
    ensures RetiredOk(retired, free, nextPage, reachable) <==>
            && (forall r ::
              r in retired ==> r.revision >= 1 && 1 <= r.id < nextPage && r.id !in reachable && r.id !in free)
            && (forall i, j :: 0 <= i < j < |retired| ==> retired[i].id != retired[j].id)
  {
    FreeMeans(free, nextPage, reachable);
    hide FreeOk;
    forall j | 0 <= j < |retired|
      ensures retired[j].id in RetiredIds(retired[..j]) <==> exists i :: 0 <= i < j && retired[i].id == retired[j].id
    {
      forall i | 0 <= i < j ensures RetiredIds(retired[..j])[i] == retired[i].id {
      }
    }
  }

  // validateReusablePages
  method ValidateReusablePages(free: seq<PageId>, retired: seq<RetiredPage>, nextPage: PageId, reachable: set<PageId>)
    returns (ok: bool)
    ensures ok <==> FreeOk(free, nextPage, reachable) && RetiredOk(retired, free, nextPage, reachable)
    ensures ok <==>
            && (forall id :: id in free ==> 1 <= id < nextPage && id !in reachable)
            && (forall i, j :: 0 <= i < j < |free| ==> free[i] != free[j])
            && (forall r ::
              r in retired ==> r.revision >= 1 && 1 <= r.id < nextPage && r.id !in reachable && r.id !in free)
            && (forall i, j :: 0 <= i < j < |retired| ==> retired[i].id != retired[j].id)
  {
    ReusableMeans(free, retired, nextPage, reachable);
    var seenFree: set<PageId> := {};
    for i := 0 to |free|
      invariant seenFree == set x | x in free[..i]
      invariant forall j :: 0 <= j < i ==> 0 < free[j] < nextPage && free[j] !in reachable && free[j] !in free[..j]
    {
      var id := free[i];
      if id == 0 || id >= nextPage || id in reachable || id in seenFree {
        return false;
      }
      assert free[..i + 1] == free[..i] + [id];
      seenFree := seenFree + {id};
    }
    assert free[..|free|] == free;
    ok := ValidateRetired(free, seenFree, retired, nextPage, reachable);
  }

  method ValidateRetired(free: seq<PageId>, seenFree: set<PageId>, retired: seq<RetiredPage>, nextPage: PageId,
          reachable: set<PageId>)
    returns (ok: bool)
    requires seenFree == set x | x in free
    ensures ok <==> RetiredOk(retired, free, nextPage, reachable)
  {
    hide RetiredIds;
    var seenRetired: set<PageId> := {};
    NoneRetired();
    for i := 0 to |retired|
      invariant seenRetired == set x | x in RetiredIds(retired[..i])
      invariant forall j :: 0 <= j < i ==>
                  && retired[j].revision != 0
                  && 0 < retired[j].id < nextPage && retired[j].id !in reachable && retired[j].id !in free
                  && retired[j].id !in RetiredIds(retired[..j])
    {
      var id := retired[i].id;
      if retired[i].revision == 0 || id == 0 || id >= nextPage || id in reachable || id in seenFree
        || id in seenRetired {
        return false;
      }
      OneMoreRetired(retired, i);
      seenRetired := seenRetired + {id};
    }
    return true;
  }

  lemma NoneRetired()
    ensures RetiredIds([]) == []
  {
  }

  lemma OneMoreRetired(retired: seq<RetiredPage>, i: nat)
    requires i < |retired|
    ensures RetiredIds(retired[..i + 1]) == RetiredIds(retired[..i]) + [retired[i].id]
  {
  }

  // Page conservation makes the reusable pages disjoint and free of duplicates.
  lemma OwnedAreReusable(first: PageId, s: Store, rest: multiset<PageId>, live: multiset<PageId>)
    requires Owns(first, s, rest + live)
    ensures FreeOk(s.free, s.nextPage, IdSet(live))
    ensures RetiredOk(s.retired, s.free, s.nextPage, IdSet(live)) <==> forall i ::
              0 <= i < |s.retired| ==> s.retired[i].revision != 0
  {
    hide Owns, RetiredIds;
    forall i | 0 <= i < |s.free|
      ensures 0 < s.free[i] < s.nextPage && s.free[i] !in IdSet(live) && s.free[i] !in s.free[..i]
    {
      FreeOnce(first, s, rest + live, i);
    }
    forall i | 0 <= i < |s.retired|
      ensures 0 < s.retired[i].id < s.nextPage && s.retired[i].id !in IdSet(live) && s.retired[i].id !in s.free
      ensures s.retired[i].id !in RetiredIds(s.retired[..i])
    {
      RetiredOnce(first, s, rest + live, i);
    }
  }

  lemma FreeOnce(first: PageId, s: Store, live: multiset<PageId>, i: nat)
    requires Owns(first, s, live) && i < |s.free|
    ensures 0 < s.free[i] < s.nextPage && s.free[i] !in live && s.free[i] !in s.free[..i]
  {
    hide Upto;
    var x, m := s.free[i], multiset(s.free) + multiset(RetiredIds(s.retired)) + live;
    assert s.free == s.free[..i] + [x] + s.free[i + 1..];
    assert multiset(s.free)[x] == multiset(s.free[..i])[x] + 1 + multiset(s.free[i + 1..])[x];
    assert m[x] == multiset(s.free)[x] + multiset(RetiredIds(s.retired))[x] + live[x];
    assert m[x] == Upto(first, s.nextPage)[x];
  }

  lemma RetiredOnce(first: PageId, s: Store, live: multiset<PageId>, i: nat)
    requires Owns(first, s, live) && i < |s.retired|
    ensures var x := s.retired[i].id;
            0 < x < s.nextPage && x !in live && x !in s.free && x !in RetiredIds(s.retired[..i])
  {
    hide Upto;
    var ids := RetiredIds(s.retired);
    var x, m := s.retired[i].id, multiset(s.free) + multiset(ids) + live;
    assert ids[i] == x && ids == ids[..i] + [x] + ids[i + 1..];
    assert multiset(ids)[x] == multiset(ids[..i])[x] + 1 + multiset(ids[i + 1..])[x];
    assert m[x] == multiset(s.free)[x] + multiset(ids)[x] + live[x];
    assert m[x] == Upto(first, s.nextPage)[x];
    assert RetiredIds(s.retired[..i]) == ids[..i];
  }

  // ---- Leaf links ----

  // validateLeafLinks
  method ValidateLeafLinks(pages: PageMap, root: PageId, ghost n: Node) returns (ok: bool)
    requires root == n.id && root != 0 && Models(pages, n) && 0 !in Ids(n)
    ensures ok <==> Linked(pages, LeafIds(n))
  {
    hide Models, Ids, LeafIds, Linked;
    LeafPagesOf(pages, n);
    var leaves := CollectLeavesInOrder(pages, root, [], n);
    assert leaves == LeafIds(n);
    ok := LinksMatch(pages, leaves);
  }

  method LinksMatch(pages: PageMap, leaves: seq<PageId>) returns (ok: bool)
    requires forall x :: x in leaves ==> x in pages && pages[x].LeafPage?
    ensures ok <==> Linked(pages, leaves)
  {
    for i := 0 to |leaves|
      invariant forall j ::
                  0 <= j < i ==>
                    leaves[j] in pages && pages[leaves[j]].LeafPage? && pages[leaves[j]].next == NextOf(leaves, j)
    {
      assert leaves[i] in leaves;
      var want := if i + 1 < |leaves| then leaves[i + 1] else 0;
      if pages[leaves[i]].next != want {
        return false;
      }
    }
    return true;
  }

  // ---- The audit ----

  // What a passed audit says of a tree with pages.
  ghost predicate Sound(t: Tree, damaged: set<PageId>, n: Node)
    reads t
  {
    && n.id == t.root
    && Acceptable(Subject(t.pages, t.root, t.degree, t.order, damaged), n, None, None) && Unseen(Ids(n), {})
    && t.length == |Flat(n)|
    && (t.readers == map[] ==> Linked(t.pages, LeafIds(n)))
    && FreeOk(t.free, t.nextPage, IdSet(Ids(n))) && RetiredOk(t.retired, t.free, t.nextPage, IdSet(Ids(n)))
  }

  // The same without the validator's own terms: the pages spell out a tree in key order, as
  // full as it must be and undamaged, and counter, links and lists agree with it.
  lemma SoundMeans(t: Tree, damaged: set<PageId>, n: Node)
    requires t.degree >= 2
    ensures Sound(t, damaged, n) <==>
            && n.id == t.root && Unseen(Ids(n), {})
            && Models(t.pages, n) && Sorted(t.order, Flat(n)) && FilledBelow(n, t.degree)
            && (forall x :: x in Ids(n) ==> x != 0 && x !in damaged)
            && t.length == |Flat(n)| && (t.readers == map[] ==> Linked(t.pages, LeafIds(n)))
            && (forall id :: id in t.free ==> 1 <= id < t.nextPage && id !in Ids(n))
            && (forall i, j :: 0 <= i < j < |t.free| ==> t.free[i] != t.free[j])
            && (forall r :: r in t.retired ==> r.revision >= 1 && 1 <= r.id < t.nextPage && r.id !in Ids(n)
                                                 && r.id !in t.free)
            && (forall i, j :: 0 <= i < j < |t.retired| ==> t.retired[i].id != t.retired[j].id)
  {
    hide Acceptable, Unseen, FreeOk, RetiredOk, Ids, Linked, LeafIds, Flat, Models, FilledBelow, SortedKeys;
    ReusableMeans(t.free, t.retired, t.nextPage, IdSet(Ids(n)));
    if n.id == t.root && Unseen(Ids(n), {}) {
      ValidatorIsExact(Subject(t.pages, t.root, t.degree, t.order, damaged), n);
    }
  }

  // What the audit looks for.
  ghost predicate Passes(t: Tree, damaged: set<PageId>)
    reads t
  {
    || t.closed
    || (if t.root == 0 then
          t.length == 0 && FreeOk(t.free, t.nextPage, {}) && RetiredOk(t.retired, t.free, t.nextPage, {})
        else exists n :: Sound(t, damaged, n))
  }

  // Audit. `damaged` are the pages whose checksum is wrong.
  method Audit(t: Tree, damaged: set<PageId>, ghost lo: nat) returns (ok: bool, ghost n: Node)
    requires t.degree >= 2 && forall r :: r in t.readers ==> t.readers[r] > 0
    // The exact verdict on any state of the tree, whatever led to it.
    ensures ok <==> Passes(t, damaged)
    ensures ok && !t.closed && t.root != 0 ==> Sound(t, damaged, n)
    // On a well-formed tree: every page below the root has d-1 keys, and none was retired at
    // revision zero.
    ensures WellFormed(t, lo) && damaged == {} && !t.closed ==>
              (ok <==> HalfFilled(t.degree, t.shape, t.height) && forall i ::
                  0 <= i < |t.retired| ==> t.retired[i].revision != 0)
  {
    hide WellFormed, Acceptable, Unseen, FreeOk, RetiredOk, Ids, IdSet, Linked, LeafIds, Flat, Models, HalfFilled;
    n := Leaf(0, []);
    if WellFormed(t, lo) && damaged == {} && !t.closed {
      WellFormedPasses(t, lo);
    }
    ghost var c, want := Subject(t.pages, t.root, t.degree, t.order, damaged), None;
    if m :| Sound(t, damaged, m) {
      want := Some(m);
      assert Wanted(c, want, {}, None, None);
    }
    if t.closed {
      return true, n;
    }
    if t.root == 0 {
      if t.length != 0 {
        return false, n;
      }
      ok := ValidateReusablePages(t.free, t.retired, t.nextPage, {});
      return;
    }
    var reachable;
    ok, reachable,
      n := ValidatePageBounds(Subject(t.pages, t.root, t.degree, t.order, damaged), t.root, {}, None, None, want);
    if !ok {
      return;
    }
    AcceptableModels(c, n, None, None);
    assert {} + IdSet(Ids(n)) == IdSet(Ids(n));
    var active := ActiveReaderCount(t);
    if active == 0 {
      ok := ValidateLeafLinks(t.pages, t.root, n);
      if !ok {
        return;
      }
    }
    var keyCount, _ := CountReachableKeys(t.pages, t.root, {}, n);
    if keyCount != t.length {
      return false, n;
    }
    ok := ValidateReusablePages(t.free, t.retired, t.nextPage, reachable);
    assert ok ==> Sound(t, damaged, n);
  }

  lemma WellFormedPasses(t: Tree, lo: nat)
    requires t.degree >= 2 && WellFormed(t, lo) && !t.closed
    ensures Passes(t, {}) <==> HalfFilled(t.degree, t.shape, t.height) && forall i ::
              0 <= i < |t.retired| ==> t.retired[i].revision != 0
  {
    hide WellFormed, Acceptable, Unseen, FreeOk, RetiredOk, Ids, IdSet, Linked, LeafIds, Flat, Models, HalfFilled;
    WellFormedAudit(t, lo);
    if t.root != 0 {
      if n :| Sound(t, {}, n) {
        AcceptableModels(Subject(t.pages, t.root, t.degree, t.order, {}), n, None, None);
        AuditedShape(t, lo, n);
      }
      if HalfFilled(t.degree, t.shape, t.height) && forall i :: 0 <= i < |t.retired| ==> t.retired[i].revision != 0 {
        assert Sound(t, {}, t.shape.value);
      }
    }
  }

  // What the audit accepts is the tree itself.
  lemma AuditedShape(t: Tree, lo: nat, n: Node)
    requires t.degree >= 2 && WellFormed(t, lo) && t.root != 0 && n.id == t.root
    requires Acceptable(Subject(t.pages, t.root, t.degree, t.order, {}), n, None, None) && Models(t.pages, n)
    ensures t.shape == Some(n) && HalfFilled(t.degree, t.shape, t.height)
  {
    hide Owns, Pinned, Linked, Current, Acceptable, Unseen, Ids, Flat, Models, Rep, Balanced, Readable, SortedKeys,
      HalfFilled;
    RootMeans(t.order, t.degree, t.pages, t.root, t.shape, t.height, lo);
    SpellsMeans(t.order, t.degree, t.pages, t.root, t.shape.value, t.height, lo);
    RepModels(t.pages, t.shape.value);
    ModelsUnique(t.pages, n, t.shape.value);
    WellFormedIsAccepted(t, lo);
  }

  lemma WellFormedAudit(t: Tree, lo: nat)
    requires t.degree >= 2 && WellFormed(t, lo) && !t.closed
    ensures t.root == 0 <==> t.shape.None?
    ensures t.root == 0 ==> t.length == 0 && FreeOk(t.free, t.nextPage, {}) && HalfFilled(t.degree, t.shape, t.height)
    ensures t.root == 0 ==>
              (RetiredOk(t.retired, t.free, t.nextPage, {}) <==> forall i ::
                0 <= i < |t.retired| ==> t.retired[i].revision != 0)
    ensures t.root != 0 ==>
              && t.shape.value.id == t.root && t.length == |Flat(t.shape.value)|
              && (HalfFilled(t.degree, t.shape, t.height) ==>
                    Wanted(Subject(t.pages, t.root, t.degree, t.order, {}), t.shape, {}, None, None))
              && (t.readers == map[] ==> Linked(t.pages, LeafIds(t.shape.value)))
              && FreeOk(t.free, t.nextPage, IdSet(Ids(t.shape.value)))
              && (RetiredOk(t.retired, t.free, t.nextPage, IdSet(Ids(t.shape.value)))
                  <==> forall i :: 0 <= i < |t.retired| ==> t.retired[i].revision != 0)
  {
    hide Owns, Spells, Pinned, Linked, Current, Acceptable, Unseen, FreeOk, RetiredOk, Ids, LeafIds, Flat, Balanced;
    RootMeans(t.order, t.degree, t.pages, t.root, t.shape, t.height, lo);
    OwnedAreReusable(t.first, t.State(), t.listPages, LiveIds(t.shape));
    if t.shape.Some? {
      WellFormedIsAccepted(t, lo);
    } else {
      assert IdSet(multiset{}) == {};
    }
  }
}
