// Readers, retired pages and their reuse (pagebtree/freelist.go).

module Freelist {
  import opened Contents
  import opened Pages
  import opened Trees

  // A reader may still need a page retired at this revision.
  ghost predicate HeldBack(readers: map<nat, nat>, scan: TableScan, revision: nat) {
    || scan.ScanFailed?
    || (exists r :: r in readers && r <= revision)
    || (scan.Oldest? && scan.revision <= revision)
  }

  ghost function KeptPages(readers: map<nat, nat>, scan: TableScan, rs: seq<RetiredPage>): seq<RetiredPage> {
    if rs == [] then []
    else
      KeptPages(readers, scan, rs[..|rs| - 1]) + if HeldBack(readers, scan, rs[|rs| - 1].revision) then [rs[|rs| - 1]]
        else []
  }

  lemma {:induction false} KeptAreRetired(readers: map<nat, nat>, scan: TableScan, rs: seq<RetiredPage>)
    ensures forall i :: 0 <= i < |KeptPages(readers, scan, rs)| ==> KeptPages(readers, scan, rs)[i] in rs
  {
    if rs != [] {
      KeptAreRetired(readers, scan, rs[..|rs| - 1]);
    }
  }

  ghost function ReleasedIds(readers: map<nat, nat>, scan: TableScan, rs: seq<RetiredPage>): seq<PageId> {
    if rs == [] then []
    else
      ReleasedIds(readers, scan, rs[..|rs| - 1]) + if HeldBack(readers, scan, rs[|rs| - 1].revision) then []
        else [rs[|rs| - 1].id]
  }

  // Reclaiming loses no retired page and duplicates none.
  lemma {:induction false} KeptAndReleased(readers: map<nat, nat>, scan: TableScan, rs: seq<RetiredPage>)
    ensures multiset(RetiredIds(rs)) ==
            multiset(RetiredIds(KeptPages(readers, scan, rs))) + multiset(ReleasedIds(readers, scan, rs))
  {
    hide HeldBack, RetiredIds;
    if rs == [] {
      assert RetiredIds(rs) == [] by { RetiredNone(); }
    } else {
      var front, last := rs[..|rs| - 1], rs[|rs| - 1];
      KeptAndReleased(readers, scan, front);
      assert rs == front + [last];
      RetiredAppend(front, last);
      var kept, released := KeptPages(readers, scan, front), ReleasedIds(readers, scan, front);
      if HeldBack(readers, scan, last.revision) {
        RetiredAppend(kept, last);
        assert released + [] == released;
      } else {
        assert multiset(released + [last.id]) == multiset(released) + multiset{last.id};
        assert kept + [] == kept;
      }
    }
  }

  lemma RetiredNone()
    ensures RetiredIds([]) == []
  {
  }

  lemma RetiredAppend(rs: seq<RetiredPage>, r: RetiredPage)
    ensures RetiredIds(rs + [r]) == RetiredIds(rs) + [r.id]
    ensures multiset(RetiredIds(rs + [r])) == multiset(RetiredIds(rs)) + multiset{r.id}
  {
    assert RetiredIds(rs + [r]) == RetiredIds(rs) + [r.id];
  }

  // A page is kept exactly when a reader holds it back.
  lemma {:induction false} KeptIffHeldBack(readers: map<nat, nat>, scan: TableScan, rs: seq<RetiredPage>,
          r: RetiredPage)
    ensures r in KeptPages(readers, scan, rs) <==> r in rs && HeldBack(readers, scan, r.revision)
  {
    if rs != [] {
      var front, last := rs[..|rs| - 1], rs[|rs| - 1];
      KeptIffHeldBack(readers, scan, front, r);
      assert rs == front + [last];
    }
  }

  lemma {:induction false} ReleasedIffFree(readers: map<nat, nat>, scan: TableScan, rs: seq<RetiredPage>,
          r: RetiredPage)
    ensures r in rs && !HeldBack(readers, scan, r.revision) ==> r.id in ReleasedIds(readers, scan, rs)
  {
    if rs != [] {
      var front, last := rs[..|rs| - 1], rs[|rs| - 1];
      ReleasedIffFree(readers, scan, front, r);
      assert rs == front + [last];
    }
  }

  // A page stays retired if the table could not be read, or a reader here or in the table is
  // at or below its revision. Otherwise it is free.
  lemma RetiredOrFree(readers: map<nat, nat>, scan: TableScan, rs: seq<RetiredPage>)
    ensures forall r :: r in rs ==>
              if scan.ScanFailed? || (exists v :: v in readers && v <= r.revision)
                 || (scan.Oldest? && scan.revision <= r.revision)
              then r in KeptPages(readers, scan, rs)
              else r !in KeptPages(readers, scan, rs) && r.id in ReleasedIds(readers, scan, rs)
  {
    hide KeptPages, ReleasedIds;
    forall r | r in rs
      ensures if scan.ScanFailed? || (exists v :: v in readers && v <= r.revision)
                 || (scan.Oldest? && scan.revision <= r.revision)
              then r in KeptPages(readers, scan, rs)
              else r !in KeptPages(readers, scan, rs) && r.id in ReleasedIds(readers, scan, rs)
    {
      KeptIffHeldBack(readers, scan, rs, r);
      ReleasedIffFree(readers, scan, rs, r);
    }
  }

  method OldestReaderRevision(t: Tree) returns (oldest: nat, found: bool)
    ensures t.scan.ScanFailed? ==> found && oldest == 0
    ensures found <==> t.scan.ScanFailed? || t.scan.Oldest? || t.readers != map[]
    ensures (forall v :: v in t.readers ==> oldest <= v) && (t.scan.Oldest? ==> oldest <= t.scan.revision)
    ensures found && !t.scan.ScanFailed? ==> oldest in t.readers || (t.scan.Oldest? && oldest == t.scan.revision)
    ensures forall revision :: HeldBack(t.readers, t.scan, revision) <==> found && oldest <= revision
  {
    oldest, found := 0, false;
    var todo := t.readers.Keys;
    while todo != {}
      invariant todo <= t.readers.Keys
      invariant found ==> oldest in t.readers
      invariant forall r :: r in t.readers && r !in todo ==> found && oldest <= r
      decreases todo
    {
      var revision :| revision in todo;
      if !found || revision < oldest {
        oldest, found := revision, true;
      }
      todo := todo - {revision};
    }
    match t.scan
    case ScanFailed =>
      oldest, found := 0, true;
    case Oldest(revision) =>
      if !found || revision < oldest {
        oldest, found := revision, true;
      }
    case _ =>
  }

  method ReclaimRetiredPages(t: Tree)
    modifies t`free, t`retired
    ensures t.retired == KeptPages(t.readers, t.scan, old(t.retired))
    ensures t.free == old(t.free) + ReleasedIds(t.readers, t.scan, old(t.retired))
    ensures forall r :: r in old(t.retired) ==>
              if t.scan.ScanFailed? || (exists v :: v in t.readers && v <= r.revision)
                 || (t.scan.Oldest? && t.scan.revision <= r.revision)
              then r in t.retired else r !in t.retired && r.id in t.free
  {
    RetiredOrFree(t.readers, t.scan, t.retired);
    if |t.retired| == 0 {
      return;
    }
    var oldest, found := OldestReaderRevision(t);
    var kept: seq<RetiredPage> := [];
    ghost var free0 := t.free;
    for i := 0 to |t.retired|
      invariant t.retired == old(t.retired)
      invariant kept == KeptPages(t.readers, t.scan, t.retired[..i])
      invariant t.free == free0 + ReleasedIds(t.readers, t.scan, t.retired[..i])
    {
      var retired := t.retired[i];
      assert t.retired[..i + 1][..i] == t.retired[..i];
      if found && oldest <= retired.revision {
        kept := kept + [retired];
      } else {
        t.free := t.free + [retired.id];
      }
    }
    assert t.retired[..|t.retired|] == t.retired;
    t.retired := kept;
  }

  // Reclaiming keeps the allocated ids accounted for.
  lemma ReclaimOwns(first: PageId, s: Store, readers: map<nat, nat>, scan: TableScan, live: multiset<PageId>)
    requires Owns(first, s, live)
    ensures Owns(first, s.(free := s.free + ReleasedIds(readers, scan, s.retired),
              retired := KeptPages(readers, scan, s.retired)), live)
  {
    hide Upto, HeldBack, KeptPages, ReleasedIds;
    KeptAndReleased(readers, scan, s.retired);
  }
}
