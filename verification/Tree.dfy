// The tree object and its page primitives (pagebtree/tree.go, pagebtree/freelist.go,
// pagebtree/overflow.go, pagebtree/insert.go).

module Trees {
  import opened KeyOrder
  import opened Contents
  import opened Pages
  import opened Nodes
  // What a scan of the reader table of a mapped file reports; a memory tree has no table.
  datatype TableScan = NoTable | NoReaders | Oldest(revision: nat) | ScanFailed

  // What a snapshot holds on to: the tree it saw, and the bytes of that tree's pages.
  datatype Pin = Pin(revision: nat, shape: Option<Node>, height: nat, captured: PageMap)

  class Tree {
    const order: Order
    const degree: nat
    const repairPercent: nat
    // The first id a tree page can have: 1 in memory, 2 in a mapped file.
    const first: PageId
    // None for a memory tree; otherwise the id at which growing the mapped file fails.
    const growLimit: Option<PageId>

    var pages: PageMap
    var root: PageId
    var nextPage: PageId
    var length: nat
    var revision: nat
    var readers: map<nat, nat>
    var retired: seq<RetiredPage>
    var free: seq<PageId>
    var reused: nat
    var closed: bool
    var readOnly: bool
    // What the reader table would report now.
    var scan: TableScan

    // The tree the pages spell out, its height, and the open snapshots by ticket.
    ghost var shape: Option<Node>
    ghost var height: nat
    ghost var pins: map<nat, Pin>
    ghost var tickets: nat
    // In a mapped file, the pages of the lists that syncs have saved.
    ghost var listPages: multiset<PageId>

    function State(): Store
      reads this
    {
      Store(pages, nextPage, free, retired, growLimit)
    }

    constructor (order: Order, degree: nat, repairPercent: nat, first: PageId, growLimit: Option<PageId>)
      requires 1 <= first && repairPercent <= 100
      ensures this.order == order && this.degree == (if degree < 2 then 2 else degree)
      ensures this.repairPercent == repairPercent && this.first == first && this.growLimit == growLimit
      ensures root == 0 && length == 0 && revision == 0 && readers == map[] && !closed && !readOnly && scan == NoTable
      ensures shape == None && pins == map[] && tickets == 0 && listPages == multiset{}
      ensures State() == Store(map[], first, [], [], growLimit)
      ensures Owns(first, State(), multiset{})
    {
      this.order, this.repairPercent, this.first, this.growLimit := order, repairPercent, first, growLimit;
      this.degree := if degree < 2 then 2 else degree;
      pages, root, nextPage, length, revision := map[], 0, first, 0, 0;
      readers, retired, free, reused := map[], [], [], 0;
      closed, readOnly, scan := false, false, NoTable;
      shape, height, pins, tickets, listPages := None, 0, map[], 0, multiset{};
    }

    method AllocPage(ghost live: multiset<PageId>) returns (r: Status, id: PageId)
      requires Owns(first, State(), live)
      modifies `nextPage, `free, `reused
      ensures Frame(old(State()), State(), {}, revision)
      ensures r.Done? ==> Owns(first, State(), live + multiset{id}) && Available(old(State()), id)
      // The page freed last is taken first; the file grows only if none is free.
      ensures old(free) != [] ==>
                r.Done? && id == old(free)[|old(free)| - 1] && free == old(free)[..|old(free)| - 1]
                && nextPage == old(nextPage)
      ensures old(free) == [] ==> free == [] && (r.Panic? <==> growLimit.Some? && growLimit.value <= old(nextPage))
      ensures old(free) == [] && r.Done? ==> id == old(nextPage) && nextPage == id + 1
      ensures reused == old(reused) + if old(free) != [] then 1 else 0
      ensures r.Panic? <==> Exhausted(old(State()))
      ensures r.Panic? ==> State() == old(State())
    {
      hide Owns, Frame;
      if |free| > 0 {
        var last := |free| - 1;
        TakeFree(first, State(), live, revision);
        id := free[last];
        free := free[..last];
        reused := reused + 1;
        r := Done;
      }
      else {
        id := nextPage;
        if growLimit.Some? && growLimit.value <= id {
          FrameReflexive(State(), revision);
          r := Panic;
        } else {
          TakeFresh(first, State(), live, revision);
          nextPage := nextPage + 1;
          r := Done;
        }
      }
    }

    method RetirePage(id: PageId, ghost live: multiset<PageId>)
      requires Owns(first, State(), live + multiset{id})
      modifies `retired
      ensures Owns(first, State(), live)
      ensures Frame(old(State()), State(), {}, revision)
      ensures retired == old(retired) + [RetiredPage(id, revision)]
    {
      Retire(first, State(), live, RetiredPage(id, revision));
      retired := retired + [RetiredPage(id, revision)];
    }

    // Assign a page that is in nobody else's use.
    method WritePage(id: PageId, page: Page, ghost live: multiset<PageId>)
      requires Owns(first, State(), live) && id in live
      modifies `pages
      ensures pages == old(pages)[id := page]
      ensures Owns(first, State(), live)
      ensures Frame(old(State()), State(), {id}, revision)
    {
      LiveIsNotAvailable(first, State(), live, id);
      pages := pages[id := page];
    }

    method SetNextLeaf(id: PageId, next: PageId, ghost live: multiset<PageId>)
      requires Owns(first, State(), live) && id in live
      requires id in pages && pages[id].LeafPage?
      modifies `pages
      ensures pages == old(pages)[id := old(pages[id]).(next := next)]
      ensures Owns(first, State(), live)
      ensures Frame(old(State()), State(), {id}, revision)
    {
      WritePage(id, pages[id].(next := next), live);
    }

    method CopyPage(id: PageId, ghost live: multiset<PageId>) returns (r: Status, newId: PageId)
      requires Owns(first, State(), live + multiset{id})
      requires id in pages
      modifies `pages, `nextPage, `free, `retired, `reused
      ensures Frame(old(State()), State(), {}, revision)
      ensures r.Done? ==>
                && Owns(first, State(), live + multiset{newId})
                && Available(old(State()), newId)
                && pages == old(pages)[newId := old(pages)[id]]
      ensures r.Done? ==>
                Used(State()) == Used(old(State())) + 1 && retired == old(retired) + [RetiredPage(id, revision)]
      ensures r.Panic? <==> Exhausted(old(State()))
      ensures r.Panic? ==> State() == old(State())
    {
      hide Owns, Frame, Available;
      ghost var s0 := State();
      newId :- AllocPage(live + multiset{id});
      ghost var s1 := State();
      WritePage(newId, pages[id], live + multiset{id} + multiset{newId});
      ghost var s2 := State();
      FrameTransitive(s0, s1, s2, {}, {newId}, revision);
      assert live + multiset{id} + multiset{newId} == (live + multiset{newId}) + multiset{id};
      RetirePage(id, live + multiset{newId});
      FrameTransitive(s0, s2, State(), {}, {}, revision);
      return Done, newId;
    }
  }
}
