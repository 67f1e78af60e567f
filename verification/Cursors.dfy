// Cursors: a stack of page positions that walks a snapshot both ways (pagebtree/cursor.go).

module Cursors {
  import opened KeyOrder
  import opened Contents
  import opened Pages
  import opened Nodes
  import opened Trees
  import opened Overflow
  import opened Routing
  import opened Forests
  import opened Ranges
  import opened Search
  import opened Invariants
  import opened Updates
  import opened Snapshots
  datatype Frame = Frame(id: PageId, index: int)

  // ---- What a stack denotes ----

  ghost predicate Enters(p: Node, i: int, c: Node) {
    p.Branch? && 0 <= i < |p.kids| && c == p.kids[i]
  }

  // `path` are the nodes of the frames, each below the one before it.
  ghost predicate PathOk(n: Node, path: seq<Node>, stack: seq<Frame>) {
    && |path| == |stack|
    && (path != [] ==> path[0] == n)
    && (forall j :: 0 <= j < |path| ==> stack[j].id == path[j].id)
    && (forall j :: 0 <= j < |path| - 1 ==> Enters(path[j], stack[j].index, path[j + 1]))
  }

  // The pairs before child `i` of a branch.
  ghost function Width(n: Node, i: int): nat {
    if n.Branch? && 0 <= i <= |n.kids| then |FlatAll(n.kids[..i])| else 0
  }

  // The pairs to the left of what the frames have entered.
  ghost function Base(path: seq<Node>, stack: seq<Frame>): nat
    requires |path| == |stack|
    decreases |path|
  {
    if path == [] then 0
    else Base(path[..|path| - 1], stack[..|stack| - 1]) + Width(path[|path| - 1], stack[|stack| - 1].index)
  }

  // Where a forward load goes: to the slot of the leaf on top, or past the child that the
  // branch on top has finished.
  ghost predicate AheadIs(n: Node, path: seq<Node>, stack: seq<Frame>, p: nat) {
    && PathOk(n, path, stack)
    && if path == [] then p == |Flat(n)|
       else
         var top, i := path[|path| - 1], stack[|stack| - 1].index;
         && 0 <= i <= top.Count()
         && p == Base(path[..|path| - 1], stack[..|stack| - 1]) + (if top.Leaf? then i else Width(top, i + 1))
         && (top.Branch? ==> i < top.Count())
  }

  // Where a backward load goes.
  ghost predicate BehindIs(n: Node, path: seq<Node>, stack: seq<Frame>, p: int) {
    && PathOk(n, path, stack)
    && if path == [] then p == -1
       else
         var top, i := path[|path| - 1], stack[|stack| - 1].index;
         && -1 <= i < top.Count()
         && p == Base(path[..|path| - 1], stack[..|stack| - 1]) + (if top.Leaf? then i else Width(top, i) - 1)
         && (top.Branch? ==> 0 <= i)
  }

  // The stack of a cursor that stands on pair `p`.
  ghost predicate StandsOn(n: Node, path: seq<Node>, stack: seq<Frame>, p: nat) {
    && PathOk(n, path, stack) && path != []
    && path[|path| - 1].Leaf? && 0 <= stack[|stack| - 1].index < path[|path| - 1].Count()
    && p == Base(path[..|path| - 1], stack[..|stack| - 1]) + stack[|stack| - 1].index
  }

  // A path holds a contiguous part of the pairs.
  lemma {:induction false} PathSlice(o: Order, pages: PageMap, n: Node, path: seq<Node>, stack: seq<Frame>)
    requires Readable(o, pages, n) && PathOk(n, path, stack) && path != []
    ensures var k := |path| - 1; var b := Base(path[..k], stack[..k]);
            && Readable(o, pages, path[k])
            && b + |Flat(path[k])| <= |Flat(n)| && Flat(n)[b..b + |Flat(path[k])|] == Flat(path[k])
    decreases |path|
  {
    hide Readable, Flat, FlatAll, Base, Width;
    var k := |path| - 1;
    if k == 0 {
      BaseEmpty();
    } else {
      PathPrefix(n, path, stack);
      PathSlice(o, pages, n, path[..k], stack[..k]);
      assert path[..k][..k - 1] == path[..k - 1] && stack[..k][..k - 1] == stack[..k - 1];
      BaseStep(path[..k], stack[..k]);
      EnterSlice(o, pages, Flat(n), Base(path[..k - 1], stack[..k - 1]), path[k - 1], stack[k - 1].index, path[k]);
    }
  }

  lemma EnterSlice(o: Order, pages: PageMap, s: seq<KV>, b: nat, parent: Node, i: int, c: Node)
    requires Readable(o, pages, parent) && Enters(parent, i, c)
    requires b + |Flat(parent)| <= |s| && s[b..b + |Flat(parent)|] == Flat(parent)
    ensures Readable(o, pages, c)
    ensures b + Width(parent, i) + |Flat(c)| <= |s|
            && s[b + Width(parent, i)..b + Width(parent, i) + |Flat(c)|] == Flat(c)
  {
    hide Readable, Flat, FlatAll, Width, IdsAll, LeafIdsAll;
    ReadableKids(o, pages, parent);
    Around(parent.kids, i);
    KidSlice(s, b, FlatAll(parent.kids[..i]), Flat(c), FlatAll(parent.kids[i + 1..]));
    WidthIs(parent, i);
  }

  lemma KidSlice(s: seq<KV>, b: nat, left: seq<KV>, mid: seq<KV>, right: seq<KV>)
    requires b + |left + mid + right| <= |s| && s[b..b + |left + mid + right|] == left + mid + right
    ensures s[b + |left|..b + |left| + |mid|] == mid
  {
    var part := left + mid + right;
    forall j | 0 <= j < |mid| ensures s[b + |left| + j] == mid[j] {
      assert s[b..b + |part|][|left| + j] == part[|left| + j];
    }
  }

  lemma BaseEmpty()
    ensures Base([], []) == 0
  {
  }

  lemma BaseStep(path: seq<Node>, stack: seq<Frame>)
    requires |path| == |stack| > 0
    ensures Base(path, stack)
            == Base(path[..|path| - 1], stack[..|stack| - 1]) + Width(path[|path| - 1], stack[|stack| - 1].index)
  {
  }

  lemma WidthIs(n: Node, i: nat)
    requires n.Branch? && i <= |n.kids|
    ensures Width(n, i) == |FlatAll(n.kids[..i])|
    ensures i < |n.kids| ==> Width(n, i + 1) == Width(n, i) + |Flat(n.kids[i])|
    ensures i == |n.kids| ==> Width(n, i) == |Flat(n)|
    ensures i == 0 ==> Width(n, i) == 0
  {
    hide FlatAll, Flat, IdsAll, LeafIdsAll;
    if i < |n.kids| {
      assert n.kids[..i + 1] == n.kids[..i] + [n.kids[i]];
      ConcatAll(n.kids[..i], [n.kids[i]]);
      One(n.kids[i]);
    }
    NothingAll();
    OfBranch(n.id, n.kids);
    assert n.kids[..|n.kids|] == n.kids;
  }

  lemma PathPrefix(n: Node, path: seq<Node>, stack: seq<Frame>)
    requires PathOk(n, path, stack) && path != []
    ensures PathOk(n, path[..|path| - 1], stack[..|stack| - 1])
    ensures |path| > 1 ==> Enters(path[|path| - 2], stack[|stack| - 2].index, path[|path| - 1])
    ensures |path| == 1 ==> path[0] == n
  {
  }

  // ---- Moving along the stack ----

  // Past the last slot or child of the top frame: the frame below has finished it.
  lemma PopAhead(n: Node, path: seq<Node>, stack: seq<Frame>, p: nat)
    requires PathOk(n, path, stack) && path != []
    requires p == Base(path[..|path| - 1], stack[..|stack| - 1]) + |Flat(path[|path| - 1])|
    ensures AheadIs(n, path[..|path| - 1], stack[..|stack| - 1], p)
  {
    hide Flat, FlatAll, Base, Width;
    PathPrefix(n, path, stack);
    var k := |path| - 1;
    if k == 0 {
      BaseEmpty();
    } else {
      assert path[..k][..k - 1] == path[..k - 1] && stack[..k][..k - 1] == stack[..k - 1];
      BaseStep(path[..k], stack[..k]);
      WidthIs(path[k - 1], stack[k - 1].index);
    }
  }

  // Before the first slot or child of the top frame.
  lemma PopBehind(n: Node, path: seq<Node>, stack: seq<Frame>)
    requires PathOk(n, path, stack) && path != []
    ensures BehindIs(n, path[..|path| - 1], stack[..|stack| - 1], Base(path[..|path| - 1], stack[..|stack| - 1]) - 1)
  {
    hide Flat, FlatAll, Base, Width;
    PathPrefix(n, path, stack);
    var k := |path| - 1;
    if k == 0 {
      BaseEmpty();
    } else {
      assert path[..k][..k - 1] == path[..k - 1] && stack[..k][..k - 1] == stack[..k - 1];
      BaseStep(path[..k], stack[..k]);
    }
  }

  lemma PushOk(n: Node, path: seq<Node>, stack: seq<Frame>, c: Node, i: int)
    requires PathOk(n, path, stack)
    requires if path == [] then c == n else Enters(path[|path| - 1], stack[|stack| - 1].index, c)
    ensures PathOk(n, path + [c], stack + [Frame(c.id, i)])
    ensures (path + [c])[..|path|] == path && (stack + [Frame(c.id, i)])[..|stack|] == stack
  {
  }

  // The node on top of the stack and its page.
  lemma TopPage(o: Order, pages: PageMap, n: Node, path: seq<Node>, stack: seq<Frame>)
    requires Readable(o, pages, n) && PathOk(n, path, stack) && path != []
    ensures var top, id := path[|path| - 1], stack[|stack| - 1].id;
            && id == top.id && id in pages && top.Count() >= 1
            && (pages[id].LeafPage? <==> top.Leaf?)
            && (top.Leaf? ==>
              pages[id].entries == EntriesOf(top.slots) && ValuesRep(pages, top.slots)
              && Flat(top) == PairsOf(top.slots))
            && (top.Branch? ==> pages[id] == BranchPage(Separators(top.kids), RootIds(top.kids)))
            && top.id != 0
  {
    hide Flat, FlatAll, Base, Width, ValuesRep;
    PathSlice(o, pages, n, path, stack);
    var k := |path| - 1;
    IdsBelow(path[k]);
    if path[k].Leaf? {
      ReadableLeaf(o, pages, path[k]);
    } else {
      ReadableKids(o, pages, path[k]);
    }
  }

  // The leaf slot on top of the stack is the pair it stands for.
  lemma TopSlot(o: Order, pages: PageMap, n: Node, path: seq<Node>, stack: seq<Frame>, p: nat)
    requires Readable(o, pages, n) && StandsOn(n, path, stack, p)
    ensures p < |Flat(n)| && Flat(n)[p] == path[|path| - 1].slots[stack[|stack| - 1].index].kv
  {
    hide Readable, FlatAll, Base, Width;
    PathSlice(o, pages, n, path, stack);
    var top, i := path[|path| - 1], stack[|stack| - 1].index;
    var b := p - i;
    assert Flat(n)[b..b + |Flat(top)|][i] == Flat(top)[i];
  }

  lemma KidReadable(o: Order, pages: PageMap, n: Node, path: seq<Node>, stack: seq<Frame>, i: nat)
    requires Readable(o, pages, n) && PathOk(n, path, stack) && path != []
    requires path[|path| - 1].Branch? && i < |path[|path| - 1].kids|
    ensures Readable(o, pages, path[|path| - 1].kids[i])
  {
    hide Readable, Flat, FlatAll, Base, Width;
    PathSlice(o, pages, n, path, stack);
    ReadableKids(o, pages, path[|path| - 1]);
  }

  // The stack is about to enter node `m`.
  ghost predicate About(o: Order, pages: PageMap, n: Node, path: seq<Node>, stack: seq<Frame>, m: Node) {
    && PathOk(n, path, stack)
    && (if path == [] then m == n else Enters(path[|path| - 1], stack[|stack| - 1].index, m))
    && Readable(o, pages, m)
  }

  ghost predicate OnSlot(path: seq<Node>, stack: seq<Frame>) {
    && |path| == |stack| > 0 && path[|path| - 1].Leaf?
    && 0 <= stack[|stack| - 1].index < path[|path| - 1].Count()
  }

  // What a forward load finds on top of the stack.
  lemma AheadTop(o: Order, pages: PageMap, n: Node, path: seq<Node>, stack: seq<Frame>, p: nat)
    requires Readable(o, pages, n) && AheadIs(n, path, stack, p)
    ensures |path| == |stack|
    ensures stack == [] ==> p == |Flat(n)|
    ensures stack != [] ==>
              var k := |stack| - 1; var top, i := path[k], stack[k].index;
              && stack[k].id in pages && (pages[stack[k].id].LeafPage? <==> top.Leaf?) && 0 <= i
              && if top.Leaf? then
                   && pages[stack[k].id].entries == EntriesOf(top.slots) && ValuesRep(pages, top.slots)
                   && (i < |top.slots| ==>
                     StandsOn(n, path, stack, p) && p < |Flat(n)| && Flat(n)[p] == top.slots[i].kv)
                   && (i >= |top.slots| ==> AheadIs(n, path[..k], stack[..k], p))
                 else
                   var stack' := stack[k := Frame(stack[k].id, i + 1)];
                   && pages[stack[k].id] == BranchPage(Separators(top.kids), RootIds(top.kids))
                   && (i + 1 < |top.kids| ==>
                     About(o, pages, n, path, stack', top.kids[i + 1]) && p == Base(path, stack'))
                   && (i + 1 >= |top.kids| ==> AheadIs(n, path[..k], stack'[..k], p))
  {
    hide Readable, Flat, FlatAll, Base, Width, ValuesRep;
    if stack != [] {
      var k := |stack| - 1;
      TopPage(o, pages, n, path, stack);
      var top, i := path[k], stack[k].index;
      if top.Leaf? {
        if i < |top.slots| {
          TopSlot(o, pages, n, path, stack, p);
        } else {
          LeafDone(top);
          PopAhead(n, path, stack, p);
        }
      } else {
        var stack' := stack[k := Frame(stack[k].id, i + 1)];
        NextChild(n, path, stack, p);
        if i + 1 < |top.kids| {
          KidReadable(o, pages, n, path, stack, i + 1);
        } else {
          PopAhead(n, path, stack', p);
        }
      }
    }
  }

  // What a backward load finds on top of the stack.
  lemma BehindTop(o: Order, pages: PageMap, n: Node, path: seq<Node>, stack: seq<Frame>, p: int)
    requires Readable(o, pages, n) && BehindIs(n, path, stack, p)
    ensures |path| == |stack|
    ensures stack == [] ==> p == -1
    ensures stack != [] ==>
              var k := |stack| - 1; var top, i := path[k], stack[k].index;
              && stack[k].id in pages && (pages[stack[k].id].LeafPage? <==> top.Leaf?) && i < top.Count()
              && if top.Leaf? then
                   && pages[stack[k].id].entries == EntriesOf(top.slots) && ValuesRep(pages, top.slots)
                   && (0 <= i ==>
                     0 <= p && StandsOn(n, path, stack, p) && p < |Flat(n)| && Flat(n)[p] == top.slots[i].kv)
                   && (i < 0 ==> BehindIs(n, path[..k], stack[..k], p))
                 else
                   var stack' := stack[k := Frame(stack[k].id, i - 1)];
                   && pages[stack[k].id] == BranchPage(Separators(top.kids), RootIds(top.kids))
                   && (0 <= i - 1 ==>
                         && About(o, pages, n, path, stack', top.kids[i - 1])
                         && p == Base(path, stack') + |Flat(top.kids[i - 1])| - 1)
                   && (i - 1 < 0 ==> BehindIs(n, path[..k], stack'[..k], p))
  {
    hide Readable, Flat, FlatAll, Base, Width, ValuesRep;
    if stack != [] {
      var k := |stack| - 1;
      TopPage(o, pages, n, path, stack);
      var top, i := path[k], stack[k].index;
      if top.Leaf? {
        if 0 <= i {
          TopSlot(o, pages, n, path, stack, p);
        } else {
          PopBehind(n, path, stack);
        }
      } else {
        var stack' := stack[k := Frame(stack[k].id, i - 1)];
        PreviousChild(n, path, stack, p);
        if 0 <= i - 1 {
          KidReadable(o, pages, n, path, stack, i - 1);
        } else {
          PopBehind(n, path, stack');
        }
      }
    }
  }

  class Cursor {
    const snapshot: Snapshot
    const owned: bool
    const lower: Option<Key>
    const end: Option<Key>
    var stack: seq<Frame>
    var key: Key
    var value: Bytes
    var valid: bool
    var closed: bool

    // The nodes of the frames, and the pair a valid cursor stands on.
    ghost var path: seq<Node>
    ghost var pos: nat

    constructor (snapshot: Snapshot, owned: bool, lower: Option<Key>, end: Option<Key>)
      ensures this.snapshot == snapshot && this.owned == owned && this.lower == lower && this.end == end
      ensures !valid && closed == snapshot.closed && stack == [] && path == []
    {
      this.snapshot, this.owned, this.lower, this.end := snapshot, owned, lower, end;
      stack, key, value, valid, closed := [], [], [], false, snapshot.closed;
      path, pos := [], 0;
    }

    // A valid cursor stands on pair `pos` of `n` and shows its key and value.
    ghost predicate Shows(n: Node)
      reads this
    {
      valid ==>
        && StandsOn(n, path, stack, pos)
        && pos < |Flat(n)| && Flat(n)[pos] == KV(key, value)
    }

    method Invalidate() returns (ok: bool)
      modifies `key, `value, `valid
      ensures !ok && !valid
    {
      key, value, valid := [], [], false;
      return false;
    }

    // loadLeafSlot
    method LoadLeafSlot(pages: PageMap, entries: seq<Entry>, index: nat, ghost slots: seq<Slot>)
      requires entries == EntriesOf(slots) && ValuesRep(pages, slots) && index < |entries|
      modifies `key, `value, `valid
      ensures valid && KV(key, value) == slots[index].kv
    {
      EntryAt(pages, slots, index);
      key := entries[index].key;
      value := ResolveValue(pages, entries[index].cell, slots[index]);
      valid := true;
    }

    // Show the leaf slot on top of the stack.
    method LoadTop(pages: PageMap, entries: seq<Entry>, index: nat, ghost n: Node, ghost p: nat)
      requires StandsOn(n, path, stack, p) && p < |Flat(n)|
      requires var slots := path[|path| - 1].slots;
               entries == EntriesOf(slots) && ValuesRep(pages, slots) && index < |slots|
                 && Flat(n)[p] == slots[index].kv
      modifies `key, `value, `valid, `pos
      ensures valid && Shows(n) && pos == p
    {
      hide Flat, ValuesRep;
      LoadLeafSlot(pages, entries, index, path[|path| - 1].slots);
      pos := p;
    }

    method LoadForward(pages: PageMap, o: Order, ghost n: Node, ghost p: nat) returns (ok: bool)
      requires Readable(o, pages, n) && AheadIs(n, path, stack, p)
      modifies `stack, `path, `pos, `key, `value, `valid
      ensures ok == valid && Shows(n)
      ensures ok <==> p < |Flat(n)| && (end.Some? ==> Lt(o, Flat(n)[p].key, end.value))
      ensures ok ==> pos == p
      decreases if OnSlot(path, stack) then 0 else 2
    {
      hide Readable, Flat, FlatAll, Base, Width, ValuesRep, Lt, AheadIs, StandsOn, About;
      while |stack| > 0
        invariant AheadIs(n, path, stack, p)
        invariant old(OnSlot(path, stack)) ==> path == old(path) && stack == old(stack)
        decreases |stack|
      {
        var last := |stack| - 1;
        var frame := stack[last];
        AheadTop(o, pages, n, path, stack, p);
        var page := pages[frame.id];
        if page.LeafPage? {
          if frame.index < |page.entries| {
            LoadTop(pages, page.entries, frame.index, n, p);
            if end.Some? {
              LtMeans(o, key, end.value);
              if o.compare(key, end.value) >= 0 {
                ok := Invalidate();
                return;
              }
            }
            return true;
          }
          stack, path := stack[..last], path[..last];
          continue;
        }
        stack := stack[last := Frame(frame.id, frame.index + 1)];
        if frame.index + 1 <= |page.keys| {
          ok := DescendLeft(pages, page.children[frame.index + 1], o, n, path[last].kids[frame.index + 1], p);
          return;
        }
        stack, path := stack[..last], path[..last];
      }
      AheadTop(o, pages, n, path, stack, p);
      ok := Invalidate();
    }

    // descendLeft, on a page that exists
    method DescendLeft(pages: PageMap, id: PageId, o: Order, ghost n: Node, ghost m: Node, ghost p: nat)
      returns (ok: bool)
      requires Readable(o, pages, n) && About(o, pages, n, path, stack, m) && m.id == id
      requires |path| == |stack| && p == Base(path, stack)
      modifies `stack, `path, `pos, `key, `value, `valid
      ensures ok == valid && Shows(n)
      ensures ok <==> p < |Flat(n)| && (end.Some? ==> Lt(o, Flat(n)[p].key, end.value))
      ensures ok ==> pos == p
      decreases 1
    {
      hide Readable, Flat, FlatAll, Base, Width, ValuesRep, Lt, AheadIs, About, StandsOn;
      var at := id;
      ghost var c := m;
      while true
        invariant About(o, pages, n, path, stack, c) && |path| == |stack| && p == Base(path, stack) && c.id == at
        decreases c
      {
        EnterLeft(o, pages, n, path, stack, c, p);
        var page := pages[at];
        stack, path := stack + [Frame(at, 0)], path + [c];
        if page.LeafPage? {
          ok := LoadForward(pages, o, n, p);
          return;
        }
        at := page.children[0];
        c := c.kids[0];
      }
    }

    method LoadBackward(pages: PageMap, o: Order, ghost n: Node, ghost p: int) returns (ok: bool)
      requires Readable(o, pages, n) && BehindIs(n, path, stack, p)
      modifies `stack, `path, `pos, `key, `value, `valid
      ensures ok == valid && Shows(n)
      ensures ok <==> 0 <= p < |Flat(n)| && (lower.Some? ==> !Lt(o, Flat(n)[p].key, lower.value))
      ensures ok ==> pos == p
      decreases if OnSlot(path, stack) then 0 else 2
    {
      hide Readable, Flat, FlatAll, Base, Width, ValuesRep, Lt, BehindIs, StandsOn, About;
      while |stack| > 0
        invariant BehindIs(n, path, stack, p)
        invariant old(OnSlot(path, stack)) ==> path == old(path) && stack == old(stack)
        decreases |stack|
      {
        var last := |stack| - 1;
        var frame := stack[last];
        BehindTop(o, pages, n, path, stack, p);
        var page := pages[frame.id];
        if page.LeafPage? {
          if frame.index >= 0 {
            LoadTop(pages, page.entries, frame.index, n, p);
            if lower.Some? {
              LtMeans(o, key, lower.value);
              if o.compare(key, lower.value) < 0 {
                ok := Invalidate();
                return;
              }
            }
            return true;
          }
          stack, path := stack[..last], path[..last];
          continue;
        }
        stack := stack[last := Frame(frame.id, frame.index - 1)];
        if frame.index - 1 >= 0 {
          ok := DescendRight(pages, page.children[frame.index - 1], o, n, path[last].kids[frame.index - 1], p);
          return;
        }
        stack, path := stack[..last], path[..last];
      }
      BehindTop(o, pages, n, path, stack, p);
      ok := Invalidate();
    }

    // descendRight, on a page that exists
    method DescendRight(pages: PageMap, id: PageId, o: Order, ghost n: Node, ghost m: Node, ghost p: int)
      returns (ok: bool)
      requires Readable(o, pages, n) && About(o, pages, n, path, stack, m) && m.id == id
      requires |path| == |stack| && p == Base(path, stack) + |Flat(m)| - 1
      modifies `stack, `path, `pos, `key, `value, `valid
      ensures ok == valid && Shows(n)
      ensures ok <==> 0 <= p < |Flat(n)| && (lower.Some? ==> !Lt(o, Flat(n)[p].key, lower.value))
      ensures ok ==> pos == p
      decreases 1
    {
      hide Readable, Flat, FlatAll, Base, Width, ValuesRep, Lt, BehindIs, About, StandsOn;
      var at := id;
      ghost var c := m;
      while true
        invariant About(o, pages, n, path, stack, c) && |path| == |stack| && c.id == at
        invariant p == Base(path, stack) + |Flat(c)| - 1
        decreases c
      {
        EnterRight(o, pages, n, path, stack, c, p);
        var page := pages[at];
        if page.LeafPage? {
          stack, path := stack + [Frame(at, |page.entries| - 1)], path + [c];
          ok := LoadBackward(pages, o, n, p);
          return;
        }
        var index := |page.keys|;
        stack, path := stack + [Frame(at, index)], path + [c];
        at := page.children[index];
        c := c.kids[index];
      }
    }

    // Go down to the slot where `k` is or would be, and load from there.
    method SeekFrom(pages: PageMap, root: PageId, k: Key, o: Order, ghost n: Node) returns (ok: bool)
      requires Readable(o, pages, n) && root == n.id
      modifies `stack, `path, `pos, `key, `value, `valid
      ensures ok == valid && Shows(n)
      ensures var p := LowerBound(o, Keys(Flat(n)), k);
              && (ok <==> p < |Flat(n)| && (end.Some? ==> Lt(o, Flat(n)[p].key, end.value)))
              && (ok ==> pos == p)
    {
      hide Readable, Flat, FlatAll, Base, Width, ValuesRep, Lt, AheadIs, About, StandsOn, LowerBound, Has, SortedKeys;
      stack, path := [], [];
      var at := root;
      ghost var c, p := n, LowerBound(o, Keys(Flat(n)), k);
      AboutRoot(o, pages, n);
      while true
        invariant About(o, pages, n, path, stack, c) && |path| == |stack| && c.id == at
        invariant p == Base(path, stack) + LowerBound(o, Keys(Flat(c)), k)
        decreases c
      {
        EnterAny(o, pages, n, path, stack, c);
        var page := pages[at];
        if page.LeafPage? {
          CellKeysOf(c.slots);
          var index, _ := SearchSlot(o, CellKeys(page.entries), k);
          EnterLeafAhead(o, pages, n, path, stack, c, index);
          stack, path := stack + [Frame(at, index)], path + [c];
          ok := LoadForward(pages, o, n, p);
          return;
        }
        var index := ChildIndex(o, page.keys, k);
        SeekStep(o, c.kids, k, index);
        EnterKid(o, pages, n, path, stack, c, index);
        stack, path := stack + [Frame(at, index)], path + [c];
        at := page.children[index];
        c := c.kids[index];
      }
    }

    // Go down to the slot before the one where `k` is or would be, and load back from there.
    method SeekBeforeFrom(pages: PageMap, root: PageId, k: Key, o: Order, ghost n: Node) returns (ok: bool)
      requires Readable(o, pages, n) && root == n.id
      modifies `stack, `path, `pos, `key, `value, `valid
      ensures ok == valid && Shows(n)
      ensures var p := LowerBound(o, Keys(Flat(n)), k) - 1;
              && (ok <==> 0 <= p && p < |Flat(n)| && (lower.Some? ==> !Lt(o, Flat(n)[p].key, lower.value)))
              && (ok ==> pos == p)
    {
      hide Readable, Flat, FlatAll, Base, Width, ValuesRep, Lt, BehindIs, About, StandsOn, LowerBound, Has, SortedKeys;
      stack, path := [], [];
      var at := root;
      ghost var c := n;
      ghost var p: int := LowerBound(o, Keys(Flat(n)), k);
      AboutRoot(o, pages, n);
      while true
        invariant About(o, pages, n, path, stack, c) && |path| == |stack| && c.id == at
        invariant p == Base(path, stack) + LowerBound(o, Keys(Flat(c)), k)
        decreases c
      {
        EnterAny(o, pages, n, path, stack, c);
        var page := pages[at];
        if page.LeafPage? {
          CellKeysOf(c.slots);
          var index: int, found: bool;
          index, found := SearchSlot(o, CellKeys(page.entries), k);
          index := index - 1;
          EnterLeafBehind(o, pages, n, path, stack, c, index);
          stack, path := stack + [Frame(at, index)], path + [c];
          ok := LoadBackward(pages, o, n, p - 1);
          return;
        }
        var index, _ := SearchSlot(o, page.keys, k);
        SeekBeforeStep(o, c.kids, k, index);
        EnterKid(o, pages, n, path, stack, c, index);
        stack, path := stack + [Frame(at, index)], path + [c];
        at := page.children[index];
        c := c.kids[index];
      }
    }

    // ---- The cursor's own operations ----

    ghost predicate Usable()
      reads this, snapshot
    {
      !closed && !snapshot.closed
    }

    // What the cursor walks over.
    ghost function View(): seq<KV>
      requires snapshot.Registered()
      reads snapshot, snapshot.tree
    {
      snapshot.View()
    }

    // A cursor that is valid stands on a pair of the snapshot, within its bounds.
    ghost predicate Ok()
      reads this, snapshot, snapshot.tree
    {
      && snapshot.Registered()
      && (valid && Usable() ==>
            && snapshot.tree.pins[snapshot.ticket].shape.Some?
            && Shows(snapshot.tree.pins[snapshot.ticket].shape.value)
            && InRange(snapshot.tree.order, key, lower, end))
    }

    // Seek: the first pair within bounds whose key is at least `key`.
    method Seek(key: Key, ghost lo: nat) returns (ok: bool)
      requires Ok() && (Usable() ==> WellFormed(snapshot.tree, lo))
      modifies `stack, `path, `pos, `key, `value, `valid
      ensures Ok() && (Usable() ==> ok == valid) && (ok ==> Usable())
      ensures Usable() && !ok ==> forall j: nat :: !Candidate(snapshot.tree.order, View(), lower, end, Some(key), j)
      ensures ok ==> IsFirst(snapshot.tree.order, View(), lower, end, Some(key), pos)
      // It shows that pair, and everything before it is out of bounds or below `key`.
      ensures ok ==> pos < |View()| && View()[pos] == KV(this.key, value)
      ensures ok ==>
                && (lower.Some? ==> !Lt(snapshot.tree.order, this.key, lower.value))
                && (end.Some? ==> Lt(snapshot.tree.order, this.key, end.value))
      ensures ok ==> !Lt(snapshot.tree.order, this.key, key)
      ensures Usable() ==> forall j :: 0 <= j < |View()| && (ok ==> j < pos) ==>
                || Lt(snapshot.tree.order, View()[j].key, key)
                || (lower.Some? && Lt(snapshot.tree.order, View()[j].key, lower.value))
                || (end.Some? && !Lt(snapshot.tree.order, View()[j].key, end.value))
    {
      hide WellFormed, StandsOn, Lt, Flat, Readable, Spells, LowerBound;
      if closed || snapshot.closed {
        return false;
      }
      var o := snapshot.tree.order;
      SnapshotReadable(snapshot, lo);
      ghost var pin := snapshot.tree.pins[snapshot.ticket];
      SpellsReadable(o, snapshot.tree.degree, snapshot.tree.pages, snapshot.root, pin.shape, pin.height, 0);
      ViewSorted(snapshot, lo);
      var target := key;
      if lower.Some? {
        LtMeans(o, key, lower.value);
        if o.compare(key, lower.value) < 0 {
          target := lower.value;
        }
      }
      SeekTargets(o, View(), lower, end, key, target);
      if end.Some? {
        LtMeans(o, target, end.value);
        if o.compare(target, end.value) >= 0 {
          ok := Invalidate();
          return;
        }
      }
      if snapshot.root == 0 {
        ok := Invalidate();
        return;
      }
      ok := SeekFrom(snapshot.tree.pages, snapshot.root, target, o, pin.shape.value);
    }

    // First: the first pair within bounds.
    method First(ghost lo: nat) returns (ok: bool)
      requires Ok() && (Usable() ==> WellFormed(snapshot.tree, lo))
      modifies `stack, `path, `pos, `key, `value, `valid
      ensures Ok() && (Usable() ==> ok == valid) && (ok ==> Usable())
      ensures Usable() && !ok ==> forall j: nat :: !Candidate(snapshot.tree.order, View(), lower, end, lower, j)
      ensures ok ==> IsFirst(snapshot.tree.order, View(), lower, end, lower, pos)
      ensures ok ==> pos < |View()| && View()[pos] == KV(this.key, value)
      ensures ok ==>
                && (lower.Some? ==> !Lt(snapshot.tree.order, this.key, lower.value))
                && (end.Some? ==> Lt(snapshot.tree.order, this.key, end.value))
      ensures Usable() ==> forall j :: 0 <= j < |View()| && (ok ==> j < pos) ==>
                || (lower.Some? && Lt(snapshot.tree.order, View()[j].key, lower.value))
                || (end.Some? && !Lt(snapshot.tree.order, View()[j].key, end.value))
    {
      hide WellFormed, StandsOn, Lt, Flat, Readable, Spells;
      if closed || snapshot.closed {
        return false;
      }
      if lower.Some? {
        ok := Seek(lower.value, lo);
        return;
      }
      var o := snapshot.tree.order;
      SnapshotReadable(snapshot, lo);
      ghost var pin := snapshot.tree.pins[snapshot.ticket];
      SpellsReadable(o, snapshot.tree.degree, snapshot.tree.pages, snapshot.root, pin.shape, pin.height, 0);
      ViewSorted(snapshot, lo);
      FirstTargets(o, View(), end);
      stack, path := [], [];
      if snapshot.root == 0 {
        ok := Invalidate();
        return;
      }
      AboutRoot(o, snapshot.tree.pages, pin.shape.value);
      ok := DescendLeft(snapshot.tree.pages, snapshot.root, o, pin.shape.value, pin.shape.value, 0);
    }

    // Last: the last pair within bounds.
    method Last(ghost lo: nat) returns (ok: bool)
      requires Ok() && (Usable() ==> WellFormed(snapshot.tree, lo))
      modifies `stack, `path, `pos, `key, `value, `valid
      ensures Ok() && (Usable() ==> ok == valid) && (ok ==> Usable())
      ensures Usable() && !ok ==> forall j: nat :: !Candidate(snapshot.tree.order, View(), lower, end, None, j)
      ensures ok ==> IsLast(snapshot.tree.order, View(), lower, end, pos)
      ensures ok ==> pos < |View()| && View()[pos] == KV(this.key, value)
      ensures ok ==>
                && (lower.Some? ==> !Lt(snapshot.tree.order, this.key, lower.value))
                && (end.Some? ==> Lt(snapshot.tree.order, this.key, end.value))
      ensures Usable() ==> forall j :: 0 <= j < |View()| && (ok ==> pos < j) ==>
                || (lower.Some? && Lt(snapshot.tree.order, View()[j].key, lower.value))
                || (end.Some? && !Lt(snapshot.tree.order, View()[j].key, end.value))
    {
      hide WellFormed, StandsOn, Lt, Flat, Readable, Spells, LowerBound;
      if closed || snapshot.closed {
        return false;
      }
      var o := snapshot.tree.order;
      SnapshotReadable(snapshot, lo);
      ghost var pin := snapshot.tree.pins[snapshot.ticket];
      SpellsReadable(o, snapshot.tree.degree, snapshot.tree.pages, snapshot.root, pin.shape, pin.height, 0);
      ViewSorted(snapshot, lo);
      LastTargets(o, View(), lower, end);
      stack, path := [], [];
      if end.Some? && lower.Some? {
        LtMeans(o, end.value, lower.value);
        NotBelow(o, end.value, lower.value);
        if o.compare(end.value, lower.value) <= 0 {
          ok := Invalidate();
          return;
        }
      }
      if snapshot.root == 0 {
        ok := Invalidate();
        return;
      }
      if end.Some? {
        ok := SeekBeforeFrom(snapshot.tree.pages, snapshot.root, end.value, o, pin.shape.value);
      } else {
        AboutRoot(o, snapshot.tree.pages, pin.shape.value);
        ok := DescendRight(snapshot.tree.pages, snapshot.root, o, pin.shape.value,
                           pin.shape.value, |Flat(pin.shape.value)| - 1);
      }
    }

    // Next: one pair on, unless that leaves the bounds.
    method Next(ghost lo: nat) returns (ok: bool)
      requires Ok() && (Usable() ==> WellFormed(snapshot.tree, lo))
      modifies `stack, `path, `pos, `key, `value, `valid
      ensures Ok() && (Usable() ==> ok == valid) && (ok ==> Usable() && old(valid))
      ensures old(valid) && Usable() ==>
                (ok <==> old(pos) + 1 < |View()| && InRange(snapshot.tree.order, View()[old(pos) + 1].key, lower, end))
      ensures ok ==> pos == old(pos) + 1 && pos < |View()| && View()[pos] == KV(key, value)
    {
      hide WellFormed, StandsOn, Lt, Flat, Readable, Spells, AheadIs, BehindIs;
      if !valid || closed || snapshot.closed {
        return false;
      }
      var o := snapshot.tree.order;
      SnapshotReadable(snapshot, lo);
      ghost var pin := snapshot.tree.pins[snapshot.ticket];
      SpellsReadable(o, snapshot.tree.degree, snapshot.tree.pages, snapshot.root, pin.shape, pin.height, 0);
      ViewSorted(snapshot, lo);
      StepWithin(o, View(), lower, end, pos);
      StandsOnStack(pin.shape.value, path, stack, pos);
      StepStack(pin.shape.value, path, stack, pos);
      var last := |stack| - 1;
      stack := stack[last := Frame(stack[last].id, stack[last].index + 1)];
      ok := LoadForward(snapshot.tree.pages, o, pin.shape.value, pos + 1);
    }

    // Prev: one pair back, unless that leaves the bounds.
    method Prev(ghost lo: nat) returns (ok: bool)
      requires Ok() && (Usable() ==> WellFormed(snapshot.tree, lo))
      modifies `stack, `path, `pos, `key, `value, `valid
      ensures Ok() && (Usable() ==> ok == valid) && (ok ==> Usable() && old(valid))
      ensures old(valid) && Usable() ==>
                (ok <==>
                    old(pos) > 0 && old(pos) - 1 < |View()|
                    && InRange(snapshot.tree.order, View()[old(pos) - 1].key, lower, end))
      ensures ok ==> pos == old(pos) - 1 && pos < |View()| && View()[pos] == KV(key, value)
    {
      hide WellFormed, StandsOn, Lt, Flat, Readable, Spells, AheadIs, BehindIs;
      if !valid || closed || snapshot.closed {
        return false;
      }
      var o := snapshot.tree.order;
      SnapshotReadable(snapshot, lo);
      ghost var pin := snapshot.tree.pins[snapshot.ticket];
      SpellsReadable(o, snapshot.tree.degree, snapshot.tree.pages, snapshot.root, pin.shape, pin.height, 0);
      ViewSorted(snapshot, lo);
      StepWithin(o, View(), lower, end, pos);
      StandsOnStack(pin.shape.value, path, stack, pos);
      StepStack(pin.shape.value, path, stack, pos);
      var last := |stack| - 1;
      stack := stack[last := Frame(stack[last].id, stack[last].index - 1)];
      ok := LoadBackward(snapshot.tree.pages, o, pin.shape.value, pos - 1);
    }

    // Next then Prev, when both succeed, is where the cursor was.
    method NextPrev(ghost lo: nat) returns (there: bool, back: bool)
      requires Ok() && valid && Usable() && WellFormed(snapshot.tree, lo)
      modifies `stack, `path, `pos, `key, `value, `valid
      ensures Ok() && (there ==> back && pos == old(pos) && key == old(key) && value == old(value))
    {
      hide WellFormed, StandsOn, Lt, Flat;
      there := Next(lo);
      back := false;
      if there {
        back := Prev(lo);
      }
    }

    // Prev then Next as well.
    method PrevNext(ghost lo: nat) returns (there: bool, back: bool)
      requires Ok() && valid && Usable() && WellFormed(snapshot.tree, lo)
      modifies `stack, `path, `pos, `key, `value, `valid
      ensures Ok() && (there ==> back && pos == old(pos) && key == old(key) && value == old(value))
    {
      hide WellFormed, StandsOn, Lt, Flat;
      there := Prev(lo);
      back := false;
      if there {
        back := Next(lo);
      }
    }

    // Delete: the current key leaves the live tree; the cursor keeps reading its snapshot.
    method Delete(ghost lo: nat) returns (r: Status, previous: Option<Bytes>)
      requires Ok() && (Usable() ==> WellFormed(snapshot.tree, lo))
      modifies snapshot.tree
      ensures Ok() && View() == old(View()) && (Usable() ==> snapshot.tree.pins == old(snapshot.tree.pins))
      ensures !(valid && Usable() && owned) ==>
                r.Done? && previous == None && (snapshot.tree != null ==> unchanged(snapshot.tree))
      ensures valid && Usable() && owned && r.Done? ==>
                && WellFormed(snapshot.tree, old(FillAfterDelete(snapshot.tree, lo)))
                && if snapshot.tree.closed || snapshot.tree.readOnly
                then previous == None && Pairs(snapshot.tree) == old(Pairs(snapshot.tree))
                   else
                     && previous == Lookup(snapshot.tree.order, old(Pairs(snapshot.tree)), key)
                     && MapOf(Pairs(snapshot.tree)) == old(MapOf(Pairs(snapshot.tree))) - {key}
    {
      hide WellFormed, StandsOn, Lt, Flat, Readable, Spells, LowerBound;
      if !valid || closed || snapshot.closed || !owned {
        return Done, None;
      }
      r, previous := Updates.Delete(snapshot.tree, key, lo);
    }

    // Close
    method Close(ghost lo: nat)
      requires snapshot.Registered() && (!snapshot.closed ==> WellFormed(snapshot.tree, lo))
      modifies this, if owned && !closed then {snapshot} else {}, if owned && !closed && !snapshot.closed
        then {snapshot.tree} else {}
      ensures closed && !Usable() && Ok()
      ensures owned && !old(closed) ==> snapshot.closed
      ensures !(owned && !old(closed)) ==> snapshot.closed == old(snapshot.closed)
      ensures owned && !old(closed) && !old(snapshot.closed) ==>
                WellFormed(snapshot.tree, lo) && Pairs(snapshot.tree) == old(Pairs(snapshot.tree))
                && snapshot.tree.pins == old(snapshot.tree.pins) - {snapshot.ticket}
    {
      hide WellFormed, Pairs;
      if closed {
        return;
      }
      if owned {
        CloseSnapshot(snapshot, lo);
      }
      closed := true;
      var _ := Invalidate();
      stack, path := [], [];
    }
  }

  lemma AboutRoot(o: Order, pages: PageMap, n: Node)
    requires Readable(o, pages, n)
    ensures About(o, pages, n, [], [], n) && Base([], []) == 0
  {
  }

  lemma EnterAny(o: Order, pages: PageMap, n: Node, path: seq<Node>, stack: seq<Frame>, c: Node)
    requires About(o, pages, n, path, stack, c)
    ensures c.id in pages && (pages[c.id].LeafPage? <==> c.Leaf?)
    ensures c.Leaf? ==>
              pages[c.id].entries == EntriesOf(c.slots) && Sorted(o, PairsOf(c.slots)) && Flat(c) == PairsOf(c.slots)
    ensures c.Branch? ==>
              && pages[c.id] == BranchPage(Separators(c.kids), RootIds(c.kids))
              && SolidKids(o, c.kids) && SortedKeys(o, Separators(c.kids)) && Flat(c) == FlatAll(c.kids)
  {
    hide Readable, FlatAll, Base, Width, ValuesRep, SortedKeys;
    NodePage(o, pages, c);
    if c.Leaf? {
      ReadableLeaf(o, pages, c);
    } else {
      ReadableKids(o, pages, c);
    }
  }

  lemma EnterLeafAhead(o: Order, pages: PageMap, n: Node, path: seq<Node>, stack: seq<Frame>, c: Node, i: nat)
    requires About(o, pages, n, path, stack, c) && c.Leaf? && i <= |c.slots| && |path| == |stack|
    ensures AheadIs(n, path + [c], stack + [Frame(c.id, i)], Base(path, stack) + i)
  {
    hide Readable, Base, PathOk, AheadIs, Enters;
    PushOk(n, path, stack, c, i);
    LeafOnTop(n, path, stack, c, i);
  }

  lemma LeafOnTop(n: Node, path: seq<Node>, stack: seq<Frame>, c: Node, i: int)
    requires PathOk(n, path + [c], stack + [Frame(c.id, i)]) && c.Leaf? && |path| == |stack|
    ensures 0 <= i <= |c.slots| ==> AheadIs(n, path + [c], stack + [Frame(c.id, i)], Base(path, stack) + i)
    ensures -1 <= i < |c.slots| ==> BehindIs(n, path + [c], stack + [Frame(c.id, i)], Base(path, stack) + i)
  {
    hide Flat, Base, Width, PathOk;
    var path', stack' := path + [c], stack + [Frame(c.id, i)];
    assert path'[..|path'| - 1] == path && stack'[..|stack'| - 1] == stack;
  }

  lemma EnterLeafBehind(o: Order, pages: PageMap, n: Node, path: seq<Node>, stack: seq<Frame>, c: Node, i: int)
    requires About(o, pages, n, path, stack, c) && c.Leaf? && -1 <= i < |c.slots| && |path| == |stack|
    ensures BehindIs(n, path + [c], stack + [Frame(c.id, i)], Base(path, stack) + i)
  {
    hide Readable, Base, PathOk, BehindIs, Enters;
    PushOk(n, path, stack, c, i);
    LeafOnTop(n, path, stack, c, i);
  }

  lemma EnterKid(o: Order, pages: PageMap, n: Node, path: seq<Node>, stack: seq<Frame>, c: Node, i: nat)
    requires About(o, pages, n, path, stack, c) && c.Branch? && i < |c.kids| && |path| == |stack|
    ensures About(o, pages, n, path + [c], stack + [Frame(c.id, i)], c.kids[i])
    ensures Base(path + [c], stack + [Frame(c.id, i)]) == Base(path, stack) + |FlatAll(c.kids[..i])|
  {
    hide Readable, Flat, FlatAll, Base, Width, ValuesRep;
    PushOk(n, path, stack, c, i);
    PushBase(path, stack, c, i);
    ReadableKids(o, pages, c);
    WidthIs(c, i);
  }

  // A search of a branch is a search of the child it is routed to.
  lemma SeekStep(o: Order, kids: seq<Node>, key: Key, i: nat)
    requires SolidKids(o, kids) && i == ChildFor(o, Separators(kids), key)
    ensures i < |kids| && LowerBound(o, Keys(FlatAll(kids)), key) == |FlatAll(kids[..i])| + LowerBound(o,
              Keys(Flat(kids[i])), key)
  {
    hide FlatAll, Flat, FirstKey, Solid, Lt, LowerBound, SortedKeys, ChildFor;
    ChildIsRouted(o, kids, key);
    Around(kids, i);
    PositionLocal(o, FlatAll(kids[..i]), Flat(kids[i]), FlatAll(kids[i + 1..]), key);
  }

  // So is a search of the child whose separator is the last one below the key.
  lemma SeekBeforeStep(o: Order, kids: seq<Node>, key: Key, i: nat)
    requires SolidKids(o, kids) && SortedKeys(o, Separators(kids)) && i == LowerBound(o, Separators(kids), key)
    ensures i < |kids| && LowerBound(o, Keys(FlatAll(kids)), key) == |FlatAll(kids[..i])| + LowerBound(o,
              Keys(Flat(kids[i])), key)
  {
    hide FlatAll, Flat, FirstKey, Solid, Lt, LowerBound, SortedKeys;
    var seps := Separators(kids);
    LowerBoundSplits(o, seps, key);
    Around(kids, i);
    var left, mid, right := FlatAll(kids[..i]), Flat(kids[i]), FlatAll(kids[i + 1..]);
    SortedParts(o, left + mid, right);
    SortedParts(o, left, mid);
    KidOffset(kids, i);
    NothingAll();
    if i > 0 {
      assert Lt(o, seps[i - 1], key);
      LeftOfBound(o, left, mid, key);
    } else {
      assert kids[..0] == [];
    }
    if i + 1 < |kids| {
      KidOffset(kids, i + 1);
      AllSolidNonempty(kids[i + 1..]);
      assert !Lt(o, seps[i], key);
      RightOfBound(o, right, key);
    } else {
      assert kids[i + 1..] == [];
    }
    BoundOfParts(o, left, mid, right, key);
  }

  lemma LeftOfBound(o: Order, left: seq<KV>, mid: seq<KV>, key: Key)
    requires mid != [] && Lt(o, mid[0].key, key)
    requires forall i, j :: 0 <= i < |left| && 0 <= j < |mid| ==> Lt(o, left[i].key, mid[j].key)
    ensures forall i :: 0 <= i < |left| ==> Lt(o, left[i].key, key)
  {
    forall i | 0 <= i < |left| ensures Lt(o, left[i].key, key) {
      Transitive(o, left[i].key, mid[0].key, key);
    }
  }

  lemma RightOfBound(o: Order, right: seq<KV>, key: Key)
    requires Sorted(o, right) && right != [] && !Lt(o, right[0].key, key)
    ensures forall i :: 0 <= i < |right| ==> !Lt(o, right[i].key, key)
  {
    forall i | 0 <= i < |right| ensures !Lt(o, right[i].key, key) {
      if i > 0 && Lt(o, right[i].key, key) {
        assert Lt(o, Keys(right)[0], Keys(right)[i]);
        Transitive(o, right[0].key, right[i].key, key);
      }
    }
  }

  lemma BoundOfParts(o: Order, left: seq<KV>, mid: seq<KV>, right: seq<KV>, key: Key)
    requires Sorted(o, mid)
    requires forall i :: 0 <= i < |left| ==> Lt(o, left[i].key, key)
    requires forall i :: 0 <= i < |right| ==> !Lt(o, right[i].key, key)
    ensures LowerBound(o, Keys(left + mid + right), key) == |left| + LowerBound(o, Keys(mid), key)
  {
    hide LowerBound, SortedKeys, Lt;
    var s, i := Keys(left + mid + right), LowerBound(o, Keys(mid), key);
    LowerBoundSplits(o, Keys(mid), key);
    forall j | 0 <= j < |left| + i ensures Lt(o, s[j], key) {
      assert s[j] == if j < |left| then left[j].key else Keys(mid)[j - |left|];
    }
    forall j | |left| + i <= j < |s| ensures !Lt(o, s[j], key) {
      assert s[j] == if j < |left| + |mid| then Keys(mid)[j - |left|] else right[j - |left| - |mid|].key;
    }
    LowerBoundUnique(o, s, key, |left| + i);
  }

  // Entering a node at its left end: a leaf slot to load, or a child to enter.
  lemma EnterLeft(o: Order, pages: PageMap, n: Node, path: seq<Node>, stack: seq<Frame>, c: Node, p: nat)
    requires About(o, pages, n, path, stack, c) && |path| == |stack| && p == Base(path, stack)
    ensures c.id in pages && (pages[c.id].LeafPage? <==> c.Leaf?)
    ensures var path', stack' := path + [c], stack + [Frame(c.id, 0)];
            if c.Leaf? then AheadIs(n, path', stack', p) && OnSlot(path', stack')
            else
              && pages[c.id] == BranchPage(Separators(c.kids), RootIds(c.kids)) && c.kids != []
              && About(o, pages, n, path', stack', c.kids[0]) && p == Base(path', stack')
  {
    hide Readable, Flat, FlatAll, Base, Width, ValuesRep;
    NodePage(o, pages, c);
    PushOk(n, path, stack, c, 0);
    PushBase(path, stack, c, 0);
    if c.Branch? {
      ReadableKids(o, pages, c);
      WidthIs(c, 0);
    }
  }

  lemma EnterRight(o: Order, pages: PageMap, n: Node, path: seq<Node>, stack: seq<Frame>, c: Node, p: int)
    requires About(o, pages, n, path, stack, c) && |path| == |stack| && p == Base(path, stack) + |Flat(c)| - 1
    ensures c.id in pages && (pages[c.id].LeafPage? <==> c.Leaf?)
    ensures c.Leaf? ==>
              var path', stack' := path + [c], stack + [Frame(c.id, |pages[c.id].entries| - 1)];
              BehindIs(n, path', stack', p) && OnSlot(path', stack')
    ensures c.Branch? ==>
              var i := |pages[c.id].keys|; var path', stack' := path + [c], stack + [Frame(c.id, i)];
              && pages[c.id] == BranchPage(Separators(c.kids), RootIds(c.kids)) && i + 1 == |c.kids|
              && About(o, pages, n, path', stack', c.kids[i]) && p == Base(path', stack') + |Flat(c.kids[i])| - 1
  {
    hide Readable, Flat, FlatAll, Base, Width, ValuesRep, FirstKey, IdsAll, LeafIdsAll, SortedKeys, AllSolid;
    NodePage(o, pages, c);
    if c.Leaf? {
      LeafDone(c);
      PushOk(n, path, stack, c, |c.slots| - 1);
      PushBase(path, stack, c, |c.slots| - 1);
    } else {
      ReadableKids(o, pages, c);
      var i := |c.kids| - 1;
      PushOk(n, path, stack, c, i);
      PushBase(path, stack, c, i);
      WidthIs(c, i);
      WidthIs(c, i + 1);
    }
  }

  lemma LeafDone(n: Node)
    requires n.Leaf?
    ensures |Flat(n)| == |n.slots|
  {
  }

  lemma NodePage(o: Order, pages: PageMap, n: Node)
    requires Readable(o, pages, n)
    ensures n.id in pages && n.Count() >= 1 && (pages[n.id].LeafPage? <==> n.Leaf?)
    ensures n.Leaf? ==> |pages[n.id].entries| == |n.slots|
    ensures n.Branch? ==> pages[n.id] == BranchPage(Separators(n.kids), RootIds(n.kids))
  {
  }

  lemma PushBase(path: seq<Node>, stack: seq<Frame>, c: Node, i: int)
    requires |path| == |stack|
    ensures Base(path + [c], stack + [Frame(c.id, i)]) == Base(path, stack) + Width(c, i)
    ensures c.Leaf? ==> Width(c, i) == 0
  {
    BaseStep(path + [c], stack + [Frame(c.id, i)]);
    assert (path + [c])[..|path|] == path && (stack + [Frame(c.id, i)])[..|stack|] == stack;
  }

  // The branch on top has finished its child and turns to the next one.
  lemma NextChild(n: Node, path: seq<Node>, stack: seq<Frame>, p: nat)
    requires AheadIs(n, path, stack, p) && path != [] && path[|path| - 1].Branch?
    ensures var k := |path| - 1; var i := stack[k].index + 1; var stack' := stack[k := Frame(stack[k].id, i)];
            && PathOk(n, path, stack') && stack'[..k] == stack[..k]
            && (i < |path[k].kids| ==> p == Base(path, stack') && Enters(path[k], i, path[k].kids[i]))
            && (i == |path[k].kids| ==> p == Base(path[..k], stack'[..k]) + |Flat(path[k])|)
            && i <= |path[k].kids|
  {
    hide Flat, FlatAll, Base, Width;
    var k := |path| - 1;
    var i := stack[k].index + 1;
    var stack' := stack[k := Frame(stack[k].id, i)];
    assert stack'[..k] == stack[..k];
    BaseStep(path, stack');
    WidthIs(path[k], i);
  }

  lemma PreviousChild(n: Node, path: seq<Node>, stack: seq<Frame>, p: int)
    requires BehindIs(n, path, stack, p) && path != [] && path[|path| - 1].Branch?
    ensures var k := |path| - 1; var i := stack[k].index - 1; var stack' := stack[k := Frame(stack[k].id, i)];
            && PathOk(n, path, stack') && stack'[..k] == stack[..k]
            && (i >= 0 ==> p == Base(path, stack') + |Flat(path[k].kids[i])| - 1 && Enters(path[k], i, path[k].kids[i]))
            && (i < 0 ==> p == Base(path[..k], stack'[..k]) - 1)
            && i < |path[k].kids|
  {
    hide Flat, FlatAll, Base, Width;
    var k := |path| - 1;
    var i := stack[k].index - 1;
    var stack' := stack[k := Frame(stack[k].id, i)];
    assert stack'[..k] == stack[..k];
    BaseStep(path, stack');
    WidthIs(path[k], i + 1);
    if i >= 0 {
      WidthIs(path[k], i);
    }
  }

  lemma NotBelow(o: Order, a: Key, b: Key)
    ensures o.compare(a, b) <= 0 <==> !Lt(o, b, a)
  {
    Trichotomy(o, a, b);
    assert o.compare(a, b) == 0 <==> a == b;
  }

  lemma StandsOnStack(n: Node, path: seq<Node>, stack: seq<Frame>, p: nat)
    requires StandsOn(n, path, stack, p)
    ensures |path| == |stack| > 0
  {
  }

  // ---- Where a cursor may land ----

  // A pair within the cursor's bounds, at or above `key` if there is one.
  ghost predicate Candidate(o: Order, view: seq<KV>, lower: Option<Key>, end: Option<Key>, key: Option<Key>, j: nat) {
    j < |view| && InRange(o, view[j].key, lower, end) && (key.Some? ==> !Lt(o, view[j].key, key.value))
  }

  ghost predicate IsFirst(o: Order, view: seq<KV>, lower: Option<Key>, end: Option<Key>, key: Option<Key>, p: nat) {
    Candidate(o, view, lower, end, key, p) && forall j: nat :: Candidate(o, view, lower, end, key, j) ==> p <= j
  }

  ghost predicate IsLast(o: Order, view: seq<KV>, lower: Option<Key>, end: Option<Key>, p: nat) {
    Candidate(o, view, lower, end, None, p) && forall j: nat :: Candidate(o, view, lower, end, None, j) ==> j <= p
  }

  lemma ViewSorted(s: Snapshot, lo: nat)
    requires s.Registered() && !s.closed && WellFormed(s.tree, lo)
    ensures Sorted(s.tree.order, s.View())
  {
    hide WellFormed, Spells;
    SnapshotReadable(s, lo);
    var p := s.tree.pins[s.ticket];
    SpelledSorted(s.tree.order, s.tree.degree, s.tree.pages, s.root, p.shape, p.height, 0);
  }

  lemma SpelledSorted(o: Order, d: nat, pages: PageMap, root: PageId, shape: Option<Node>, h: nat, lo: nat)
    requires Spells(o, d, pages, root, shape, h, lo)
    ensures Sorted(o, PairsIn(shape))
  {
    hide Rep, KeysFit, Flat, Balanced, SortedKeys;
    EmptySorted(o, d);
  }

  // A key at least as large as both bounds is one at least as large as the target.
  lemma ClampMeans(o: Order, lower: Option<Key>, key: Key, target: Key, k: Key)
    requires target == if lower.Some? && Lt(o, key, lower.value) then lower.value else key
    ensures !Lt(o, k, target) <==> !Lt(o, k, key) && (lower.Some? ==> !Lt(o, k, lower.value))
  {
    if lower.Some? {
      var l := lower.value;
      Trichotomy(o, key, l);
      Trichotomy(o, k, l);
      Trichotomy(o, k, key);
      if Lt(o, k, key) && Lt(o, key, l) {
        Transitive(o, k, key, l);
      }
      if Lt(o, k, l) && Lt(o, l, key) {
        Transitive(o, k, l, key);
      }
    }
  }

  lemma SeekTargets(o: Order, view: seq<KV>, lower: Option<Key>, end: Option<Key>, key: Key, target: Key)
    requires Sorted(o, view) && target == if lower.Some? && Lt(o, key, lower.value) then lower.value else key
    ensures var p := LowerBound(o, Keys(view), target);
            var landed := p < |view| && (end.Some? ==> Lt(o, view[p].key, end.value));
            && (landed ==> IsFirst(o, view, lower, end, Some(key), p))
            && (!landed ==> forall j: nat :: !Candidate(o, view, lower, end, Some(key), j))
            && (end.Some? && !Lt(o, target, end.value) ==> !landed)
            && forall j :: 0 <= j < |view| && (landed ==> j < p) ==>
                 || Lt(o, view[j].key, key) || (lower.Some? && Lt(o, view[j].key, lower.value))
                 || (end.Some? && !Lt(o, view[j].key, end.value))
  {
    hide LowerBound, Lt, SortedKeys;
    var p := LowerBound(o, Keys(view), target);
    LowerBoundSplits(o, Keys(view), target);
    forall j | 0 <= j < |view|
      ensures Candidate(o, view, lower, end, Some(key), j) <==> p <= j && (end.Some? ==> Lt(o, view[j].key, end.value))
    {
      assert Keys(view)[j] == view[j].key;
      ClampMeans(o, lower, key, target, view[j].key);
    }
    if p < |view| && end.Some? {
      if !Lt(o, view[p].key, end.value) {
        PastEnd(o, view, p, end.value);
      }
      if !Lt(o, target, end.value) {
        EmptyBounds(o, [view[p]], target, end.value);
        WithinExact(o, [view[p]], Some(target), end, view[p]);
        assert view[p] in [view[p]];
      }
    }
  }

  lemma PastEnd(o: Order, view: seq<KV>, p: nat, end: Key)
    requires Sorted(o, view) && p < |view| && !Lt(o, view[p].key, end)
    ensures forall j :: p <= j < |view| ==> !Lt(o, view[j].key, end)
  {
    SortedSuffix(o, view, p);
    RightOfBound(o, view[p..], end);
    forall j | p <= j < |view| ensures !Lt(o, view[j].key, end) {
      assert view[p..][j - p] == view[j];
    }
  }

  lemma FirstTargets(o: Order, view: seq<KV>, end: Option<Key>)
    requires Sorted(o, view)
    ensures var landed := 0 < |view| && (end.Some? ==> Lt(o, view[0].key, end.value));
            && (landed ==> IsFirst(o, view, None, end, None, 0))
            && (!landed ==> forall j: nat :: !Candidate(o, view, None, end, None, j))
            && forall j :: 0 <= j < |view| && (landed ==> j < 0) ==> end.Some? && !Lt(o, view[j].key, end.value)
  {
    hide Lt, SortedKeys;
    if 0 < |view| && end.Some? && !Lt(o, view[0].key, end.value) {
      PastEnd(o, view, 0, end.value);
    }
  }

  // The last pair before the end, if it is not below the lower bound.
  lemma LastTargets(o: Order, view: seq<KV>, lower: Option<Key>, end: Option<Key>)
    requires Sorted(o, view)
    ensures var p := (if end.Some? then LowerBound(o, Keys(view), end.value) else |view|) - 1;
            var landed := 0 <= p && p < |view| && (lower.Some? ==> !Lt(o, view[p].key, lower.value));
            && (landed ==> IsLast(o, view, lower, end, p))
            && (forall j :: 0 <= j < |view| && (landed ==> p < j) ==>
                  || (lower.Some? && Lt(o, view[j].key, lower.value))
                  || (end.Some? && !Lt(o, view[j].key, end.value)))
            && (!landed ==> forall j: nat :: !Candidate(o, view, lower, end, None, j))
            && (end.Some? && lower.Some? && !Lt(o, lower.value, end.value) ==> !landed)
  {
    hide LowerBound, Lt, SortedKeys;
    var p := (if end.Some? then LowerBound(o, Keys(view), end.value) else |view|) - 1;
    if end.Some? {
      LowerBoundSplits(o, Keys(view), end.value);
    }
    forall j | 0 <= j < |view| ensures j <= p <==> (end.Some? ==> Lt(o, view[j].key, end.value)) {
      assert Keys(view)[j] == view[j].key;
    }
    if p >= 0 && lower.Some? {
      if Lt(o, view[p].key, lower.value) {
        BelowLower(o, view, p, lower.value);
      }
      if end.Some? && !Lt(o, lower.value, end.value) {
        EmptyBounds(o, [view[p]], lower.value, end.value);
        WithinExact(o, [view[p]], lower, end, view[p]);
        assert view[p] in [view[p]];
      }
    }
  }

  lemma BelowLower(o: Order, view: seq<KV>, p: nat, lower: Key)
    requires Sorted(o, view) && p < |view| && Lt(o, view[p].key, lower)
    ensures forall j :: 0 <= j <= p ==> Lt(o, view[j].key, lower)
  {
    forall j | 0 <= j < p ensures Lt(o, view[j].key, lower) {
      assert Lt(o, Keys(view)[j], Keys(view)[p]);
      Transitive(o, view[j].key, view[p].key, lower);
    }
  }

  // One step from a pair within bounds leaves the bounds only on the side stepped to.
  lemma StepWithin(o: Order, view: seq<KV>, lower: Option<Key>, end: Option<Key>, p: nat)
    requires Sorted(o, view) && p < |view| && InRange(o, view[p].key, lower, end)
    ensures p + 1 < |view| ==>
              (InRange(o, view[p + 1].key, lower, end) <==> (end.Some? ==> Lt(o, view[p + 1].key, end.value)))
    ensures p > 0 ==>
              (InRange(o, view[p - 1].key, lower, end) <==> (lower.Some? ==> !Lt(o, view[p - 1].key, lower.value)))
  {
    if p + 1 < |view| {
      assert Lt(o, Keys(view)[p], Keys(view)[p + 1]);
      if lower.Some? && Lt(o, view[p + 1].key, lower.value) {
        Transitive(o, view[p].key, view[p + 1].key, lower.value);
      }
    }
    if p > 0 {
      assert Lt(o, Keys(view)[p - 1], Keys(view)[p]);
      if end.Some? {
        Transitive(o, view[p - 1].key, view[p].key, end.value);
      }
    }
  }

  // The slot after the one a cursor stands on, and the slot before it.
  lemma StepStack(n: Node, path: seq<Node>, stack: seq<Frame>, p: nat)
    requires StandsOn(n, path, stack, p)
    ensures var k := |stack| - 1; var f := stack[k];
            && AheadIs(n, path, stack[k := Frame(f.id, f.index + 1)], p + 1)
            && BehindIs(n, path, stack[k := Frame(f.id, f.index - 1)], p - 1)
  {
    hide Flat, Base, Width;
    var k := |stack| - 1;
    var f := stack[k];
    assert stack[k := Frame(f.id, f.index + 1)][..k] == stack[..k]
           && stack[k := Frame(f.id, f.index - 1)][..k] == stack[..k];
  }
}
