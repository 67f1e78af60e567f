// What a range read visits: the pairs between two bounds, in order, for as long as the
// visitor wants more.

module Ranges {
  import opened KeyOrder
  import opened Contents

  // The visitor's answer after it has seen these pairs: whether to go on.
  type Visitor = seq<KV> -> bool

  // The pairs seen in the end, and whether the visitor let the read run out.
  function Visit(visit: Visitor, seen: seq<KV>, s: seq<KV>): (seq<KV>, bool)
    decreases |s|
  {
    if s == [] then (seen, true)
    else if !visit(seen + [s[0]]) then (seen + [s[0]], false)
    else Visit(visit, seen + [s[0]], s[1..])
  }

  predicate InRange(o: Order, key: Key, start: Option<Key>, end: Option<Key>) {
    && (start.Some? ==> !Lt(o, key, start.value))
    && (end.Some? ==> Lt(o, key, end.value))
  }

  // The pairs with start <= key < end.
  function Within(o: Order, s: seq<KV>, start: Option<Key>, end: Option<Key>): seq<KV> {
    if s == [] then []
    else if InRange(o, s[0].key, start, end) then [s[0]] + Within(o, s[1..], start, end)
    else Within(o, s[1..], start, end)
  }

  // ---- Visiting ----

  lemma {:induction false} VisitConcat(visit: Visitor, seen: seq<KV>, a: seq<KV>, b: seq<KV>)
    ensures var first := Visit(visit, seen, a);
            Visit(visit, seen, a + b) == if first.1 then Visit(visit, first.0, b) else first
    decreases |a|
  {
    if a == [] {
      assert a + b == b;
    } else {
      assert (a + b)[0] == a[0] && (a + b)[1..] == a[1..] + b;
      VisitConcat(visit, seen + [a[0]], a[1..], b);
    }
  }

  // A read sees a prefix of what there is, and all of it unless the visitor stops it.
  lemma {:induction false} VisitSeesPrefix(visit: Visitor, seen: seq<KV>, s: seq<KV>)
    ensures var r := Visit(visit, seen, s);
            && |seen| <= |r.0| <= |seen| + |s|
            && r.0 == seen + s[..|r.0| - |seen|]
            && (r.1 ==> r.0 == seen + s && (s != [] ==> visit(r.0)))
            && (!r.1 ==> |r.0| > |seen| && !visit(r.0))
            && (forall k :: |seen| < k < |r.0| ==> visit(r.0[..k]))
    decreases |s|
  {
    if s != [] && visit(seen + [s[0]]) {
      VisitSeesPrefix(visit, seen + [s[0]], s[1..]);
      var r := Visit(visit, seen, s);
      assert seen + [s[0]] + s[1..] == seen + s;
      assert r.0[..|seen| + 1] == seen + [s[0]];
    }
  }

  // ---- Bounds ----

  lemma {:induction false} WithinConcat(o: Order, a: seq<KV>, b: seq<KV>, start: Option<Key>, end: Option<Key>)
    ensures Within(o, a + b, start, end) == Within(o, a, start, end) + Within(o, b, start, end)
    decreases |a|
  {
    if a == [] {
      assert a + b == b;
    } else {
      assert (a + b)[0] == a[0] && (a + b)[1..] == a[1..] + b;
      WithinConcat(o, a[1..], b, start, end);
    }
  }

  lemma {:induction false} WithinAll(o: Order, s: seq<KV>, start: Option<Key>, end: Option<Key>)
    requires forall i :: 0 <= i < |s| ==> InRange(o, s[i].key, start, end)
    ensures Within(o, s, start, end) == s
    decreases |s|
  {
    if s != [] {
      WithinAll(o, s[1..], start, end);
    }
  }

  lemma {:induction false} WithinNone(o: Order, s: seq<KV>, start: Option<Key>, end: Option<Key>)
    requires forall i :: 0 <= i < |s| ==> !InRange(o, s[i].key, start, end)
    ensures Within(o, s, start, end) == []
    decreases |s|
  {
    if s != [] {
      WithinNone(o, s[1..], start, end);
    }
  }

  lemma WithinNothing(o: Order, start: Option<Key>, end: Option<Key>)
    ensures Within(o, [], start, end) == []
  {
  }

  lemma EmptyBounds(o: Order, s: seq<KV>, start: Key, end: Key)
    requires !Lt(o, start, end)
    ensures Within(o, s, Some(start), Some(end)) == []
  {
    forall i | 0 <= i < |s| ensures !InRange(o, s[i].key, Some(start), Some(end)) {
      var key := s[i].key;
      if !Lt(o, key, start) && Lt(o, key, end) {
        Trichotomy(o, key, start);
        if key != start {
          Transitive(o, start, key, end);
        }
      }
    }
    WithinNone(o, s, Some(start), Some(end));
  }

  // Pairs of which the first is already at or past the end.
  lemma NothingFrom(o: Order, s: seq<KV>, start: Option<Key>, end: Key)
    requires Sorted(o, s) && s != [] && !Lt(o, s[0].key, end)
    ensures Within(o, s, start, Some(end)) == []
  {
    forall i | 0 <= i < |s| ensures !InRange(o, s[i].key, start, Some(end)) {
      if i > 0 && Lt(o, s[i].key, end) {
        assert Lt(o, Keys(s)[0], Keys(s)[i]);
        Transitive(o, s[0].key, s[i].key, end);
      }
    }
    WithinNone(o, s, start, Some(end));
  }

  // In a sorted sequence the pairs from the lower bound of `start` to that of `end`.
  lemma WithinIsSlice(o: Order, s: seq<KV>, start: Key, end: Option<Key>)
    requires Sorted(o, s)
    ensures Within(o, s, Some(start), end) == Within(o, s[LowerBound(o, Keys(s), start)..], None, end)
  {
    hide LowerBound, SortedKeys, Lt, Within;
    var i := LowerBound(o, Keys(s), start);
    LowerBoundSplits(o, Keys(s), start);
    assert s == s[..i] + s[i..];
    WithinConcat(o, s[..i], s[i..], Some(start), end);
    forall j | 0 <= j < i ensures !InRange(o, s[j].key, Some(start), end) {
      assert Lt(o, Keys(s)[j], start);
    }
    WithinNone(o, s[..i], Some(start), end);
    forall j | 0 <= j < |s[i..]| ensures !Lt(o, s[i..][j].key, start) {
      assert !Lt(o, Keys(s)[i + j], start);
    }
    DropStart(o, s[i..], start, end);
  }

  lemma {:induction false} DropStart(o: Order, s: seq<KV>, start: Key, end: Option<Key>)
    requires forall j :: 0 <= j < |s| ==> !Lt(o, s[j].key, start)
    ensures Within(o, s, Some(start), end) == Within(o, s, None, end)
    decreases |s|
  {
    if s != [] {
      DropStart(o, s[1..], start, end);
    }
  }

  // What is within bounds is exactly the pairs of the map with keys in the range.
  lemma {:induction false} WithinExact(o: Order, s: seq<KV>, start: Option<Key>, end: Option<Key>, kv: KV)
    ensures kv in Within(o, s, start, end) <==> kv in s && InRange(o, kv.key, start, end)
    ensures kv in Within(o, s, start, end) <==>
            kv in s && (start.Some? ==> !Lt(o, kv.key, start.value)) && (end.Some? ==> Lt(o, kv.key, end.value))
    decreases |s|
  {
    if s != [] {
      WithinExact(o, s[1..], start, end, kv);
      assert s == [s[0]] + s[1..];
    }
  }

  lemma {:induction false} WithinSorted(o: Order, s: seq<KV>, start: Option<Key>, end: Option<Key>)
    requires Sorted(o, s)
    ensures Sorted(o, Within(o, s, start, end))
    decreases |s|
  {
    if s != [] {
      assert s == [s[0]] + s[1..];
      SortedParts(o, [s[0]], s[1..]);
      WithinSorted(o, s[1..], start, end);
      var rest := Within(o, s[1..], start, end);
      forall j | 0 <= j < |rest| ensures Lt(o, s[0].key, rest[j].key) {
        WithinExact(o, s[1..], start, end, rest[j]);
        var p :| 0 <= p < |s[1..]| && s[1..][p] == rest[j];
        assert Lt(o, [s[0]][0].key, s[1..][p].key);
      }
      var r := [s[0]] + rest;
      forall i, j | 0 <= i < j < |r| ensures Lt(o, Keys(r)[i], Keys(r)[j]) {
        assert i > 0 ==> Lt(o, Keys(rest)[i - 1], Keys(rest)[j - 1]);
      }
    }
  }
}
