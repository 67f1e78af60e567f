// What a tree holds, seen from outside: a sequence of key/value pairs sorted
// by the tree's order, and the finite map that sequence stands for.

module Contents {
  import opened KeyOrder
  import opened Seqs

  datatype KV = KV(key: Key, value: Bytes)

  datatype Option<+T> = None | Some(value: T)

  function Keys(s: seq<KV>): (r: seq<Key>)
    ensures |r| == |s|
  {
    seq(|s|, i requires 0 <= i < |s| => s[i].key)
  }

  ghost predicate SortedKeys(o: Order, s: seq<Key>) {
    forall i, j :: 0 <= i < j < |s| ==> Lt(o, s[i], s[j])
  }

  ghost predicate Sorted(o: Order, s: seq<KV>) {
    SortedKeys(o, Keys(s))
  }

  // The number of leading keys below `key`: where a binary search lands.
  function LowerBound(o: Order, s: seq<Key>, key: Key): (i: nat)
    ensures i <= |s|
    ensures forall j :: 0 <= j < i ==> Lt(o, s[j], key)
    ensures i < |s| ==> !Lt(o, s[i], key)
  {
    if s == [] || !Lt(o, s[0], key) then 0
    else
      var rest := LowerBound(o, s[1..], key);
      assert forall j :: 0 < j <= rest ==> s[j] == s[1..][j - 1];
      1 + rest
  }

  predicate Has(o: Order, s: seq<Key>, key: Key) {
    var i := LowerBound(o, s, key);
    i < |s| && s[i] == key
  }

  function Lookup(o: Order, s: seq<KV>, key: Key): Option<Bytes> {
    if Has(o, Keys(s), key) then Some(s[LowerBound(o, Keys(s), key)].value) else None
  }

  function Upsert(o: Order, s: seq<KV>, key: Key, value: Bytes): seq<KV> {
    var i := LowerBound(o, Keys(s), key);
    if Has(o, Keys(s), key) then s[i := KV(key, value)] else InsertAt(s, i, KV(key, value))
  }

  function Remove(o: Order, s: seq<KV>, key: Key): seq<KV> {
    if Has(o, Keys(s), key) then RemoveAt(s, LowerBound(o, Keys(s), key)) else s
  }

  lemma NothingSorted(o: Order)
    ensures Sorted(o, [])
  {
  }

  lemma NothingFound(o: Order, key: Key)
    ensures Lookup(o, [], key) == None
  {
  }

  lemma KeysConcat(a: seq<KV>, b: seq<KV>)
    ensures Keys(a + b) == Keys(a) + Keys(b)
  {
  }

  lemma SortedKeysParts(o: Order, a: seq<Key>, b: seq<Key>)
    requires SortedKeys(o, a + b)
    ensures SortedKeys(o, a) && SortedKeys(o, b)
    ensures forall i, j :: 0 <= i < |a| && 0 <= j < |b| ==> Lt(o, a[i], b[j])
  {
    var s := a + b;
    assert forall i :: 0 <= i < |a| ==> s[i] == a[i];
    assert forall j :: 0 <= j < |b| ==> s[|a| + j] == b[j];
  }

  lemma SortedParts(o: Order, a: seq<KV>, b: seq<KV>)
    requires Sorted(o, a + b)
    ensures Sorted(o, a) && Sorted(o, b)
    ensures forall i, j :: 0 <= i < |a| && 0 <= j < |b| ==> Lt(o, a[i].key, b[j].key)
  {
    KeysConcat(a, b);
    SortedKeysParts(o, Keys(a), Keys(b));
    forall i, j | 0 <= i < |a| && 0 <= j < |b| ensures Lt(o, a[i].key, b[j].key) {
      assert Lt(o, Keys(a)[i], Keys(b)[j]);
    }
  }

  // ---- The lower bound, characterised ----

  ghost predicate IsLowerBound(o: Order, s: seq<Key>, key: Key, i: nat) {
    && i <= |s|
    && (forall j :: 0 <= j < i ==> Lt(o, s[j], key))
    && (forall j :: i <= j < |s| ==> !Lt(o, s[j], key))
  }

  lemma LowerBoundSplits(o: Order, s: seq<Key>, key: Key)
    requires SortedKeys(o, s)
    ensures IsLowerBound(o, s, key, LowerBound(o, s, key))
  {
    var i := LowerBound(o, s, key);
    forall j | i <= j < |s| ensures !Lt(o, s[j], key) {
      if i < j && Lt(o, s[j], key) {
        Transitive(o, s[i], s[j], key);
      }
    }
  }

  lemma LowerBoundUnique(o: Order, s: seq<Key>, key: Key, i: nat)
    requires IsLowerBound(o, s, key, i)
    ensures i == LowerBound(o, s, key)
  {
    var m := LowerBound(o, s, key);
    assert m < |s| ==> !Lt(o, s[m], key);
    assert i < |s| ==> !Lt(o, s[i], key);
  }

  // The position of a key in a sorted sequence is the place of the key.
  lemma HasIffIn(o: Order, s: seq<Key>, key: Key)
    requires SortedKeys(o, s)
    ensures Has(o, s, key) <==> key in s
  {
    if key in s {
      var j :| 0 <= j < |s| && s[j] == key;
      AtLowerBound(o, s, j);
    }
  }

  lemma AtLowerBound(o: Order, s: seq<Key>, j: nat)
    requires SortedKeys(o, s) && j < |s|
    ensures LowerBound(o, s, s[j]) == j
  {
    Trichotomy(o, s[j], s[j]);
    forall k | j < k < |s| ensures !Lt(o, s[k], s[j]) {
      Trichotomy(o, s[k], s[j]);
    }
    LowerBoundUnique(o, s, s[j], j);
  }

  // A search inside one segment of a sorted sequence finds the position that a
  // search of the whole sequence finds, provided the neighbouring segments lie
  // on the right sides of the key.
  lemma LowerBoundLocal(o: Order, a: seq<Key>, b: seq<Key>, c: seq<Key>, key: Key)
    requires SortedKeys(o, a + b + c)
    requires a == [] || (b != [] && !Lt(o, key, b[0]))
    requires c == [] || Lt(o, key, c[0])
    ensures LowerBound(o, a + b + c, key) == |a| + LowerBound(o, b, key)
    ensures Has(o, a + b + c, key) <==> Has(o, b, key)
  {
    var m := LowerBound(o, b, key);
    SortedKeysParts(o, a + b, c);
    SortedKeysParts(o, a, b);
    LowerBoundSplits(o, b, key);
    forall j | 0 <= j < |a| ensures Lt(o, a[j], key) {
      Trichotomy(o, b[0], key);
      if b[0] != key {
        Transitive(o, a[j], b[0], key);
      }
    }
    forall j | 0 <= j < |c| ensures Lt(o, key, c[j]) && !Lt(o, c[j], key) && c[j] != key {
      if j > 0 {
        Transitive(o, key, c[0], c[j]);
      }
      Trichotomy(o, key, c[j]);
    }
    LowerBoundBetween(o, a, b, c, key, m);
  }

  lemma LowerBoundBetween(o: Order, a: seq<Key>, b: seq<Key>, c: seq<Key>, key: Key, m: nat)
    requires IsLowerBound(o, b, key, m)
    requires forall j :: 0 <= j < |a| ==> Lt(o, a[j], key)
    requires forall j :: 0 <= j < |c| ==> !Lt(o, c[j], key) && c[j] != key
    ensures LowerBound(o, a + b + c, key) == |a| + LowerBound(o, b, key)
    ensures Has(o, a + b + c, key) <==> Has(o, b, key)
  {
    hide Lt, LowerBound;
    LowerBoundUnique(o, b, key, m);
    var s := a + b + c;
    forall j | 0 <= j < |a| + m ensures Lt(o, s[j], key) {
      assert s[j] == if j < |a| then a[j] else b[j - |a|];
    }
    forall j | |a| + m <= j < |s| ensures !Lt(o, s[j], key) {
      assert s[j] == if j < |a| + |b| then b[j - |a|] else c[j - |a| - |b|];
    }
    LowerBoundUnique(o, s, key, |a| + m);
    assert |a| + m < |s| ==> s[|a| + m] == if m < |b| then b[m] else c[0];
  }

  lemma PositionLocal(o: Order, a: seq<KV>, b: seq<KV>, c: seq<KV>, key: Key)
    requires Sorted(o, a + b + c)
    requires a == [] || (b != [] && !Lt(o, key, b[0].key))
    requires c == [] || Lt(o, key, c[0].key)
    ensures LowerBound(o, Keys(a + b + c), key) == |a| + LowerBound(o, Keys(b), key)
    ensures Has(o, Keys(a + b + c), key) <==> Has(o, Keys(b), key)
  {
    assert Keys(a + b + c) == Keys(a) + Keys(b) + Keys(c);
    LowerBoundLocal(o, Keys(a), Keys(b), Keys(c), key);
  }

  lemma UpsertLocal(o: Order, a: seq<KV>, b: seq<KV>, c: seq<KV>, key: Key, value: Bytes)
    requires Sorted(o, a + b + c)
    requires a == [] || (b != [] && !Lt(o, key, b[0].key))
    requires c == [] || Lt(o, key, c[0].key)
    ensures Upsert(o, a + b + c, key, value) == a + Upsert(o, b, key, value) + c
  {
    PositionLocal(o, a, b, c, key);
    var i := LowerBound(o, Keys(b), key);
    if Has(o, Keys(b), key) {
      ReplaceLocal(a, b, c, i, KV(key, value));
    } else {
      InsertAtLocal(a, b, c, i, KV(key, value));
    }
  }

  lemma RemoveLocal(o: Order, a: seq<KV>, b: seq<KV>, c: seq<KV>, key: Key)
    requires Sorted(o, a + b + c)
    requires a == [] || (b != [] && !Lt(o, key, b[0].key))
    requires c == [] || Lt(o, key, c[0].key)
    ensures Remove(o, a + b + c, key) == a + Remove(o, b, key) + c
  {
    PositionLocal(o, a, b, c, key);
    if Has(o, Keys(b), key) {
      RemoveAtLocal(a, b, c, LowerBound(o, Keys(b), key));
    }
  }

  lemma LookupLocal(o: Order, a: seq<KV>, b: seq<KV>, c: seq<KV>, key: Key)
    requires Sorted(o, a + b + c)
    requires a == [] || (b != [] && !Lt(o, key, b[0].key))
    requires c == [] || Lt(o, key, c[0].key)
    ensures Lookup(o, a + b + c, key) == Lookup(o, b, key)
  {
    PositionLocal(o, a, b, c, key);
  }

  // ---- Updates keep the order ----

  lemma InsertKeySorted(o: Order, s: seq<Key>, key: Key)
    requires SortedKeys(o, s) && !Has(o, s, key)
    ensures SortedKeys(o, InsertAt(s, LowerBound(o, s, key), key))
  {
    var i := LowerBound(o, s, key);
    LowerBoundSplits(o, s, key);
    forall j | i <= j < |s| ensures Lt(o, key, s[j]) {
      Trichotomy(o, key, s[j]);
      assert i < j ==> Lt(o, s[i], s[j]);
    }
  }

  lemma UpsertSorted(o: Order, s: seq<KV>, key: Key, value: Bytes)
    requires Sorted(o, s)
    ensures Sorted(o, Upsert(o, s, key, value))
    ensures Keys(Upsert(o, s, key, value)) ==
            if Has(o, Keys(s), key) then Keys(s) else InsertAt(Keys(s), LowerBound(o, Keys(s), key), key)
  {
    var i := LowerBound(o, Keys(s), key);
    if Has(o, Keys(s), key) {
      assert Keys(s[i := KV(key, value)]) == Keys(s);
    } else {
      KeysInsertAt(s, i, KV(key, value));
      InsertKeySorted(o, Keys(s), key);
    }
  }

  lemma RemoveSorted(o: Order, s: seq<KV>, key: Key)
    requires Sorted(o, s)
    ensures Sorted(o, Remove(o, s, key))
    ensures Keys(Remove(o, s, key)) ==
            if Has(o, Keys(s), key) then RemoveAt(Keys(s), LowerBound(o, Keys(s), key)) else Keys(s)
  {
    var r := Keys(Remove(o, s, key));
    if Has(o, Keys(s), key) {
      var i := LowerBound(o, Keys(s), key);
      assert r == RemoveAt(Keys(s), i);
      forall p, q | 0 <= p < q < |r| ensures Lt(o, r[p], r[q]) {
        assert Lt(o, Keys(s)[if p < i then p else p + 1], Keys(s)[if q < i then q else q + 1]);
      }
    }
  }

  // ---- The finite map ----

  // The map a sequence stands for.
  function MapOf(s: seq<KV>): map<Key, Bytes> {
    if s == [] then map[] else MapOf(s[..|s| - 1])[s[|s| - 1].key := s[|s| - 1].value]
  }

  ghost predicate Represents(s: seq<KV>, m: map<Key, Bytes>) {
    && (forall k: Key :: k in m <==> k in Keys(s))
    && (forall i :: 0 <= i < |s| ==> s[i].key in m && m[s[i].key] == s[i].value)
  }

  lemma RepresentsUnique(s: seq<KV>, m: map<Key, Bytes>, n: map<Key, Bytes>)
    requires Represents(s, m) && Represents(s, n)
    ensures m == n
  {
    forall k: Key | k in m ensures m[k] == n[k] {
      var i :| 0 <= i < |s| && Keys(s)[i] == k;
      assert s[i].key == k;
    }
  }

  lemma {:induction false} MapOfRepresents(o: Order, s: seq<KV>)
    requires Sorted(o, s)
    ensures Represents(s, MapOf(s)) && |MapOf(s)| == |s|
  {
    if s != [] {
      var front, last := s[..|s| - 1], s[|s| - 1];
      assert s == front + [last];
      KeysConcat(front, [last]);
      assert Keys([last]) == [last.key];
      SortedParts(o, front, [last]);
      LastKeyNew(o, front, last);
      MapOfRepresents(o, front);
    }
  }

  lemma LastKeyNew(o: Order, front: seq<KV>, last: KV)
    requires Sorted(o, front + [last])
    ensures last.key !in Keys(front)
    ensures forall i :: 0 <= i < |front| ==> front[i].key != last.key
  {
    SortedParts(o, front, [last]);
    forall i | 0 <= i < |front| ensures front[i].key != last.key {
      assert Lt(o, front[i].key, [last][0].key);
      Trichotomy(o, front[i].key, last.key);
    }
  }

  // Reading the sequence is reading the map.
  lemma LookupIsMapLookup(o: Order, s: seq<KV>, key: Key)
    requires Sorted(o, s)
    ensures Lookup(o, s, key) == if key in MapOf(s) then Some(MapOf(s)[key]) else None
  {
    MapOfRepresents(o, s);
    HasIffIn(o, Keys(s), key);
  }

  // Two sorted sequences that stand for the same map are the same sequence.
  lemma {:induction false} SortedIsCanonical(o: Order, s: seq<KV>, t: seq<KV>)
    requires Sorted(o, s) && Sorted(o, t)
    requires MapOf(s) == MapOf(t)
    ensures s == t
  {
    hide MapOf, SortedKeys, Keys;
    SameLength(o, s, t);
    if s != [] {
      SameLast(o, s, t);
      var x, s', t' := s[|s| - 1], s[..|s| - 1], t[..|t| - 1];
      assert s == s' + [x] && t == t' + [x];
      FrontRepresents(o, s', x);
      FrontRepresents(o, t', x);
      SortedIsCanonical(o, s', t');
    }
  }

  lemma SameLength(o: Order, s: seq<KV>, t: seq<KV>)
    requires Sorted(o, s) && Sorted(o, t)
    requires MapOf(s) == MapOf(t)
    ensures |s| == |t|
  {
    hide MapOf, SortedKeys;
    MapOfRepresents(o, s);
    MapOfRepresents(o, t);
  }

  lemma SameLast(o: Order, s: seq<KV>, t: seq<KV>)
    requires Sorted(o, s) && Sorted(o, t)
    requires MapOf(s) == MapOf(t) && |s| == |t| && s != []
    ensures s[|s| - 1] == t[|t| - 1]
  {
    hide MapOf, SortedKeys;
    MapOfRepresents(o, s);
    MapOfRepresents(o, t);
    LastIsGreatest(o, s, t);
    LastIsGreatest(o, t, s);
    Trichotomy(o, s[|s| - 1].key, t[|t| - 1].key);
  }

  lemma LastIsGreatest(o: Order, s: seq<KV>, t: seq<KV>)
    requires Sorted(o, s) && s != [] && t != []
    requires forall k: Key :: k in Keys(t) ==> k in Keys(s)
    ensures !Lt(o, s[|s| - 1].key, t[|t| - 1].key)
  {
    assert Keys(t)[|t| - 1] in Keys(s);
    var i :| 0 <= i < |s| && Keys(s)[i] == t[|t| - 1].key;
    Trichotomy(o, Keys(s)[i], s[|s| - 1].key);
    assert i < |s| - 1 ==> Lt(o, Keys(s)[i], Keys(s)[|s| - 1]);
  }

  lemma FrontRepresents(o: Order, front: seq<KV>, last: KV)
    requires Sorted(o, front + [last])
    ensures Sorted(o, front)
    ensures MapOf(front) == MapOf(front + [last]) - {last.key}
  {
    hide SortedKeys;
    var s := front + [last];
    SortedParts(o, front, [last]);
    LastKeyNew(o, front, last);
    MapOfRepresents(o, front);
    assert s[..|s| - 1] == front;
  }

  // Putting a key is a map update.
  lemma UpsertIsMapUpdate(o: Order, s: seq<KV>, key: Key, value: Bytes)
    requires Sorted(o, s)
    ensures MapOf(Upsert(o, s, key, value)) == MapOf(s)[key := value]
  {
    var i := LowerBound(o, Keys(s), key);
    MapOfRepresents(o, s);
    UpsertSorted(o, s, key, value);
    HasIffIn(o, Keys(s), key);
    if Has(o, Keys(s), key) {
      ReplaceRepresents(o, s, MapOf(s), i, value);
    } else {
      InsertRepresents(s, MapOf(s), i, KV(key, value));
    }
    MapOfRepresents(o, Upsert(o, s, key, value));
    RepresentsUnique(Upsert(o, s, key, value), MapOf(s)[key := value], MapOf(Upsert(o, s, key, value)));
  }

  lemma InsertRepresents(s: seq<KV>, m: map<Key, Bytes>, i: nat, kv: KV)
    requires Represents(s, m) && i <= |s| && kv.key !in m
    ensures Represents(InsertAt(s, i, kv), m[kv.key := kv.value])
  {
    hide InsertAt, Keys;
    var r := InsertAt(s, i, kv);
    KeysAfterInsert(Keys(s), i, kv.key);
    KeysInsertAt(s, i, kv);
    assert Keys(r) == InsertAt(Keys(s), i, kv.key);
    forall p | 0 <= p < |r| && p != i ensures r[p].key in m && m[r[p].key] == r[p].value {
      assert r[p] == s[if p < i then p else p - 1];
    }
  }

  lemma KeysInsertAt(s: seq<KV>, i: nat, kv: KV)
    requires i <= |s|
    ensures Keys(InsertAt(s, i, kv)) == InsertAt(Keys(s), i, kv.key)
  {
  }

  lemma ReplaceRepresents(o: Order, s: seq<KV>, m: map<Key, Bytes>, i: nat, value: Bytes)
    requires Sorted(o, s) && Represents(s, m) && i < |s|
    ensures Represents(s[i := KV(s[i].key, value)], m[s[i].key := value])
  {
    var r := s[i := KV(s[i].key, value)];
    assert Keys(r) == Keys(s);
    forall p | 0 <= p < |r| && p != i ensures r[p].key in m && r[p].key != s[i].key && m[r[p].key] == r[p].value {
      OtherKeys(o, Keys(s), p, i);
    }
  }

  lemma OtherKeys(o: Order, s: seq<Key>, p: nat, i: nat)
    requires SortedKeys(o, s) && p < |s| && i < |s| && p != i
    ensures s[p] != s[i]
  {
    Trichotomy(o, s[p], s[i]);
    assert p < i ==> Lt(o, s[p], s[i]);
    assert i < p ==> Lt(o, s[i], s[p]);
  }

  lemma KeysAfterInsert(s: seq<Key>, i: nat, key: Key)
    requires i <= |s|
    ensures forall k: Key :: k in InsertAt(s, i, key) <==> k == key || k in s
  {
    var r := InsertAt(s, i, key);
    forall k: Key | k in s ensures k in r {
      var p :| 0 <= p < |s| && s[p] == k;
      assert r[if p < i then p else p + 1] == k;
    }
  }

  // Deleting a key removes exactly that key from the map.
  lemma RemoveIsMapRemoval(o: Order, s: seq<KV>, key: Key)
    requires Sorted(o, s)
    ensures MapOf(Remove(o, s, key)) == MapOf(s) - {key}
  {
    MapOfRepresents(o, s);
    HasIffIn(o, Keys(s), key);
    if Has(o, Keys(s), key) {
      RemoveSorted(o, s, key);
      MapOfRepresents(o, Remove(o, s, key));
      RemoveRepresents(o, s, MapOf(s), LowerBound(o, Keys(s), key));
      RepresentsUnique(Remove(o, s, key), MapOf(s) - {key}, MapOf(Remove(o, s, key)));
    }
  }

  lemma RemoveRepresents(o: Order, s: seq<KV>, m: map<Key, Bytes>, i: nat)
    requires Sorted(o, s) && Represents(s, m) && i < |s|
    ensures Represents(RemoveAt(s, i), m - {s[i].key})
  {
    hide SortedKeys;
    var r := RemoveAt(s, i);
    KeysAfterRemove(o, Keys(s), i);
    assert Keys(r) == RemoveAt(Keys(s), i);
    forall p | 0 <= p < |r| ensures r[p].key in m - {s[i].key} && m[r[p].key] == r[p].value {
      assert Keys(r)[p] in Keys(r);
    }
  }

  lemma KeysAfterRemove(o: Order, s: seq<Key>, i: nat)
    requires SortedKeys(o, s) && i < |s|
    ensures forall k: Key :: k in RemoveAt(s, i) <==> k != s[i] && k in s
  {
    var r := RemoveAt(s, i);
    forall k: Key | k in s && k != s[i] ensures k in r {
      var p :| 0 <= p < |s| && s[p] == k;
      assert r[if p < i then p else p - 1] == k;
    }
    forall k: Key | k in r ensures k != s[i] {
      var p :| 0 <= p < |r| && r[p] == k;
      OtherKeys(o, s, if p < i then p else p + 1, i);
    }
  }
}
