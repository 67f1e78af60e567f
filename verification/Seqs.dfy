// Splicing sequences: insertAt (pagebtree/insert.go) and removal by append.

module Seqs {

  function InsertAt<T>(s: seq<T>, i: nat, x: T): (r: seq<T>)
    requires i <= |s|
    ensures |r| == |s| + 1 && r[i] == x
    ensures forall p :: 0 <= p < i ==> r[p] == s[p]
    ensures forall p :: i < p < |r| ==> r[p] == s[p - 1]
  {
    s[..i] + [x] + s[i..]
  }

  function RemoveAt<T>(s: seq<T>, i: nat): (r: seq<T>)
    requires i < |s|
    ensures |r| == |s| - 1
    ensures forall p :: 0 <= p < i ==> r[p] == s[p]
    ensures forall p :: i <= p < |r| ==> r[p] == s[p + 1]
  {
    s[..i] + s[i + 1..]
  }

  lemma InsertAtLocal<T>(a: seq<T>, b: seq<T>, c: seq<T>, i: nat, x: T)
    requires i <= |b|
    ensures InsertAt(a + b + c, |a| + i, x) == a + InsertAt(b, i, x) + c
  {
  }

  lemma RemoveAtLocal<T>(a: seq<T>, b: seq<T>, c: seq<T>, i: nat)
    requires i < |b|
    ensures RemoveAt(a + b + c, |a| + i) == a + RemoveAt(b, i) + c
  {
  }

  lemma ReplaceLocal<T>(a: seq<T>, b: seq<T>, c: seq<T>, i: nat, x: T)
    requires i < |b|
    ensures (a + b + c)[|a| + i := x] == a + b[i := x] + c
  {
  }

  lemma SplitAtPair<T>(s: seq<T>, i: nat)
    requires i + 1 < |s|
    ensures s == s[..i] + [s[i], s[i + 1]] + s[i + 2..]
  {
  }
}
