// Keys and the orders a tree may be sorted by (pagebtree/key_order.go).

module KeyOrder {

  type Byte = b: int | 0 <= b < 256

  type Bytes = seq<Byte>

  type Key = Bytes

  // A comparator: negative, zero or positive, as CompareKeys returns it.
  datatype Comparator = Comparator(compare: (Key, Key) -> int)

  predicate Lt(c: Comparator, a: Key, b: Key) {
    c.compare(a, b) < 0
  }

  // The contract that key_order.go puts on every comparator.
  ghost predicate IsStrictTotalOrder(c: Comparator) {
    && (forall a: Key, b: Key {:trigger c.compare(a, b)} :: c.compare(a, b) == 0 <==> a == b)
    && (forall a: Key, b: Key {:trigger c.compare(a, b)} :: c.compare(a, b) < 0 <==> c.compare(b, a) > 0)
    && (forall a: Key, b: Key, k: Key {:trigger Lt(c, a, b), Lt(c, b, k), Lt(c, a, k)} ::
          Lt(c, a, b) && Lt(c, b, k) ==> Lt(c, a, k))
  }

  // compareStrings: unsigned lexicographic byte order, a proper prefix first.
  function CompareBytewise(a: Key, b: Key): int {
    if a == [] && b == [] then 0
    else if a == [] then -1
    else if b == [] then 1
    else if a[0] < b[0] then -1
    else if a[0] > b[0] then 1
    else CompareBytewise(a[1..], b[1..])
  }

  const Bytewise := Comparator((a, b) => CompareBytewise(a, b))

  const Reverse := Comparator((a, b) => -CompareBytewise(a, b))

  lemma {:induction false} CompareBytewiseZero(a: Key, b: Key)
    ensures CompareBytewise(a, b) == 0 <==> a == b
  {
    if a != [] && b != [] && a[0] == b[0] {
      CompareBytewiseZero(a[1..], b[1..]);
      assert a == [a[0]] + a[1..] && b == [b[0]] + b[1..];
    }
  }

  lemma {:induction false} CompareBytewiseAntisymmetric(a: Key, b: Key)
    ensures CompareBytewise(a, b) == -CompareBytewise(b, a)
  {
    if a != [] && b != [] && a[0] == b[0] {
      CompareBytewiseAntisymmetric(a[1..], b[1..]);
    }
  }

  // Bytes are compared as unsigned numbers at the first place where the keys differ; a key that
  // only ends there is the smaller one.
  lemma {:induction false} FirstDifferenceDecides(a: Key, b: Key, k: nat)
    requires k <= |a| && k <= |b| && a[..k] == b[..k]
    ensures k == |a| < |b| ==> Lt(Bytewise, a, b) && Lt(Reverse, b, a)
    ensures k < |a| && k < |b| && a[k] < b[k] ==> Lt(Bytewise, a, b) && Lt(Reverse, b, a)
  {
    CompareBytewiseAntisymmetric(a, b);
    if k > 0 {
      assert a[0] == a[..k][0] == b[..k][0] == b[0];
      assert a[1..][..k - 1] == a[..k][1..] == b[..k][1..] == b[1..][..k - 1];
      FirstDifferenceDecides(a[1..], b[1..], k - 1);
    }
  }

  lemma {:induction false} CompareBytewiseTransitive(a: Key, b: Key, k: Key)
    requires CompareBytewise(a, b) < 0 && CompareBytewise(b, k) < 0
    ensures CompareBytewise(a, k) < 0
  {
    if a != [] && b != [] && k != [] && a[0] == b[0] == k[0] {
      CompareBytewiseTransitive(a[1..], b[1..], k[1..]);
    }
  }

  // Both persisted key orders meet the comparator contract.
  lemma PersistedOrdersAreStrict()
    ensures IsStrictTotalOrder(Bytewise)
    ensures IsStrictTotalOrder(Reverse)
  {
    forall a: Key, b: Key
      ensures CompareBytewise(a, b) == 0 <==> a == b
      ensures CompareBytewise(a, b) == -CompareBytewise(b, a)
    {
      CompareBytewiseZero(a, b);
      CompareBytewiseAntisymmetric(a, b);
    }
    forall a: Key, b: Key, k: Key | CompareBytewise(a, b) < 0 && CompareBytewise(b, k) < 0
      ensures CompareBytewise(a, k) < 0
    {
      CompareBytewiseTransitive(a, b, k);
    }
    forall a: Key, b: Key, k: Key | Lt(Reverse, a, b) && Lt(Reverse, b, k)
      ensures Lt(Reverse, a, k)
    {
      CompareBytewiseTransitive(k, b, a);
    }
  }

  // The orders a tree is built with.
  type Order = c: Comparator | IsStrictTotalOrder(c)
    witness (PersistedOrdersAreStrict(); Bytewise)

  lemma Trichotomy(o: Order, a: Key, b: Key)
    ensures a == b || Lt(o, a, b) || Lt(o, b, a)
    ensures !(Lt(o, a, b) && Lt(o, b, a))
    ensures !Lt(o, a, a)
  {
    assert o.compare(a, b) == 0 <==> a == b;
    assert o.compare(a, a) == 0;
  }

  lemma Transitive(o: Order, a: Key, b: Key, k: Key)
    requires Lt(o, a, b) && Lt(o, b, k)
    ensures Lt(o, a, k)
  {
  }

  lemma LtMeans(o: Order, a: Key, b: Key)
    ensures Lt(o, a, b) <==> o.compare(a, b) < 0
    ensures Lt(o, b, a) <==> o.compare(a, b) > 0
    ensures a == b <==> o.compare(a, b) == 0
  {
  }
}
