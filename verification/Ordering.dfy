/**
 Ordered iteration. The C++ sources iterate `std::map` in ascending key order;
 `Ascending` is that order, as a function of the key set alone.
 */
module Ordering {

  ghost predicate StrictTotalOrder<K(!new)>(less: (K, K) -> bool) {
    && (forall a :: !less(a, a))
    && (forall a, b :: a != b ==> less(a, b) || less(b, a))
    && (forall a, b, c :: less(a, b) && less(b, c) ==> less(a, c))
  }

  predicate IsLeast<K(==)>(x: K, s: set<K>, less: (K, K) -> bool) {
    x in s && forall y | y in s && y != x :: less(x, y)
  }

  lemma {:induction false} HasLeast<K(!new)>(s: set<K>, less: (K, K) -> bool)
    requires StrictTotalOrder(less)
    requires s != {}
    ensures exists x :: IsLeast(x, s, less)
  {
    var e :| e in s;
    if s == {e} {
      assert IsLeast(e, s, less);
    } else {
      assert s - {e} != {};
      HasLeast(s - {e}, less);
      var m :| IsLeast(m, s - {e}, less);
      if less(e, m) {
        forall y | y in s && y != e ensures less(e, y) {
          assert y in s - {e};
        }
        assert IsLeast(e, s, less);
      } else {
        assert IsLeast(m, s, less);
      }
    }
  }

  /** The keys of `s` in ascending order. */
  function Ascending<K(!new, ==)>(s: set<K>, less: (K, K) -> bool): (keys: seq<K>)
    requires StrictTotalOrder(less)
    ensures |keys| == |s|
    ensures forall k :: k in keys <==> k in s
    ensures forall i, j | 0 <= i < j < |keys| :: less(keys[i], keys[j])
  {
    if s == {} then []
    else
      HasLeast(s, less);
      var least :| least in s && IsLeast(least, s, less);
      [least] + Ascending(s - {least}, less)
  }

  predicate IdLess(a: nat, b: nat) {
    a < b
  }

  lemma IdOrder()
    ensures StrictTotalOrder(IdLess)
  {
  }

  /** The ids of a stream table, in the order it is iterated. */
  function Ids<V>(streams: map<nat, V>): (ids: seq<nat>)
    ensures forall id :: id in ids <==> id in streams
    ensures forall i, j | 0 <= i < j < |ids| :: ids[i] < ids[j]
  {
    IdOrder();
    var ids := Ascending(streams.Keys, IdLess);
    assert forall i, j | 0 <= i < j < |ids| :: IdLess(ids[i], ids[j]);
    ids
  }

  /** The order of `std::string`: lexicographic on characters. */
  predicate StringLess(a: string, b: string) {
    if b == [] then false
    else if a == [] then true
    else if a[0] != b[0] then a[0] < b[0]
    else StringLess(a[1..], b[1..])
  }

  lemma {:induction false} StringTrichotomy(a: string, b: string)
    ensures !StringLess(a, a)
    ensures a != b ==> StringLess(a, b) || StringLess(b, a)
  {
    if a != [] {
      StringTrichotomy(a[1..], if b != [] then b[1..] else []);
      if b != [] && a[0] == b[0] && a != b {
        assert a == [a[0]] + a[1..] && b == [b[0]] + b[1..];
      }
    }
  }

  lemma {:induction false} StringTransitive(a: string, b: string, c: string)
    requires StringLess(a, b) && StringLess(b, c)
    ensures StringLess(a, c)
  {
    if a != [] && a[0] == b[0] == c[0] {
      StringTransitive(a[1..], b[1..], c[1..]);
    }
  }

  /** The order of `std::pair<std::string, std::string>`. */
  predicate PairLess(a: (string, string), b: (string, string)) {
    StringLess(a.0, b.0) || (a.0 == b.0 && StringLess(a.1, b.1))
  }

  lemma PairOrder()
    ensures StrictTotalOrder(PairLess)
  {
    forall a: (string, string), b: (string, string)
      ensures !PairLess(a, a)
      ensures a != b ==> PairLess(a, b) || PairLess(b, a)
    {
      StringTrichotomy(a.0, b.0);
      StringTrichotomy(a.1, b.1);
    }
    forall a, b, c | PairLess(a, b) && PairLess(b, c)
      ensures PairLess(a, c)
    {
      PairTransitive(a, b, c);
    }
  }

  lemma PairTransitive(a: (string, string), b: (string, string), c: (string, string))
    requires PairLess(a, b) && PairLess(b, c)
    ensures PairLess(a, c)
  {
    if StringLess(a.0, b.0) && StringLess(b.0, c.0) {
      StringTransitive(a.0, b.0, c.0);
    } else if a.0 == b.0 && b.0 == c.0 {
      StringTransitive(a.1, b.1, c.1);
    }
  }
}
