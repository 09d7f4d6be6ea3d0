/** Association lists sorted by key. */
module Sorting {

  datatype Pair<+K, +V> = Pair(key: K, val: V)

  function Insert<K, V>(less: (K, K) -> bool, p: Pair<K, V>, ps: seq<Pair<K, V>>): seq<Pair<K, V>> {
    if ps == [] then [p]
    else if less(p.key, ps[0].key) then [p] + ps
    else [ps[0]] + Insert(less, p, ps[1..])
  }

  function Sort<K, V>(less: (K, K) -> bool, ps: seq<Pair<K, V>>): seq<Pair<K, V>> {
    if ps == [] then [] else Insert(less, ps[0], Sort(less, ps[1..]))
  }

  predicate DistinctKeys<K(==), V>(ps: seq<Pair<K, V>>) {
    forall i, j :: 0 <= i < j < |ps| ==> ps[i].key != ps[j].key
  }

  function KeySet<K(==), V>(ps: seq<Pair<K, V>>): set<K> {
    set i | 0 <= i < |ps| :: ps[i].key
  }

  predicate StrictlySorted<K, V>(less: (K, K) -> bool, ps: seq<Pair<K, V>>) {
    forall i, j :: 0 <= i < j < |ps| ==> less(ps[i].key, ps[j].key)
  }

  ghost predicate SameMembers<T(!new)>(a: seq<T>, b: seq<T>) {
    forall x :: x in a <==> x in b
  }

  /** `less` is a strict total order on the keys in `ks`. */
  ghost predicate OrdersKeys<K(!new)>(less: (K, K) -> bool, ks: set<K>) {
    && (forall a :: a in ks ==> !less(a, a))
    && (forall a, b :: a in ks && b in ks && a != b ==> less(a, b) || less(b, a))
    && (forall a, b, c :: a in ks && b in ks && c in ks && less(a, b) && less(b, c) ==> less(a, c))
  }

  lemma {:induction false} InsertMultiset<K, V>(less: (K, K) -> bool, p: Pair<K, V>, ps: seq<Pair<K, V>>)
    ensures multiset(Insert(less, p, ps)) == multiset([p]) + multiset(ps)
  {
    if ps != [] && !less(p.key, ps[0].key) {
      InsertMultiset(less, p, ps[1..]);
      assert ps == [ps[0]] + ps[1..];
    }
  }

  lemma {:induction false} SortMultiset<K, V>(less: (K, K) -> bool, ps: seq<Pair<K, V>>)
    ensures multiset(Sort(less, ps)) == multiset(ps)
    ensures |Sort(less, ps)| == |ps|
    ensures KeySet(Sort(less, ps)) == KeySet(ps)
    ensures DistinctKeys(Sort(less, ps)) <==> DistinctKeys(ps)
  {
    if ps != [] {
      SortMultiset(less, ps[1..]);
      InsertMultiset(less, ps[0], Sort(less, ps[1..]));
      assert ps == [ps[0]] + ps[1..];
    }
    assert |Sort(less, ps)| == |multiset(Sort(less, ps))| == |multiset(ps)|;
    DistinctAnyOrder(Sort(less, ps), ps);
  }

  lemma SortMember<K, V>(less: (K, K) -> bool, ps: seq<Pair<K, V>>, p: Pair<K, V>)
    ensures p in Sort(less, ps) <==> p in ps
  {
    SortMultiset(less, ps);
    assert p in Sort(less, ps) <==> p in multiset(Sort(less, ps));
  }

  lemma KeysOfMembers<K, V>(ps: seq<Pair<K, V>>, qs: seq<Pair<K, V>>)
    requires forall p :: p in ps ==> p in qs
    ensures KeySet(ps) <= KeySet(qs)
  {
    forall k | k in KeySet(ps) ensures k in KeySet(qs) {
      var i :| 0 <= i < |ps| && ps[i].key == k;
      assert ps[i] in qs;
    }
  }

  lemma KeySetSnoc<K, V>(ps: seq<Pair<K, V>>)
    requires ps != []
    ensures var n := |ps| - 1; KeySet(ps) == KeySet(ps[..n]) + {ps[n].key}
  {
  }

  lemma DistinctSnoc<K, V>(ps: seq<Pair<K, V>>)
    requires ps != []
    ensures var n := |ps| - 1; DistinctKeys(ps) <==> DistinctKeys(ps[..n]) && ps[n].key !in KeySet(ps[..n])
  {
    var n := |ps| - 1;
    var front := ps[..n];
    if DistinctKeys(front) && ps[n].key !in KeySet(front) {
      forall i, j | 0 <= i < j < |ps| ensures ps[i].key != ps[j].key {
        assert ps[i] == front[i];
      }
    }
  }

  lemma {:induction false} KeySetSize<K, V>(ps: seq<Pair<K, V>>)
    ensures |KeySet(ps)| <= |ps|
    ensures DistinctKeys(ps) <==> |KeySet(ps)| == |ps|
  {
    if ps != [] {
      hide KeySet, DistinctKeys;
      KeySetSize(ps[..|ps| - 1]);
      KeySetSnoc(ps);
      DistinctSnoc(ps);
    }
  }

  /** Whether keys are distinct does not depend on the order of the entries. */
  lemma DistinctAnyOrder<K, V>(ps: seq<Pair<K, V>>, qs: seq<Pair<K, V>>)
    requires multiset(ps) == multiset(qs)
    ensures KeySet(ps) == KeySet(qs)
    ensures DistinctKeys(ps) <==> DistinctKeys(qs)
  {
    forall p ensures p in ps <==> p in qs {
      assert p in ps <==> p in multiset(ps);
    }
    KeysOfMembers(ps, qs);
    KeysOfMembers(qs, ps);
    assert |ps| == |multiset(ps)| == |multiset(qs)| == |qs|;
    KeySetSize(ps);
    KeySetSize(qs);
  }

  lemma {:induction false} InsertSorted<K(!new), V>(less: (K, K) -> bool, p: Pair<K, V>, ps: seq<Pair<K, V>>)
    requires OrdersKeys(less, KeySet(ps) + {p.key})
    requires StrictlySorted(less, ps) && p.key !in KeySet(ps)
    ensures StrictlySorted(less, Insert(less, p, ps))
  {
    if ps != [] {
      var q, rest := ps[0], ps[1..];
      assert q.key in KeySet(ps);
      if less(p.key, q.key) {
        forall i | 0 <= i < |ps| ensures less(p.key, ps[i].key) {
          assert ps[i].key in KeySet(ps);
        }
      } else {
        assert forall i :: 0 <= i < |rest| ==> rest[i] == ps[i + 1];
        KeysOfMembers(rest, ps);
        InsertSorted(less, p, rest);
        InsertMultiset(less, p, rest);
        var r := Insert(less, p, rest);
        forall i | 0 <= i < |r| ensures less(q.key, r[i].key) {
          assert r[i] in multiset(r);
          if r[i] != p {
            assert r[i] in rest;
          }
        }
      }
    }
  }

  lemma {:induction false} SortSorted<K(!new), V>(less: (K, K) -> bool, ps: seq<Pair<K, V>>)
    requires OrdersKeys(less, KeySet(ps)) && DistinctKeys(ps)
    ensures StrictlySorted(less, Sort(less, ps))
  {
    if ps != [] {
      var rest := ps[1..];
      assert forall i :: 0 <= i < |rest| ==> rest[i] == ps[i + 1];
      KeysOfMembers(rest, ps);
      SortSorted(less, rest);
      SortMultiset(less, rest);
      assert ps[0].key in KeySet(ps);
      InsertSorted(less, ps[0], Sort(less, rest));
    }
  }

  lemma FirstIsLeast<K(!new), V>(less: (K, K) -> bool, a: seq<Pair<K, V>>, p: Pair<K, V>)
    requires StrictlySorted(less, a) && p in a
    ensures a[0] == p || less(a[0].key, p.key)
    ensures p.key in KeySet(a)
  {
    var i :| 0 <= i < |a| && a[i] == p;
    assert i > 0 ==> less(a[0].key, a[i].key);
    assert a[i].key in KeySet(a);
  }

  lemma SameHead<K(!new), V(!new)>(less: (K, K) -> bool, a: seq<Pair<K, V>>, b: seq<Pair<K, V>>)
    requires a != [] && b != [] && OrdersKeys(less, KeySet(a))
    requires StrictlySorted(less, a) && StrictlySorted(less, b) && a[0] in b && b[0] in a
    ensures a[0] == b[0]
  {
    FirstIsLeast(less, a, b[0]);
    FirstIsLeast(less, b, a[0]);
    assert a[0].key in KeySet(a);
  }

  lemma HeadMember<T>(b: seq<T>)
    ensures b != [] ==> b[0] in b
  {
  }

  /** A strictly sorted list is determined by its members. */
  lemma {:induction false} SortedUnique<K(!new), V(!new)>(less: (K, K) -> bool, a: seq<Pair<K, V>>, b: seq<Pair<K, V>>)
    requires OrdersKeys(less, KeySet(a)) && OrdersKeys(less, KeySet(b))
    requires StrictlySorted(less, a) && StrictlySorted(less, b) && SameMembers(a, b)
    ensures a == b
  {
    if a == [] {
      HeadMember(b);
    } else {
      assert a[0] in b;
      assert b[0] in a;
      SameHead(less, a, b);
      forall p ensures p in a[1..] <==> p in b[1..] {
        TailMembers(less, a, p);
        TailMembers(less, b, p);
      }
      TailKeys(a);
      TailKeys(b);
      SortedUnique(less, a[1..], b[1..]);
      assert a == [a[0]] + a[1..] && b == [b[0]] + b[1..];
    }
  }

  lemma TailMembers<K(!new), V>(less: (K, K) -> bool, a: seq<Pair<K, V>>, p: Pair<K, V>)
    requires a != [] && OrdersKeys(less, KeySet(a)) && StrictlySorted(less, a)
    ensures p in a[1..] <==> p in a && p != a[0]
  {
    if p in a[1..] {
      var i :| 0 <= i < |a| - 1 && a[1..][i] == p;
      assert a[i + 1] == p && less(a[0].key, a[i + 1].key) && a[0].key in KeySet(a);
    }
    if p in a && p != a[0] {
      var i :| 0 <= i < |a| && a[i] == p;
      assert a[1..][i - 1] == p;
    }
  }

  /** Sorting distinct keys gives the same list for every initial order. */
  lemma SortAnyOrder<K(!new), V(!new)>(less: (K, K) -> bool, ps: seq<Pair<K, V>>, qs: seq<Pair<K, V>>)
    requires SameMembers(ps, qs) && DistinctKeys(ps) && DistinctKeys(qs)
    requires OrdersKeys(less, KeySet(ps))
    ensures Sort(less, ps) == Sort(less, qs)
  {
    KeysOfMembers(ps, qs);
    KeysOfMembers(qs, ps);
    SortSorted(less, ps);
    SortSorted(less, qs);
    SortMultiset(less, ps);
    SortMultiset(less, qs);
    forall p ensures p in Sort(less, ps) <==> p in Sort(less, qs) {
      SortMember(less, ps, p);
      SortMember(less, qs, p);
    }
    SortedUnique(less, Sort(less, ps), Sort(less, qs));
  }

  /** Sorting what is strictly sorted changes nothing. */
  lemma {:induction false} SortOfSorted<K, V>(less: (K, K) -> bool, ps: seq<Pair<K, V>>)
    requires StrictlySorted(less, ps)
    ensures Sort(less, ps) == ps
  {
    if ps != [] {
      SortOfSorted(less, ps[1..]);
      assert ps == [ps[0]] + ps[1..];
    }
  }

  lemma SortedDistinct<K(!new), V>(less: (K, K) -> bool, ps: seq<Pair<K, V>>)
    requires StrictlySorted(less, ps) && OrdersKeys(less, KeySet(ps))
    ensures DistinctKeys(ps)
  {
    assert forall i :: 0 <= i < |ps| ==> ps[i].key in KeySet(ps);
  }

  function MapPairs<K, V, L, W>(f: K -> L, g: V -> W, ps: seq<Pair<K, V>>): (r: seq<Pair<L, W>>)
    ensures |r| == |ps|
    ensures forall i :: 0 <= i < |ps| ==> r[i] == Pair(f(ps[i].key), g(ps[i].val))
  {
    if ps == [] then [] else [Pair(f(ps[0].key), g(ps[0].val))] + MapPairs(f, g, ps[1..])
  }

  lemma RemoveAt<T>(s: seq<T>, j: nat)
    requires j < |s|
    ensures multiset(s[..j] + s[j + 1..]) == multiset(s) - multiset{s[j]}
  {
    assert s == s[..j] + ([s[j]] + s[j + 1..]);
  }

  lemma MapPairsAppend<K, V, L, W>(f: K -> L, g: V -> W, ps: seq<Pair<K, V>>, qs: seq<Pair<K, V>>)
    ensures MapPairs(f, g, ps + qs) == MapPairs(f, g, ps) + MapPairs(f, g, qs)
  {
  }

  lemma OneInTheMiddle<T>(a: seq<T>, x: T, b: seq<T>)
    ensures multiset(a + ([x] + b)) == multiset{x} + multiset(a + b)
  {
  }

  lemma SortOne<K, V>(less: (K, K) -> bool, p: Pair<K, V>)
    ensures Sort(less, [p]) == [p]
  {
    assert [p][1..] == [];
  }

  lemma MapOne<K, V, L, W>(f: K -> L, g: V -> W, p: Pair<K, V>)
    ensures MapPairs(f, g, [p]) == [Pair(f(p.key), g(p.val))]
  {
  }

  /** The image of `ps` is the image of entry `j` together with that of the other entries. */
  lemma MapSplit<K, V, L, W>(f: K -> L, g: V -> W, ps: seq<Pair<K, V>>, j: nat)
    requires j < |ps|
    ensures multiset(MapPairs(f, g, ps))
            == multiset{Pair(f(ps[j].key), g(ps[j].val))} + multiset(MapPairs(f, g, ps[..j] + ps[j + 1..]))
  {
    hide MapPairs;
    var a, b := ps[..j], ps[j + 1..];
    assert ps == a + ([ps[j]] + b);
    MapPairsAppend(f, g, a, [ps[j]] + b);
    MapPairsAppend(f, g, [ps[j]], b);
    MapPairsAppend(f, g, a, b);
    MapOne(f, g, ps[j]);
    OneInTheMiddle(MapPairs(f, g, a), Pair(f(ps[j].key), g(ps[j].val)), MapPairs(f, g, b));
  }

  /** Mapping a permuted list gives a permutation of the mapped list. */
  lemma {:induction false} MapPermutes<K, V, L, W>(f: K -> L, g: V -> W, ps: seq<Pair<K, V>>, qs: seq<Pair<K, V>>)
    requires multiset(ps) == multiset(qs)
    ensures multiset(MapPairs(f, g, ps)) == multiset(MapPairs(f, g, qs))
    decreases ps
  {
    if ps == [] {
      assert |multiset(qs)| == |qs| == 0;
    } else {
      assert ps[0] in multiset(qs);
      var j :| 0 <= j < |qs| && qs[j] == ps[0];
      hide MapPairs;
      var rest := qs[..j] + qs[j + 1..];
      RemoveAt(ps, 0);
      RemoveAt(qs, j);
      assert ps[..0] + ps[1..] == ps[1..];
      MapPermutes(f, g, ps[1..], rest);
      MapSplit(f, g, ps, 0);
      MapSplit(f, g, qs, j);
    }
  }

  /** On the keys in `ks`, `f` carries one order to the other. */
  ghost predicate CarriesOrder<K(!new), L>(less: (K, K) -> bool, other: (L, L) -> bool, f: K -> L, ks: set<K>) {
    forall a, b :: a in ks && b in ks ==> other(f(a), f(b)) == less(a, b)
  }

  lemma {:induction false} InsertCommutes<K(!new), V, L, W>(
    less: (K, K) -> bool, other: (L, L) -> bool, f: K -> L, g: V -> W, p: Pair<K, V>, ps: seq<Pair<K, V>>)
    requires CarriesOrder(less, other, f, KeySet(ps) + {p.key})
    ensures Insert(other, Pair(f(p.key), g(p.val)), MapPairs(f, g, ps)) == MapPairs(f, g, Insert(less, p, ps))
  {
    if ps != [] {
      assert ps[0].key in KeySet(ps);
      if !less(p.key, ps[0].key) {
        TailKeys(ps);
        InsertCommutes(less, other, f, g, p, ps[1..]);
        assert MapPairs(f, g, ps)[1..] == MapPairs(f, g, ps[1..]);
      }
    }
  }

  lemma TailKeys<K, V>(ps: seq<Pair<K, V>>)
    requires ps != []
    ensures KeySet(ps) == KeySet(ps[1..]) + {ps[0].key}
  {
    assert forall i :: 0 <= i < |ps| - 1 ==> ps[1..][i] == ps[i + 1];
    forall k | k in KeySet(ps) ensures k in KeySet(ps[1..]) + {ps[0].key} {
      var i :| 0 <= i < |ps| && ps[i].key == k;
      assert i > 0 ==> ps[1..][i - 1].key == k;
    }
    KeysOfMembers(ps[1..], ps);
  }

  /** Renaming keys along an order-preserving map commutes with sorting. */
  lemma {:induction false} SortCommutes<K(!new), V, L, W>(
    less: (K, K) -> bool, other: (L, L) -> bool, f: K -> L, g: V -> W, ps: seq<Pair<K, V>>)
    requires CarriesOrder(less, other, f, KeySet(ps))
    ensures Sort(other, MapPairs(f, g, ps)) == MapPairs(f, g, Sort(less, ps))
  {
    if ps != [] {
      TailKeys(ps);
      SortCommutes(less, other, f, g, ps[1..]);
      SortMultiset(less, ps[1..]);
      InsertCommutes(less, other, f, g, ps[0], Sort(less, ps[1..]));
      assert MapPairs(f, g, ps)[1..] == MapPairs(f, g, ps[1..]);
    }
  }
}
