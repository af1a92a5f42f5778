/** Copying the values of a Go map into a slice. Go visits a map in an unspecified order, so the
    result is specified as a listing: one entry per key, in some order of the keys. */
module Maps {

  ghost predicate Distinct<K(!new)>(ks: seq<K>) {
    forall i, j :: 0 <= i < j < |ks| ==> ks[i] != ks[j]
  }

  /** `vs` holds the values of `m` in the order of the keys `ks`, which visit every key once. */
  ghost predicate ListsBy<K(!new), V>(vs: seq<V>, ks: seq<K>, m: map<K, V>) {
    && |ks| == |vs|
    && Distinct(ks)
    && (forall k :: k in m <==> k in ks)
    && (forall i :: 0 <= i < |ks| ==> ks[i] in m && vs[i] == m[ks[i]])
  }

  /** `vs` lists the values of `m`, one per key, in some order. */
  ghost predicate IsListing<K(!new), V>(vs: seq<V>, m: map<K, V>) {
    exists ks :: ListsBy(vs, ks, m)
  }

  /** `for _, v := range m { vs = append(vs, v) }`. */
  method ListValues<K(!new), V>(m: map<K, V>) returns (vs: seq<V>)
    ensures IsListing(vs, m)
  {
    vs := [];
    ghost var ks: seq<K> := [];
    var rest := m.Keys;
    while rest != {}
      invariant rest <= m.Keys
      invariant |ks| == |vs| && Distinct(ks)
      invariant forall k :: k in ks <==> k in m && k !in rest
      invariant forall i :: 0 <= i < |ks| ==> ks[i] in m && vs[i] == m[ks[i]]
      decreases rest
    {
      var k :| k in rest;
      vs := vs + [m[k]];
      ks := ks + [k];
      rest := rest - {k};
    }
    assert ListsBy(vs, ks, m);
  }

  /** A listing has one entry per key, and holds exactly the map's values. */
  lemma ListingContents<K(!new), V>(vs: seq<V>, m: map<K, V>)
    requires IsListing(vs, m)
    ensures |vs| == |m|
    ensures forall v :: v in vs <==> v in m.Values
  {
    var ks :| ListsBy(vs, ks, m);
    DistinctCard(ks, m.Keys);
    assert |m.Keys| == |m|;
    forall v | v in vs ensures v in m.Values {
      var i :| 0 <= i < |vs| && vs[i] == v;
      assert ks[i] in m && m[ks[i]] == v;
    }
    forall v | v in m.Values ensures v in vs {
      var k :| k in m && m[k] == v;
      assert k in ks;
      var i :| 0 <= i < |ks| && ks[i] == k;
      assert vs[i] == v;
    }
  }

  lemma {:induction false} DistinctCard<K(!new)>(ks: seq<K>, s: set<K>)
    requires Distinct(ks)
    requires forall k :: k in s <==> k in ks
    ensures |s| == |ks|
    decreases |ks|
  {
    if ks != [] {
      var last := ks[|ks| - 1];
      var p := ks[..|ks| - 1];
      assert forall k :: k in s - {last} <==> k in p by {
        forall k ensures k in s - {last} <==> k in p {
          if k in p {
            var n :| 0 <= n < |p| && p[n] == k;
            assert ks[n] == k;
          }
          if k in ks && k != last {
            var n :| 0 <= n < |ks| && ks[n] == k;
            assert n < |ks| - 1;
            assert p[n] == k;
          }
        }
      }
      DistinctCard(p, s - {last});
    } else {
      assert s == {};
    }
  }

  /** Two listings of one map differ only in order: the map fixes the multiset of the result. */
  lemma ListingsArePermutations<K(!new), V>(v1: seq<V>, v2: seq<V>, m: map<K, V>)
    requires IsListing(v1, m) && IsListing(v2, m)
    ensures multiset(v1) == multiset(v2)
  {
    var ks1 :| ListsBy(v1, ks1, m);
    var ks2 :| ListsBy(v2, ks2, m);
    ListingsByArePermutations(v1, ks1, v2, ks2, m);
  }

  /** Removing one key's entry from a listing lists the map without that key. */
  lemma DropAt<K(!new), V>(vs: seq<V>, ks: seq<K>, m: map<K, V>, j: nat)
    requires ListsBy(vs, ks, m) && j < |ks|
    ensures ListsBy(vs[..j] + vs[j + 1..], ks[..j] + ks[j + 1..], m - {ks[j]})
  {
    var vs', ks', m' := vs[..j] + vs[j + 1..], ks[..j] + ks[j + 1..], m - {ks[j]};
    assert |ks'| == |vs'|;
    assert forall n :: 0 <= n < |ks'| ==> ks'[n] == ks[if n < j then n else n + 1];
    assert forall n :: 0 <= n < |vs'| ==> vs'[n] == vs[if n < j then n else n + 1];
    assert Distinct(ks');
    forall a ensures a in m' <==> a in ks' {
      if a in m' {
        var n :| 0 <= n < |ks| && ks[n] == a;
        assert n != j;
        if n < j { assert ks'[n] == a; } else { assert ks'[n - 1] == a; }
      }
    }
  }

  lemma {:induction false} ListingsByArePermutations<K(!new), V>(v1: seq<V>, ks1: seq<K>, v2: seq<V>, ks2: seq<K>, m: map<K, V>)
    requires ListsBy(v1, ks1, m) && ListsBy(v2, ks2, m)
    ensures multiset(v1) == multiset(v2)
    decreases |ks1|
  {
    if ks1 == [] {
      DistinctCard(ks1, m.Keys);
      DistinctCard(ks2, m.Keys);
    } else {
      var k := ks1[0];
      assert k in ks2;
      var j :| 0 <= j < |ks2| && ks2[j] == k;
      DropAt(v1, ks1, m, 0);
      DropAt(v2, ks2, m, j);
      assert v1[..0] + v1[1..] == v1[1..] && ks1[..0] + ks1[1..] == ks1[1..];
      ListingsByArePermutations(v1[1..], ks1[1..], v2[..j] + v2[j + 1..], ks2[..j] + ks2[j + 1..], m - {k});
      assert v1[0] == m[k] == v2[j];
      MultisetSplice(v1, v2, j);
    }
  }

  lemma MultisetSplice<V>(v1: seq<V>, v2: seq<V>, j: nat)
    requires 0 < |v1| && j < |v2| && v1[0] == v2[j]
    requires multiset(v1[1..]) == multiset(v2[..j] + v2[j + 1..])
    ensures multiset(v1) == multiset(v2)
  {
    assert v1 == [v1[0]] + v1[1..];
    assert v2 == v2[..j] + [v2[j]] + v2[j + 1..];
  }
}
