/**
 * PHP arrays as association lists in insertion order: the primary-key map
 * ordinal => column of the create-table generators and the column maps keyed
 * by name of the column differ. Assigning to an existing key keeps its
 * position, `unset` removes the entry, and `ksort` reorders the entries by key.
 */
module PhpArray {
  import opened Text

  /** `$a[$k] ?? null` */
  function Lookup<K(==), V>(a: seq<(K, V)>, k: K): Option<V>
  {
    if a == [] then None
    else if a[0].0 == k then Some(a[0].1)
    else Lookup(a[1..], k)
  }

  /** No key occurs twice, which holds of every PHP array. */
  predicate DistinctKeys<K(==), V>(a: seq<(K, V)>)
  {
    forall i, j :: 0 <= i < j < |a| ==> a[i].0 != a[j].0
  }

  /** Keys strictly ascending, the order ksort leaves. */
  predicate Sorted<V>(a: seq<(int, V)>)
  {
    forall i, j :: 0 <= i < j < |a| ==> a[i].0 < a[j].0
  }

  /** `$a[$k] = $v`: an existing key keeps its place and takes the new value; a new key goes last. */
  function Put<K(==), V>(a: seq<(K, V)>, k: K, v: V): (r: seq<(K, V)>)
    ensures |r| == |a| || |r| == |a| + 1
  {
    if a == [] then [(k, v)]
    else if a[0].0 == k then [(k, v)] + a[1..]
    else [a[0]] + Put(a[1..], k, v)
  }

  /** After an assignment the key holds the new value and every other key is untouched. */
  lemma {:induction false} PutLookup<K, V>(a: seq<(K, V)>, k: K, v: V, j: K)
    ensures Lookup(Put(a, k, v), j) == if j == k then Some(v) else Lookup(a, j)
  {
    if a != [] && a[0].0 != k {
      PutLookup(a[1..], k, v, j);
      assert Put(a, k, v)[1..] == Put(a[1..], k, v);
    }
  }

  /** A key is present exactly when some entry carries it. */
  lemma {:induction false} LookupSome<K, V>(a: seq<(K, V)>, k: K)
    ensures Lookup(a, k).Some? <==> exists i :: 0 <= i < |a| && a[i].0 == k
  {
    if a != [] {
      LookupSome(a[1..], k);
      if Lookup(a[1..], k).Some? {
        var i :| 0 <= i < |a[1..]| && a[1..][i].0 == k;
        assert a[i + 1].0 == k;
      }
      if a[0].0 != k && exists i :: 0 <= i < |a| && a[i].0 == k {
        var i :| 0 <= i < |a| && a[i].0 == k;
        assert a[1..][i - 1].0 == k;
      }
    }
  }

  /** Assignment keeps the keys distinct. */
  lemma {:induction false} PutDistinct<K, V>(a: seq<(K, V)>, k: K, v: V)
    requires DistinctKeys(a)
    ensures DistinctKeys(Put(a, k, v))
  {
    if a != [] && a[0].0 != k {
      PutDistinct(a[1..], k, v);
      var t := Put(a[1..], k, v);
      forall i | 0 <= i < |t|
        ensures t[i].0 != a[0].0
      {
        PutLookup(a[1..], k, v, a[0].0);
        LookupSome(a[1..], a[0].0);
        LookupSome(t, a[0].0);
      }
    }
  }

  /** `unset($a[$k])`: the entry with key k, if any, is removed and the others keep their order. */
  function Unset<K(==), V>(a: seq<(K, V)>, k: K): (r: seq<(K, V)>)
    ensures |r| <= |a|
  {
    if a == [] then []
    else if a[0].0 == k then Unset(a[1..], k)
    else [a[0]] + Unset(a[1..], k)
  }

  /** After unset the key is absent and every other key is untouched. */
  lemma {:induction false} UnsetLookup<K, V>(a: seq<(K, V)>, k: K, j: K)
    ensures Lookup(Unset(a, k), j) == if j == k then None else Lookup(a, j)
  {
    if a != [] {
      UnsetLookup(a[1..], k, j);
      if a[0].0 != k {
        assert Unset(a, k)[1..] == Unset(a[1..], k);
      }
    }
  }

  /** Inserting into a sorted array: in key order, replacing the entry with the same key. */
  function Insert<V>(a: seq<(int, V)>, k: int, v: V): (r: seq<(int, V)>)
  {
    if a == [] then [(k, v)]
    else if a[0].0 == k then [(k, v)] + a[1..]
    else if k < a[0].0 then [(k, v)] + a
    else [a[0]] + Insert(a[1..], k, v)
  }

  /** Every key of an inserted array is the new key or an old one. */
  lemma {:induction false} InsertKeys<V>(a: seq<(int, V)>, k: int, v: V, i: nat)
    requires i < |Insert(a, k, v)|
    ensures Insert(a, k, v)[i].0 == k || exists j :: 0 <= j < |a| && a[j].0 == Insert(a, k, v)[i].0
  {
    if a != [] && a[0].0 != k && k >= a[0].0 && i > 0 {
      InsertKeys(a[1..], k, v, i - 1);
      assert Insert(a, k, v)[i] == Insert(a[1..], k, v)[i - 1];
      if Insert(a, k, v)[i].0 != k {
        var j :| 0 <= j < |a[1..]| && a[1..][j].0 == Insert(a, k, v)[i].0;
        assert a[j + 1].0 == Insert(a, k, v)[i].0;
      }
    } else if a != [] && a[0].0 == k && i > 0 {
      assert a[i].0 == Insert(a, k, v)[i].0;
    } else if a != [] && k < a[0].0 && i > 0 {
      assert a[i - 1].0 == Insert(a, k, v)[i].0;
    }
  }

  lemma {:induction false} InsertSorted<V>(a: seq<(int, V)>, k: int, v: V)
    requires Sorted(a)
    ensures Sorted(Insert(a, k, v))
  {
    if a != [] && a[0].0 != k && k >= a[0].0 {
      InsertSorted(a[1..], k, v);
      var r := Insert(a, k, v);
      forall j | 1 <= j < |r|
        ensures a[0].0 < r[j].0
      {
        InsertKeys(a[1..], k, v, j - 1);
        assert r[j] == Insert(a[1..], k, v)[j - 1];
      }
    }
  }

  lemma {:induction false} InsertLookup<V>(a: seq<(int, V)>, k: int, v: V, j: int)
    ensures Lookup(Insert(a, k, v), j) == if j == k then Some(v) else Lookup(a, j)
  {
    if a != [] && a[0].0 != k && k >= a[0].0 {
      InsertLookup(a[1..], k, v, j);
      assert Insert(a, k, v)[1..] == Insert(a[1..], k, v);
    } else if a != [] && a[0].0 != k {
      assert Insert(a, k, v)[1..] == a;
    }
  }

  /** `ksort`: the entries re-ordered by ascending key. */
  function KSort<V>(a: seq<(int, V)>): (r: seq<(int, V)>)
  {
    if a == [] then [] else Insert(KSort(a[..|a| - 1]), a[|a| - 1].0, a[|a| - 1].1)
  }

  /** The first lookup of a key in an extended array. */
  lemma {:induction false} LookupSnoc<K, V>(a: seq<(K, V)>, e: (K, V), j: K)
    ensures Lookup(a + [e], j) == if Lookup(a, j).Some? then Lookup(a, j) else if j == e.0 then Some(e.1) else None
  {
    if a != [] {
      assert (a + [e])[1..] == a[1..] + [e];
      LookupSnoc(a[1..], e, j);
    }
  }

  /** ksort leaves the keys ascending and, on a PHP array, every key with its own value. */
  lemma {:induction false} KSortSpec<V>(a: seq<(int, V)>)
    requires DistinctKeys(a)
    ensures Sorted(KSort(a))
    ensures forall j :: Lookup(KSort(a), j) == Lookup(a, j)
    decreases |a|
  {
    if a != [] {
      var p, e := a[..|a| - 1], a[|a| - 1];
      assert a == p + [e];
      assert DistinctKeys(p);
      KSortSpec(p);
      InsertSorted(KSort(p), e.0, e.1);
      assert Lookup(p, e.0).None? by {
        LookupSome(p, e.0);
      }
      forall j
        ensures Lookup(KSort(a), j) == Lookup(a, j)
      {
        InsertLookup(KSort(p), e.0, e.1, j);
        LookupSnoc(p, e, j);
      }
    }
  }

  /** Two sorted arrays that agree on every key are the same array. */
  lemma {:induction false} SortedUnique<V>(a: seq<(int, V)>, b: seq<(int, V)>)
    requires Sorted(a) && Sorted(b)
    requires forall j :: Lookup(a, j) == Lookup(b, j)
    ensures a == b
    decreases |a| + |b|
  {
    if a != [] {
      assert Lookup(b, a[0].0) == Some(a[0].1);
    }
    if b != [] {
      assert Lookup(a, b[0].0) == Some(b[0].1);
    }
    if a != [] && b != [] {
      SortedHead(a);
      SortedHead(b);
      assert a[0] == b[0];
      forall j
        ensures Lookup(a[1..], j) == Lookup(b[1..], j)
      {
        if j == a[0].0 {
          assert Lookup(a[1..], j).None? && Lookup(b[1..], j).None?;
        } else {
          assert Lookup(a, j) == Lookup(a[1..], j) && Lookup(b, j) == Lookup(b[1..], j);
        }
      }
      SortedUnique(a[1..], b[1..]);
      assert a == [a[0]] + a[1..] && b == [b[0]] + b[1..];
    }
  }

  /** In a sorted array no key at or below the first occurs after it. */
  lemma SortedHead<V>(a: seq<(int, V)>)
    requires Sorted(a) && a != []
    ensures forall j :: j <= a[0].0 ==> Lookup(a[1..], j).None?
    ensures forall j :: j < a[0].0 ==> Lookup(a, j).None?
  {
    forall j | j <= a[0].0
      ensures Lookup(a[1..], j).None?
    {
      LookupSome(a[1..], j);
    }
  }
}
