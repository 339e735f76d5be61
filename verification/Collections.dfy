/**
 Facts about finite maps and sequences that several components need: a sum over the values of a map,
 independent of the order in which its keys are visited, and set-size reasoning.
 */
module Collections {

  /** The sum of `f` over the values of `m`. */
  ghost function SumBy<K, V>(m: map<K, V>, f: V -> nat): nat
    decreases |m|
  {
    if m == map[] then 0
    else
      var k :| k in m;
      assert |m - {k}| < |m| by { SmallerWithout(m, k); }
      f(m[k]) + SumBy(m - {k}, f)
  }

  lemma SmallerWithout<K, V>(m: map<K, V>, k: K)
    requires k in m
    ensures |m - {k}| == |m| - 1
  {
    assert (m - {k}).Keys == m.Keys - {k};
    assert |m.Keys - {k}| == |m.Keys| - 1;
  }

  /** The key picked first does not matter: any key of the map can be split off the sum. */
  lemma {:induction false} SumSplit<K, V>(m: map<K, V>, f: V -> nat, k: K)
    requires k in m
    ensures SumBy(m, f) == f(m[k]) + SumBy(m - {k}, f)
    decreases |m|
  {
    var j :| j in m && SumBy(m, f) == f(m[j]) + SumBy(m - {j}, f);
    if j != k {
      SmallerWithout(m, j);
      SmallerWithout(m, k);
      SumSplit(m - {j}, f, k);
      SumSplit(m - {k}, f, j);
      assert m - {j} - {k} == m - {k} - {j};
    }
  }

  /** Writing one key moves the sum by that key's share alone. */
  lemma SumUpdate<K, V>(m: map<K, V>, f: V -> nat, k: K, v: V)
    ensures SumBy(m[k := v], f) == f(v) + SumBy(m - {k}, f)
    ensures SumBy(m[k := v], f) + (if k in m then f(m[k]) else 0) == SumBy(m, f) + f(v)
  {
    SumSplit(m[k := v], f, k);
    assert m[k := v] - {k} == m - {k};
    if k in m {
      SumSplit(m, f, k);
    } else {
      assert m - {k} == m;
    }
  }

  /** A sum whose every share is bounded is bounded by the size of the map. */
  lemma {:induction false} SumBounded<K, V>(m: map<K, V>, f: V -> nat, bound: nat)
    requires forall k :: k in m ==> f(m[k]) <= bound
    ensures SumBy(m, f) <= |m| * bound
    decreases |m|
  {
    if m != map[] {
      var k :| k in m;
      SumSplit(m, f, k);
      SmallerWithout(m, k);
      SumBounded(m - {k}, f, bound);
      OneMore(|m| - 1, bound);
    }
  }

  lemma OneMore(n: nat, bound: nat)
    ensures (n + 1) * bound == n * bound + bound
  {}

  /** A sum is zero exactly when every share is. */
  lemma {:induction false} SumZero<K, V>(m: map<K, V>, f: V -> nat)
    ensures SumBy(m, f) == 0 <==> forall k :: k in m ==> f(m[k]) == 0
    decreases |m|
  {
    if m != map[] {
      var j :| j in m && SumBy(m, f) == f(m[j]) + SumBy(m - {j}, f);
      SmallerWithout(m, j);
      SumZero(m - {j}, f);
      forall k | k in m && f(m[k]) != 0
        ensures SumBy(m, f) != 0
      {
        if k != j {
          assert k in m - {j} && (m - {j})[k] == m[k];
        }
      }
      if SumBy(m, f) != 0 {
        if f(m[j]) == 0 {
          var k :| k in m - {j} && f((m - {j})[k]) != 0;
          assert k in m && f(m[k]) != 0;
        }
      }
    }
  }

  /** A map contained in another of the same size is that map. */
  lemma SubmapOfSameSize<K, V>(small: map<K, V>, big: map<K, V>)
    requires Within(small, big)
    requires |small| == |big|
    ensures small == big
  {
    SubsetOfSameSize(small.Keys, big.Keys);
  }

  lemma {:induction false} SubsetOfSameSize<T>(small: set<T>, big: set<T>)
    requires small <= big && |small| == |big|
    ensures small == big
  {
    assert |big - small| == |big| - |small|;
  }

  lemma {:induction false} SizeOfSubset<T>(small: set<T>, big: set<T>)
    requires small <= big
    ensures |small| <= |big|
  {
    assert big == small + (big - small);
  }

  ghost predicate Within<K, V>(small: map<K, V>, big: map<K, V>) {
    forall k :: k in small ==> k in big && small[k] == big[k]
  }

  /** One more entry of `big` joins `small`. */
  lemma WithinOneMore<K, V>(small: map<K, V>, big: map<K, V>, k: K)
    requires Within(small, big) && k in big && k !in small
    ensures Within(small[k := big[k]], big)
    ensures |small[k := big[k]]| == |small| + 1 <= |big|
  {
    var more := small[k := big[k]];
    assert more.Keys == small.Keys + {k};
    assert more.Keys <= big.Keys;
    SizeOfSubset(more.Keys, big.Keys);
  }

  lemma HasMember<T>(s: set<T>) returns (x: T)
    requires s != {}
    ensures x in s
  {
    x :| x in s;
  }

  lemma SumOfNothing<K, V>(m: map<K, V>, f: V -> nat)
    ensures m == map[] ==> SumBy(m, f) == 0
  {}

  /** Dropping keys never raises a sum. */
  lemma {:induction false} SumOfRest<K, V>(m: map<K, V>, f: V -> nat, gone: set<K>)
    ensures SumBy(m - gone, f) <= SumBy(m, f)
    decreases |m|
  {
    hide SumBy;
    if m == map[] {
      assert m - gone == m;
    } else {
      var k :| k in m;
      var rest := m - {k};
      SumSplit(m, f, k);
      SmallerWithout(m, k);
      SumOfRest(rest, f, gone);
      if k in gone {
        assert m - gone == rest - gone;
      } else {
        SumSplit(m - gone, f, k);
        assert m - gone - {k} == rest - gone;
      }
    }
  }

  // ---- totals of exact numbers ----

  /** The total of `f` over the values of `m`. */
  ghost function Total<K, V>(m: map<K, V>, f: V -> real): real
    decreases |m|
  {
    if m == map[] then 0.0
    else
      var k :| k in m;
      assert |m - {k}| < |m| by { SmallerWithout(m, k); }
      f(m[k]) + Total(m - {k}, f)
  }

  lemma {:induction false} TotalSplit<K, V>(m: map<K, V>, f: V -> real, k: K)
    requires k in m
    ensures Total(m, f) == f(m[k]) + Total(m - {k}, f)
    decreases |m|
  {
    var j :| j in m && Total(m, f) == f(m[j]) + Total(m - {j}, f);
    if j != k {
      SmallerWithout(m, j);
      SmallerWithout(m, k);
      TotalSplit(m - {j}, f, k);
      TotalSplit(m - {k}, f, j);
      assert m - {j} - {k} == m - {k} - {j};
    }
  }

  function Only<K, V>(m: map<K, V>, keys: set<K>): map<K, V> {
    map k | k in m && k in keys :: m[k]
  }

  /** A map cut in two by its keys: the sizes and the totals of the parts add up. */
  lemma {:induction false} TotalOfParts<K, V>(m: map<K, V>, f: V -> real, keys: set<K>)
    ensures Total(m, f) == Total(Only(m, keys), f) + Total(m - keys, f)
    ensures |m| == |Only(m, keys)| + |m - keys|
    decreases |m|
  {
    hide Total;
    var part := Only(m, keys);
    if m == map[] {
      assert part == m && m - keys == m;
      TotalOfNothing(m, f);
    } else {
      var k :| k in m;
      TotalOfParts(m - {k}, f, keys);
      PartsOneMore(m, f, keys, k);
    }
  }

  lemma PartsOneMore<K, V>(m: map<K, V>, f: V -> real, keys: set<K>, k: K)
    requires k in m
    ensures Total(m, f) - Total(m - {k}, f)
            == Total(Only(m, keys), f) + Total(m - keys, f)
             - Total(Only(m - {k}, keys), f) - Total(m - {k} - keys, f)
    ensures |m| - |m - {k}| == |Only(m, keys)| + |m - keys| - |Only(m - {k}, keys)| - |m - {k} - keys|
  {
    hide Total;
    TotalSplit(m, f, k);
    SmallerWithout(m, k);
    if k in keys {
      InPart(m, keys, k);
      TotalSplit(Only(m, keys), f, k);
      SmallerWithout(Only(m, keys), k);
    } else {
      OutOfPart(m, keys, k);
      TotalSplit(m - keys, f, k);
      SmallerWithout(m - keys, k);
    }
  }

  lemma InPart<K, V>(m: map<K, V>, keys: set<K>, k: K)
    requires k in m && k in keys
    ensures k in Only(m, keys) && Only(m - {k}, keys) == Only(m, keys) - {k} && m - {k} - keys == m - keys
  {}

  lemma OutOfPart<K, V>(m: map<K, V>, keys: set<K>, k: K)
    requires k in m && k !in keys
    ensures k in m - keys && Only(m - {k}, keys) == Only(m, keys) && m - {k} - keys == m - keys - {k}
  {}

  lemma TotalOfNothing<K, V>(m: map<K, V>, f: V -> real)
    ensures m == map[] ==> Total(m, f) == 0.0
  {}
}
