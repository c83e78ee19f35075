/**
 * std::map<std::string, V> as an association list kept in strictly increasing key order.
 * Iterating a std::map visits keys in that order, and a strictly ordered list is the one
 * canonical representation of its contents (see Extensionality).
 */
module OrderedMaps {
  import opened Strings
  import opened Wrappers

  predicate Ordered<V>(es: seq<(string, V)>)
  {
    forall i, j :: 0 <= i < j < |es| ==> Less(es[i].0, es[j].0)
  }

  /** map::find */
  function Lookup<V>(es: seq<(string, V)>, k: string): Option<V>
  {
    if |es| == 0 then None
    else if es[0].0 == k then Some(es[0].1)
    else Lookup(es[1..], k)
  }

  predicate Contains<V>(es: seq<(string, V)>, k: string)
  {
    Lookup(es, k).Some?
  }

  /** The mapped value, or a default when the key is absent. */
  function GetOr<V>(es: seq<(string, V)>, k: string, d: V): V
  {
    match Lookup(es, k)
    case Some(v) => v
    case None => d
  }

  function Keys<V>(es: seq<(string, V)>): (ks: seq<string>)
    ensures |ks| == |es| && forall i :: 0 <= i < |es| ==> ks[i] == es[i].0
  {
    if |es| == 0 then [] else [es[0].0] + Keys(es[1..])
  }

  /** map[k] = v: replaces the value of k, or inserts k at its place in the order. */
  function Upsert<V>(es: seq<(string, V)>, k: string, v: V): seq<(string, V)>
  {
    if |es| == 0 then [(k, v)]
    else if es[0].0 == k then [(k, v)] + es[1..]
    else if Less(k, es[0].0) then [(k, v)] + es
    else [es[0]] + Upsert(es[1..], k, v)
  }

  /** map[k].push_back(x) on a map of lists: an absent key starts with an empty list. */
  function Append<X>(es: seq<(string, seq<X>)>, k: string, x: X): seq<(string, seq<X>)>
  {
    Upsert(es, k, GetOr(es, k, []) + [x])
  }

  /** map[k] used only for reading: an absent key is inserted with an empty list. */
  function Touch<X>(es: seq<(string, seq<X>)>, k: string): seq<(string, seq<X>)>
  {
    if Contains(es, k) then es else Upsert(es, k, [])
  }

  lemma {:induction false} LookupUpsert<V>(es: seq<(string, V)>, k: string, v: V, q: string)
    ensures Lookup(Upsert(es, k, v), q) == if q == k then Some(v) else Lookup(es, q)
    decreases |es|
  {
    if |es| > 0 && es[0].0 != k && !Less(k, es[0].0) {
      LookupUpsert(es[1..], k, v, q);
    }
  }

  /** Upsert changes the value at k and nothing else. */
  lemma UpsertSpec<V>(es: seq<(string, V)>, k: string, v: V)
    ensures Lookup(Upsert(es, k, v), k) == Some(v)
    ensures forall q :: q != k ==> Lookup(Upsert(es, k, v), q) == Lookup(es, q)
  {
    LookupUpsert(es, k, v, k);
    forall q | q != k
      ensures Lookup(Upsert(es, k, v), q) == Lookup(es, q)
    {
      LookupUpsert(es, k, v, q);
    }
  }

  /** A second map[k] = v overwrites the first: only the last value written stays. */
  lemma {:induction false} UpsertTwice<V>(es: seq<(string, V)>, k: string, v: V, w: V)
    ensures Upsert(Upsert(es, k, v), k, w) == Upsert(es, k, w)
    decreases |es|
  {
    if |es| == 0 {
    } else if es[0].0 == k {
      assert Upsert(es, k, v)[1..] == es[1..];
    } else if Less(k, es[0].0) {
      assert Upsert(es, k, v)[1..] == es;
    } else {
      UpsertTwice(es[1..], k, v, w);
      assert Upsert(es, k, v)[1..] == Upsert(es[1..], k, v);
    }
  }

  /** Every key of an ordered list is at least its first key. */
  lemma {:induction false} LookupBelowFirst<V>(es: seq<(string, V)>, k: string)
    requires Ordered(es) && |es| > 0 && Less(k, es[0].0)
    ensures Lookup(es, k) == None
    decreases |es|
  {
    LessIrreflexive(k);
    if |es| > 1 {
      LessTransitive(k, es[0].0, es[1].0);
      LookupBelowFirst(es[1..], k);
    }
  }

  lemma {:induction false} LookupSomeIn<V>(es: seq<(string, V)>, k: string)
    requires Lookup(es, k).Some?
    ensures exists i :: 0 <= i < |es| && es[i].0 == k
    decreases |es|
  {
    if es[0].0 != k {
      LookupSomeIn(es[1..], k);
      var i :| 0 <= i < |es[1..]| && es[1..][i].0 == k;
      assert es[i + 1].0 == k;
    }
  }

  /** The entry at position i of an ordered list is what Lookup finds for its key. */
  lemma {:induction false} LookupAt<V>(es: seq<(string, V)>, i: nat)
    requires Ordered(es) && i < |es|
    ensures Lookup(es, es[i].0) == Some(es[i].1)
    decreases i
  {
    if i > 0 {
      LessIrreflexive(es[i].0);
      assert Less(es[0].0, es[i].0);
      LookupAt(es[1..], i - 1);
    }
  }

  /** An entry whose key is below every key of an ordered list can be put in front of it. */
  lemma ConsOrdered<V>(e: (string, V), es: seq<(string, V)>)
    requires Ordered(es) && forall j :: 0 <= j < |es| ==> Less(e.0, es[j].0)
    ensures Ordered([e] + es)
  {
    var r := [e] + es;
    forall i, j | 0 <= i < j < |r|
      ensures Less(r[i].0, r[j].0)
    {
      assert r[j] == es[j - 1];
      if i > 0 {
        assert r[i] == es[i - 1];
      }
    }
  }

  /** A bound below k and below every key of es is below every key of Upsert(es, k, v). */
  lemma {:induction false} UpsertAbove<V>(es: seq<(string, V)>, k: string, v: V, x: string)
    requires Less(x, k) && forall i :: 0 <= i < |es| ==> Less(x, es[i].0)
    ensures forall j :: 0 <= j < |Upsert(es, k, v)| ==> Less(x, Upsert(es, k, v)[j].0)
    decreases |es|
  {
    var r := Upsert(es, k, v);
    if |es| == 0 {
    } else if es[0].0 == k {
      assert r == [(k, v)] + es[1..];
      forall j | 0 < j < |r|
        ensures Less(x, r[j].0)
      {
        assert r[j] == es[j];
      }
    } else if Less(k, es[0].0) {
      assert r == [(k, v)] + es;
      forall j | 0 < j < |r|
        ensures Less(x, r[j].0)
      {
        assert r[j] == es[j - 1];
      }
    } else {
      UpsertAbove(es[1..], k, v, x);
      var t := Upsert(es[1..], k, v);
      assert r == [es[0]] + t;
      forall j | 0 < j < |r|
        ensures Less(x, r[j].0)
      {
        assert r[j] == t[j - 1];
      }
    }
  }

  /** Upsert keeps the list strictly ordered. */
  lemma {:induction false} UpsertOrdered<V>(es: seq<(string, V)>, k: string, v: V)
    requires Ordered(es)
    ensures Ordered(Upsert(es, k, v))
    decreases |es|
  {
    if |es| == 0 {
    } else if es[0].0 == k {
      assert Upsert(es, k, v) == [(k, v)] + es[1..];
      ConsOrdered((k, v), es[1..]);
    } else if Less(k, es[0].0) {
      forall j | 0 <= j < |es|
        ensures Less(k, es[j].0)
      {
        if j > 0 {
          LessTransitive(k, es[0].0, es[j].0);
        }
      }
      ConsOrdered((k, v), es);
    } else {
      LessTotal(k, es[0].0);
      UpsertOrdered(es[1..], k, v);
      var t := Upsert(es[1..], k, v);
      forall i | 0 <= i < |es[1..]|
        ensures Less(es[0].0, es[1..][i].0)
      {
        assert es[1..][i] == es[i + 1];
      }
      UpsertAbove(es[1..], k, v, es[0].0);
      ConsOrdered(es[0], t);
      assert Upsert(es, k, v) == [es[0]] + t;
    }
  }

  /** Ordered lists with the same contents are the same list. */
  lemma {:induction false} Extensionality<V>(a: seq<(string, V)>, b: seq<(string, V)>)
    requires Ordered(a) && Ordered(b)
    requires forall k :: Lookup(a, k) == Lookup(b, k)
    ensures a == b
    decreases |a| + |b|
  {
    if |a| == 0 && |b| == 0 {
    } else if |a| == 0 {
      LookupAt(b, 0);
    } else if |b| == 0 {
      LookupAt(a, 0);
    } else {
      var x, y := a[0].0, b[0].0;
      LookupAt(a, 0);
      LookupAt(b, 0);
      LessTotal(x, y);
      if Less(x, y) {
        LookupBelowFirst(b, x);
        assert false;
      } else if Less(y, x) {
        LookupBelowFirst(a, y);
        assert false;
      }
      assert a[0] == b[0];
      forall k
        ensures Lookup(a[1..], k) == Lookup(b[1..], k)
      {
        if k == x {
          if |a| > 1 {
            LookupBelowFirst(a[1..], k);
          }
          if |b| > 1 {
            LookupBelowFirst(b[1..], k);
          }
        } else {
          assert Lookup(a, k) == Lookup(a[1..], k);
          assert Lookup(b, k) == Lookup(b[1..], k);
        }
      }
      Extensionality(a[1..], b[1..]);
      assert a == [a[0]] + a[1..];
      assert b == [b[0]] + b[1..];
    }
  }
}
