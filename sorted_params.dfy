/**
  The `SortedDictionary<string, string>` that carries request parameters:
  an association list kept in strictly ascending key order, with `Add`
  failing (the C# method throws) when the key is already present.
 */
module SortedParams {
  import opened Wrappers
  import opened Strings

  type Params = seq<(string, string)>

  /** Keys strictly ascending, hence also unique. */
  predicate Sorted(ps: Params)
  {
    forall i, j :: 0 <= i < j < |ps| ==> Less(ps[i].0, ps[j].0)
  }

  function Keys(ps: Params): set<string>
  {
    set i | 0 <= i < |ps| :: ps[i].0
  }

  /** The dictionary indexer: the value stored under `k`, if any. */
  function Lookup(ps: Params, k: string): Option<string>
  {
    if ps == [] then None
    else if ps[0].0 == k then Some(ps[0].1)
    else Lookup(ps[1..], k)
  }

  lemma {:induction false} LookupKeys(ps: Params, k: string)
    ensures Lookup(ps, k).Some? <==> k in Keys(ps)
  {
    if ps != [] {
      LookupKeys(ps[1..], k);
      assert Keys(ps) == {ps[0].0} + Keys(ps[1..]) by {
        forall x | x in Keys(ps) ensures x in {ps[0].0} + Keys(ps[1..]) {
          var i :| 0 <= i < |ps| && ps[i].0 == x;
          if i > 0 { assert ps[1..][i - 1].0 == x; }
        }
      }
    }
  }

  lemma {:induction false} LookupFound(ps: Params, i: nat)
    requires Sorted(ps) && i < |ps|
    ensures Lookup(ps, ps[i].0) == Some(ps[i].1)
  {
    if i > 0 {
      LessIrreflexive(ps[0].0);
      LookupFound(ps[1..], i - 1);
    }
  }

  /** In a sorted list every key after the first is greater than the first. */
  lemma HeadIsLeast(ps: Params, k: string)
    requires Sorted(ps) && ps != [] && Less(k, ps[0].0)
    ensures k !in Keys(ps)
  {
    if k in Keys(ps) {
      var i :| 0 <= i < |ps| && ps[i].0 == k;
      if i == 0 {
        LessIrreflexive(k);
      } else {
        LessAsymmetric(k, ps[0].0);
      }
    }
  }

  lemma TailKeys(ps: Params)
    requires ps != []
    ensures Keys(ps) == {ps[0].0} + Keys(ps[1..])
  {
    forall x | x in Keys(ps) ensures x in {ps[0].0} + Keys(ps[1..]) {
      var i :| 0 <= i < |ps| && ps[i].0 == x;
      if i > 0 { assert ps[1..][i - 1].0 == x; }
    }
    forall x | x in Keys(ps[1..]) ensures x in Keys(ps) {
      var i :| 0 <= i < |ps[1..]| && ps[1..][i].0 == x;
      assert ps[i + 1].0 == x;
    }
  }

  /** `SortedDictionary.Add(k, v)`: None where the C# method throws on an existing key. */
  function Insert(ps: Params, k: string, v: string): (r: Option<Params>)
    requires Sorted(ps)
    ensures r.None? <==> k in Keys(ps)
    ensures r.Some? ==> Sorted(r.value) && Keys(r.value) == Keys(ps) + {k}
    ensures r.Some? ==> forall k' :: Lookup(r.value, k') == if k' == k then Some(v) else Lookup(ps, k')
  {
    if ps == [] then
      assert Keys([(k, v)]) == {k} by { assert [(k, v)][0].0 == k; }
      Some([(k, v)])
    else if ps[0].0 == k then
      TailKeys(ps);
      None
    else if Less(k, ps[0].0) then
      HeadIsLeast(ps, k);
      TailKeys([(k, v)] + ps);
      assert ([(k, v)] + ps)[1..] == ps;
      InsertFrontSorted(ps, k, v);
      Some([(k, v)] + ps)
    else
      LessTotal(k, ps[0].0);
      TailKeys(ps);
      match Insert(ps[1..], k, v)
      case None => None
      case Some(rest) =>
        var r := [ps[0]] + rest;
        assert r[1..] == rest;
        TailKeys(r);
        InsertAfterSorted(ps, k, rest);
        Some(r)
  }

  lemma InsertFrontSorted(ps: Params, k: string, v: string)
    requires Sorted(ps) && ps != [] && Less(k, ps[0].0)
    ensures Sorted([(k, v)] + ps)
  {
    var r := [(k, v)] + ps;
    forall i, j | 0 <= i < j < |r| ensures Less(r[i].0, r[j].0) {
      if i == 0 && j > 1 {
        LessTransitive(k, ps[0].0, ps[j - 1].0);
      }
    }
  }

  lemma InsertAfterSorted(ps: Params, k: string, rest: Params)
    requires Sorted(ps) && ps != [] && Less(ps[0].0, k)
    requires Sorted(rest) && Keys(rest) == Keys(ps[1..]) + {k}
    ensures Sorted([ps[0]] + rest)
  {
    var r := [ps[0]] + rest;
    forall i, j | 0 <= i < j < |r| ensures Less(r[i].0, r[j].0) {
      if i == 0 {
        var x := rest[j - 1].0;
        assert x in Keys(rest);
        if x != k {
          var m :| 0 <= m < |ps[1..]| && ps[1..][m].0 == x;
          assert ps[m + 1].0 == x;
        }
      }
    }
  }

  lemma {:induction false} LookupSnoc(a: Params, p: (string, string), k: string)
    ensures Lookup(a + [p], k) == if Lookup(a, k).Some? then Lookup(a, k) else if p.0 == k then Some(p.1) else None
  {
    if a == [] {
      assert a + [p] == [p];
    } else {
      assert (a + [p])[1..] == a[1..] + [p];
      LookupSnoc(a[1..], p, k);
    }
  }

  /** Ascending neighbours make the whole list ascending. */
  lemma {:induction false} SortedByNeighbours(ps: Params)
    requires forall i :: 0 <= i < |ps| - 1 ==> Less(ps[i].0, ps[i + 1].0)
    ensures Sorted(ps)
  {
    if |ps| > 1 {
      SortedByNeighbours(ps[1..]);
      forall j | 1 < j < |ps| ensures Less(ps[0].0, ps[j].0) {
        assert Less(ps[1..][0].0, ps[1..][j - 1].0);
        LessTransitive(ps[0].0, ps[1].0, ps[j].0);
      }
      forall i, j | 1 <= i < j < |ps| ensures Less(ps[i].0, ps[j].0) {
        assert ps[i] == ps[1..][i - 1] && ps[j] == ps[1..][j - 1];
      }
    }
  }

  lemma PrefixSorted(ps: Params, n: nat)
    requires Sorted(ps) && n <= |ps|
    ensures Sorted(ps[..n])
  {
  }

  lemma LastKey(add: Params)
    requires Sorted(add) && add != []
    ensures Keys(add) == Keys(add[..|add| - 1]) + {add[|add| - 1].0}
    ensures add[|add| - 1].0 !in Keys(add[..|add| - 1])
  {
    var n := |add| - 1;
    forall x | x in Keys(add[..n]) ensures x in Keys(add) && x != add[n].0 {
      var i :| 0 <= i < n && add[..n][i].0 == x;
      assert add[i].0 == x;
      if x == add[n].0 {
        LessIrreflexive(x);
      }
    }
    forall x | x in Keys(add) ensures x in Keys(add[..n]) + {add[n].0} {
      var i :| 0 <= i < |add| && add[i].0 == x;
      if i < n { assert add[..n][i].0 == x; }
    }
  }

  /**
    A run of `Add` calls, one per entry of `add` in its order: None as soon as
    one key is already present.
   */
  function AddAll(ps: Params, add: Params): (r: Option<Params>)
    requires Sorted(ps) && Sorted(add)
    ensures r.Some? <==> Keys(ps) !! Keys(add)
    ensures r.Some? ==> Sorted(r.value) && Keys(r.value) == Keys(ps) + Keys(add)
    ensures r.Some? ==> forall k :: Lookup(r.value, k) == if k in Keys(add) then Lookup(add, k) else Lookup(ps, k)
    decreases |add|
  {
    if add == [] then
      Some(ps)
    else
      var n := |add| - 1;
      var last := add[n];
      PrefixSorted(add, n);
      LastKey(add);
      assert add[..n] + [last] == add;
      match AddAll(ps, add[..n])
      case None => None
      case Some(q) =>
        var r := Insert(q, last.0, last.1);
        assert r.Some? ==> forall k :: Lookup(r.value, k) == if k in Keys(add) then Lookup(add, k) else Lookup(ps, k) by {
          if r.Some? {
            forall k ensures Lookup(r.value, k) == if k in Keys(add) then Lookup(add, k) else Lookup(ps, k) {
              LookupSnoc(add[..n], last, k);
              LookupKeys(add[..n], k);
            }
          }
        }
        r
  }

  /**
    A sorted list is determined by its lookups: whatever the order in which
    entries were added, equal dictionaries enumerate identically.
   */
  lemma {:induction false} SortedDetermined(a: Params, b: Params)
    requires Sorted(a) && Sorted(b)
    requires forall k :: Lookup(a, k) == Lookup(b, k)
    ensures a == b
  {
    if a != [] {
      assert Lookup(b, a[0].0).Some?;
    }
    if b != [] {
      assert Lookup(a, b[0].0).Some?;
    }
    if a != [] {
      LookupKeys(a, b[0].0);
      LookupKeys(b, a[0].0);
      assert Lookup(b, b[0].0).Some?;
      assert Lookup(a, a[0].0).Some?;
      if a[0].0 != b[0].0 {
        var i :| 0 <= i < |a| && a[i].0 == b[0].0;
        var j :| 0 <= j < |b| && b[j].0 == a[0].0;
        assert Less(a[0].0, b[0].0);
        assert Less(b[0].0, a[0].0);
        LessAsymmetric(a[0].0, b[0].0);
      }
      assert a[0] == b[0];
      forall k ensures Lookup(a[1..], k) == Lookup(b[1..], k) {
        TailLookup(a, k);
        TailLookup(b, k);
      }
      SortedDetermined(a[1..], b[1..]);
      assert a == [a[0]] + a[1..] && b == [b[0]] + b[1..];
    }
  }

  lemma TailLookup(ps: Params, k: string)
    requires Sorted(ps) && ps != []
    ensures Lookup(ps[1..], k) == if k == ps[0].0 then None else Lookup(ps, k)
  {
    if k == ps[0].0 {
      LookupKeys(ps[1..], k);
      if k in Keys(ps[1..]) {
        var i :| 0 <= i < |ps[1..]| && ps[1..][i].0 == k;
        assert Less(ps[0].0, ps[i + 1].0);
        LessIrreflexive(k);
      }
    }
  }

  /** A key the indexer finds is stored at some position, with that value. */
  lemma {:induction false} LookupIndex(ps: Params, k: string)
    requires Lookup(ps, k).Some?
    ensures exists i :: 0 <= i < |ps| && ps[i] == (k, Lookup(ps, k).value)
  {
    if ps[0].0 != k {
      LookupIndex(ps[1..], k);
      var i :| 0 <= i < |ps[1..]| && ps[1..][i] == (k, Lookup(ps, k).value);
      assert ps[i + 1] == (k, Lookup(ps, k).value);
    }
  }
}
