/** Stable index sorts: the permutation that Python's `sorted` and NumPy's `argsort` build. */
module Sorting {

  /** A listing of `0..n` in some order. */
  ghost predicate IsPermutation(p: seq<nat>, n: nat)
  {
    && |p| == n
    && (forall i {:trigger p[i]} :: 0 <= i < n ==> p[i] < n)
    && (forall i, j {:trigger p[i], p[j]} :: 0 <= i < j < n ==> p[i] != p[j])
    && (forall v: nat {:trigger v in p} :: v < n ==> v in p)
  }

  ghost predicate SortedBy(keys: seq<int>, p: seq<nat>)
  {
    && (forall i {:trigger p[i]} :: 0 <= i < |p| ==> p[i] < |keys|)
    && (forall i, j {:trigger p[i], p[j]} :: 0 <= i < j < |p| ==> keys[p[i]] <= keys[p[j]])
  }

  function InsertIndex(keys: seq<int>, p: seq<nat>, x: nat): (r: seq<nat>)
    requires x < |keys| && forall i :: 0 <= i < |p| ==> p[i] < |keys|
    ensures |r| == |p| + 1
    ensures forall i :: 0 <= i < |r| ==> r[i] < |keys|
  {
    if p == [] || keys[p[|p| - 1]] <= keys[x] then p + [x]
    else InsertIndex(keys, p[..|p| - 1], x) + [p[|p| - 1]]
  }

  /** Indices of `keys` in nondecreasing key order, ties in index order. */
  function Argsort(keys: seq<int>, n: nat): (p: seq<nat>)
    requires n <= |keys|
    ensures |p| == n
    ensures forall i :: 0 <= i < n ==> p[i] < |keys|
  {
    if n == 0 then [] else InsertIndex(keys, Argsort(keys, n - 1), n - 1)
  }

  lemma {:induction false} InsertIndexMembers(keys: seq<int>, p: seq<nat>, x: nat)
    requires x < |keys| && forall i :: 0 <= i < |p| ==> p[i] < |keys|
    ensures forall v: nat {:trigger v in InsertIndex(keys, p, x)} :: v in InsertIndex(keys, p, x) <==> v in p || v == x
  {
    if p != [] && keys[p[|p| - 1]] > keys[x] {
      var init, last := p[..|p| - 1], p[|p| - 1];
      InsertIndexMembers(keys, init, x);
      assert p == init + [last];
      assert InsertIndex(keys, p, x) == InsertIndex(keys, init, x) + [last];
    }
  }

  lemma AppendSorted(keys: seq<int>, p: seq<nat>, last: nat)
    requires last < |keys| && SortedBy(keys, p)
    requires forall v {:trigger v in p} :: v in p ==> v < |keys| && keys[v] <= keys[last]
    ensures SortedBy(keys, p + [last])
  {
    assert forall i {:trigger p[i]} :: 0 <= i < |p| ==> p[i] in p;
  }

  lemma InitSorted(keys: seq<int>, p: seq<nat>, v: nat)
    requires p != [] && SortedBy(keys, p) && v in p[..|p| - 1]
    ensures v < |keys| && keys[v] <= keys[p[|p| - 1]]
  {
    var j :| 0 <= j < |p| - 1 && p[j] == v;
  }

  lemma LastSorted(keys: seq<int>, p: seq<nat>, v: nat)
    requires p != [] && SortedBy(keys, p) && v in p
    ensures v < |keys| && keys[v] <= keys[p[|p| - 1]]
  {
    var j :| 0 <= j < |p| && p[j] == v;
  }

  lemma {:induction false} InsertIndexOk(keys: seq<int>, p: seq<nat>, x: nat)
    requires x < |keys| && SortedBy(keys, p)
    ensures var r := InsertIndex(keys, p, x);
            && SortedBy(keys, r)
            && (forall v: nat {:trigger v in r} :: v in r <==> v in p || v == x)
  {
    InsertIndexMembers(keys, p, x);
    if p == [] || keys[p[|p| - 1]] <= keys[x] {
      forall v | v in p
        ensures v < |keys| && keys[v] <= keys[x]
      {
        LastSorted(keys, p, v);
      }
      AppendSorted(keys, p, x);
    } else {
      var init, last := p[..|p| - 1], p[|p| - 1];
      assert SortedBy(keys, init);
      InsertIndexOk(keys, init, x);
      forall v | v in InsertIndex(keys, init, x)
        ensures v < |keys| && keys[v] <= keys[last]
      {
        if v in init {
          InitSorted(keys, p, v);
        }
      }
      AppendSorted(keys, InsertIndex(keys, init, x), last);
    }
  }

  ghost predicate AllDistinct(p: seq<nat>)
  {
    forall i, j {:trigger p[i], p[j]} :: 0 <= i < j < |p| ==> p[i] != p[j]
  }

  lemma AppendDistinct(p: seq<nat>, last: nat)
    requires AllDistinct(p) && last !in p
    ensures AllDistinct(p + [last])
  {
    assert forall i {:trigger p[i]} :: 0 <= i < |p| ==> p[i] in p;
  }

  lemma {:induction false} InsertIndexDistinct(keys: seq<int>, p: seq<nat>, x: nat)
    requires x < |keys| && (forall i :: 0 <= i < |p| ==> p[i] < |keys|) && x !in p && AllDistinct(p)
    ensures AllDistinct(InsertIndex(keys, p, x))
  {
    if p == [] || keys[p[|p| - 1]] <= keys[x] {
      AppendDistinct(p, x);
    } else {
      var init, last := p[..|p| - 1], p[|p| - 1];
      assert last !in init && AllDistinct(init);
      assert p == init + [last];
      InsertIndexDistinct(keys, init, x);
      InsertIndexMembers(keys, init, x);
      AppendDistinct(InsertIndex(keys, init, x), last);
    }
  }

  lemma {:induction false} ArgsortParts(keys: seq<int>, n: nat)
    requires n <= |keys|
    ensures forall v: nat {:trigger v in Argsort(keys, n)} :: v in Argsort(keys, n) <==> v < n
    ensures AllDistinct(Argsort(keys, n)) && SortedBy(keys, Argsort(keys, n))
  {
    if n > 0 {
      ArgsortParts(keys, n - 1);
      hide InsertIndex, AllDistinct, SortedBy;
      InsertIndexOk(keys, Argsort(keys, n - 1), n - 1);
      InsertIndexDistinct(keys, Argsort(keys, n - 1), n - 1);
    }
  }

  lemma {:induction false} ArgsortOk(keys: seq<int>, n: nat)
    requires n <= |keys|
    ensures IsPermutation(Argsort(keys, n), n) && SortedBy(keys, Argsort(keys, n))
  {
    ArgsortParts(keys, n);
    hide SortedBy;
    var p := Argsort(keys, n);
    hide Argsort;
    assert forall i {:trigger p[i]} :: 0 <= i < n ==> p[i] in p;
  }

  lemma PlaceOf(order: seq<nat>, n: nat, i: nat) returns (j: nat)
    requires IsPermutation(order, n) && i < n
    ensures j < |order| && order[j] == i
  {
    assert i in order;
    j :| 0 <= j < |order| && order[j] == i;
  }

  /** In sorted order, keys that differ from their neighbours all differ. */
  lemma SortedApart(keys: seq<int>, p: seq<nat>, a: nat, b: nat)
    requires SortedBy(keys, p) && a < b < |p| && keys[p[b - 1]] != keys[p[b]]
    ensures keys[p[a]] < keys[p[b]]
  {
    assert keys[p[b - 1]] <= keys[p[b]];
    assert a == b - 1 || keys[p[a]] <= keys[p[b - 1]];
  }

  /** With distinct keys there is one sorted order: any sorted permutation is this one. */
  lemma {:induction false} SortedUnique(keys: seq<int>, p: seq<nat>, q: seq<nat>)
    requires IsPermutation(p, |keys|) && IsPermutation(q, |keys|) && SortedBy(keys, p) && SortedBy(keys, q)
    requires forall i, j {:trigger keys[i], keys[j]} :: 0 <= i < j < |keys| ==> keys[i] != keys[j]
    ensures p == q
  {
    forall k | 0 <= k < |keys|
      ensures p[k] == q[k]
    {
      SortedUniqueAt(keys, p, q, k);
    }
  }

  lemma {:induction false} SortedUniqueAt(keys: seq<int>, p: seq<nat>, q: seq<nat>, k: nat)
    requires IsPermutation(p, |keys|) && IsPermutation(q, |keys|) && SortedBy(keys, p) && SortedBy(keys, q)
    requires forall i, j {:trigger keys[i], keys[j]} :: 0 <= i < j < |keys| ==> keys[i] != keys[j]
    requires k < |keys|
    ensures p[k] == q[k] && forall j :: 0 <= j < k ==> p[j] == q[j]
  {
    forall j | 0 <= j < k
      ensures p[j] == q[j]
    {
      SortedUniqueAt(keys, p, q, j);
    }
    assert p[k] in q && q[k] in p;
    var a :| 0 <= a < |p| && q[a] == p[k];
    var b :| 0 <= b < |p| && p[b] == q[k];
    assert a >= k && b >= k;
  }
}
