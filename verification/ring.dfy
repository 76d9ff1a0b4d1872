/** Arithmetic of a closed line of sections: the sections (or stations) 0..n-1 with 0 following n-1. */
module Ring {

  function Next(n: nat, i: nat): (r: nat)
    requires i < n
    ensures r < n
  {
    if i >= n - 1 then 0 else i + 1
  }

  function Prev(n: nat, i: nat): (r: nat)
    requires i < n
    ensures r < n
    ensures Next(n, r) == i
  {
    if i == 0 then n - 1 else i - 1
  }

  /** Walking one section back undoes walking one section on. */
  lemma PrevOfNext(n: nat, i: nat)
    requires i < n
    ensures Prev(n, Next(n, i)) == i
  {}

  /** The place d sections behind k. */
  function Back(n: nat, k: nat, d: nat): (r: nat)
    requires k < n && d <= n
    ensures r < n
    ensures d > 0 ==> Next(n, r) == Back(n, k, d - 1)
    ensures 0 < d < n ==> r != k
  {
    if d <= k then k - d else k + n - d
  }

  /** How far j lies behind k. */
  lemma DistanceBack(n: nat, k: nat, j: nat) returns (d: nat)
    requires k < n && j < n && j != k
    ensures 0 < d < n && Back(n, k, d) == j
  {
    d := if j < k then k - j else k + n - j;
  }

  /** Between an occupied place and a free one after it there is an occupied place right before a free one. */
  lemma {:induction false} OccupiedThenFree(b: seq<bool>, i: nat, j: nat) returns (k: nat)
    requires i < j < |b| && b[i] && !b[j]
    ensures i <= k < j && b[k] && !b[k + 1]
    decreases j - i
  {
    if b[i + 1] {
      k := OccupiedThenFree(b, i + 1, j);
    } else {
      k := i;
    }
  }

  /** A ring that is neither full nor empty has an occupied place with a free place in front of it. */
  lemma SomewhereToGo(b: seq<bool>) returns (k: nat)
    requires true in b && false in b
    ensures k < |b| && b[k] && !b[Next(|b|, k)]
  {
    var n := |b|;
    var i :| 0 <= i < n && b[i];
    var j :| 0 <= j < n && !b[j];
    if b[0] {
      k := OccupiedThenFree(b, 0, j);
    } else if b[n - 1] {
      k := n - 1;
    } else {
      k := OccupiedThenFree(b, i, n - 1);
    }
  }

  /** Fewer than n entries cannot name all of 0..n-1. */
  lemma SomeoneMissing(n: nat, xs: seq<nat>) returns (k: nat)
    requires |xs| < n
    ensures k < n && k !in xs
  {
    var all, named := Below(n), Names(xs);
    assert |all * named| + |named - all| == |named| && |all * named| + |all - named| == |all|;
    k :| k in all - named;
  }

  /** n or more different entries name all of 0..n-1. */
  lemma NobodyMissing(n: nat, xs: seq<nat>, k: nat)
    requires |xs| >= n && k < n
    requires forall i, j :: 0 <= i < j < |xs| ==> xs[i] != xs[j]
    requires forall i :: 0 <= i < |xs| ==> xs[i] < n
    ensures k in xs
  {
    DifferentNames(xs);
    var all, named := Below(n), Names(xs);
    assert |all * named| + |named - all| == |named| && |all * named| + |all - named| == |all|;
    assert named - all == {};
    assert all - named == {};
    assert k in all;
  }

  lemma {:induction false} DifferentNames(xs: seq<nat>)
    requires forall i, j :: 0 <= i < j < |xs| ==> xs[i] != xs[j]
    ensures |Names(xs)| == |xs|
  {
    if xs != [] {
      DifferentNames(xs[..|xs| - 1]);
    }
  }

  ghost function Below(n: nat): (s: set<nat>)
    ensures |s| == n && forall i: nat :: i in s <==> i < n
  {
    if n == 0 then {} else Below(n - 1) + {n - 1}
  }

  ghost function Names(xs: seq<nat>): (s: set<nat>)
    ensures |s| <= |xs| && forall x :: x in s <==> x in xs
  {
    if xs == [] then {} else
      var m := |xs| - 1;
      assert xs == xs[..m] + [xs[m]];
      Names(xs[..m]) + {xs[m]}
  }
}
