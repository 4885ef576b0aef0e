/** Counting distinct numbers below a bound, ascending lists, and products. */
module Numbers {

  predicate Distinct(xs: seq<nat>) {
    forall i, j :: 0 <= i < j < |xs| ==> xs[i] != xs[j]
  }

  lemma {:induction false} SetBelow(xs: set<nat>, n: nat)
    requires forall x :: x in xs ==> x < n
    ensures |xs| <= n
  {
    if n > 0 {
      SetBelow(xs - {n - 1}, n - 1);
      if n - 1 in xs {
        assert xs == (xs - {n - 1}) + {n - 1};
      } else {
        assert xs == xs - {n - 1};
      }
    } else {
      assert xs == {};
    }
  }

  function Elements(xs: seq<nat>): set<nat> {
    set x | x in xs
  }

  lemma {:induction false} DistinctSize(xs: seq<nat>)
    requires Distinct(xs)
    ensures |Elements(xs)| == |xs|
  {
    if xs != [] {
      var front, last := xs[..|xs| - 1], xs[|xs| - 1];
      DistinctSize(front);
      assert xs == front + [last];
      assert Elements(xs) == Elements(front) + {last};
      assert last !in front;
    }
  }

  /** Pigeonhole: distinct numbers below n are at most n. */
  lemma {:induction false} DistinctBelow(xs: seq<nat>, n: nat)
    requires Distinct(xs) && forall i :: 0 <= i < |xs| ==> xs[i] < n
    ensures |xs| <= n
  {
    DistinctSize(xs);
    SetBelow(Elements(xs), n);
  }

  lemma {:induction false} SetCovers(xs: set<nat>, n: nat)
    requires forall b: nat :: b < n ==> b in xs
    ensures |xs| >= n
  {
    if n > 0 {
      SetCovers(xs - {n - 1}, n - 1);
    }
  }

  /** Distinct numbers below n that leave none out are exactly n. */
  lemma {:induction false} DistinctCovering(xs: seq<nat>, n: nat)
    requires Distinct(xs) && forall i :: 0 <= i < |xs| ==> xs[i] < n
    requires forall b: nat :: b < n ==> b in xs
    ensures |xs| == n
  {
    DistinctBelow(xs, n);
    DistinctSize(xs);
    SetCovers(Elements(xs), n);
  }

  /** With one number below n missing, they are fewer. */
  lemma {:induction false} DistinctBelowWithout(xs: seq<nat>, n: nat, missing: nat)
    requires Distinct(xs) && forall i :: 0 <= i < |xs| ==> xs[i] < n && xs[i] != missing
    requires missing < n
    ensures |xs| < n
  {
    var all := xs + [missing];
    assert forall i, j :: 0 <= i < j < |all| ==> all[i] != all[j];
    DistinctBelow(all, n);
  }

  predicate Ascending(xs: seq<nat>) {
    forall i, j :: 0 <= i < j < |xs| ==> xs[i] < xs[j]
  }

  lemma {:induction false} NoElements(xs: seq<nat>)
    ensures xs == [] <==> Elements(xs) == {}
  {
    assert xs != [] ==> xs[0] in Elements(xs);
  }

  /** A set has one ascending list. */
  lemma {:induction false} AscendingIsUnique(a: seq<nat>, b: seq<nat>)
    requires Ascending(a) && Ascending(b) && Elements(a) == Elements(b)
    ensures a == b
  {
    NoElements(a);
    NoElements(b);
    if a != [] {
      assert a[0] in Elements(a) && a[0] in Elements(b);
      assert b[0] in Elements(b) && b[0] in Elements(a);
      assert a[0] == b[0];
      forall x: nat
        ensures x in a[1..] <==> x in b[1..]
      {
        assert x in a[1..] <==> x in Elements(a) && x != a[0];
        assert x in b[1..] <==> x in Elements(b) && x != b[0];
      }
      AscendingIsUnique(a[1..], b[1..]);
    }
  }

  lemma {:induction false} MulMonotone(a: nat, x: nat, y: nat)
    requires x <= y
    ensures a * x <= a * y
  {
  }
}
