/** Small facts about sequences that several components share. */
module Seqs {

  function Concat<T>(xss: seq<seq<T>>): seq<T> {
    if xss == [] then [] else xss[0] + Concat(xss[1..])
  }

  lemma ConcatCons<T>(x: seq<T>, a: seq<seq<T>>)
    ensures Concat([x] + a) == x + Concat(a)
    ensures a == [] ==> Concat([x]) == x
  {
    assert ([x] + a)[1..] == a;
  }

  lemma ConcatFront<T>(x: seq<T>, a: seq<seq<T>>, rest: seq<T>, later: seq<T>, all: seq<T>)
    requires Concat(a) + rest == later && all == x + later
    ensures Concat([x] + a) + rest == all
  {
    ConcatCons(x, a);
  }

  /** No element occurs twice. */
  ghost predicate Distinct<T>(xs: seq<T>) {
    forall i, j :: 0 <= i < j < |xs| ==> xs[i] != xs[j]
  }

  /** A list without one of its members. */
  function Unlinked<T(==)>(xs: seq<T>, x: T): seq<T> {
    if xs == [] then []
    else if xs[0] == x then xs[1..]
    else [xs[0]] + Unlinked(xs[1..], x)
  }

  lemma {:induction false} UnlinkedOf<T>(xs: seq<T>, x: T)
    requires Distinct(xs)
    ensures Distinct(Unlinked(xs, x))
    ensures forall y :: y in Unlinked(xs, x) <==> y in xs && y != x
  {
    if xs != [] {
      UnlinkedOf(xs[1..], x);
      assert xs == [xs[0]] + xs[1..];
      assert xs[0] !in xs[1..];
    }
  }

  /** The others keep their order. */
  lemma {:induction false} UnlinkedAt<T>(xs: seq<T>, x: T, i: nat)
    requires i <= |xs| && x !in xs[..i] && (i < |xs| ==> xs[i] == x)
    ensures Unlinked(xs, x) == xs[..i] + if i < |xs| then xs[i + 1..] else []
  {
    if i > 0 {
      assert xs[0] in xs[..i] && xs[1..][..i - 1] == xs[..i][1..];
      UnlinkedAt(xs[1..], x, i - 1);
    }
  }

  lemma UnlinkedAbsent<T>(xs: seq<T>, x: T)
    requires x !in xs
    ensures Unlinked(xs, x) == xs
  {
    assert xs[..|xs|] == xs;
    UnlinkedAt(xs, x, |xs|);
  }

  lemma DistinctCons<T>(x: T, xs: seq<T>)
    requires Distinct(xs) && x !in xs
    ensures Distinct([x] + xs)
  {
  }

  lemma {:induction false} DistinctSize<T>(xs: seq<T>)
    requires Distinct(xs)
    ensures |set x | x in xs| == |xs|
  {
    if xs != [] {
      var rest := xs[..|xs| - 1];
      DistinctSize(rest);
      assert (set x | x in xs) == (set x | x in rest) + {xs[|xs| - 1]};
    }
  }

  lemma {:induction false} SeqSize<T>(xs: seq<T>)
    ensures |set x | x in xs| <= |xs|
  {
    if xs != [] {
      var rest := xs[..|xs| - 1];
      SeqSize(rest);
      assert (set x | x in xs) == (set x | x in rest) + {xs[|xs| - 1]};
    }
  }

  lemma SubsetOfEqualSize<T>(a: set<T>, b: set<T>)
    requires a <= b && |a| >= |b|
    ensures a == b
  {
    if x :| x in b && x !in a {
      assert a <= b - {x};
      SubsetSize(a, b - {x});
      assert false;
    }
  }

  lemma {:induction false} SubsetSize<T>(a: set<T>, b: set<T>)
    requires a <= b
    ensures |a| <= |b|
    decreases a
  {
    if x :| x in a {
      SubsetSize(a - {x}, b - {x});
    }
  }

  ghost function Range(n: nat): (r: set<nat>)
    ensures |r| == n
    ensures forall k :: k in r <==> 0 <= k < n
  {
    if n == 0 then {} else Range(n - 1) + {n - 1}
  }

  /** Distinct numbers below n are at most n. */
  lemma DistinctBelow(xs: seq<nat>, n: nat)
    requires Distinct(xs)
    requires forall i :: 0 <= i < |xs| ==> xs[i] < n
    ensures |xs| <= n
  {
    DistinctSize(xs);
    var members := set x | x in xs;
    SubsetSize(members, Range(n));
  }
}
