/** Index lists built by "scan the bars left to right and append the ones
    that qualify". Several detectors then look at the last one or two
    entries of such a list; this module proves once what those entries are. */
module OrderedIndices {

  predicate StrictlyIncreasing(xs: seq<nat>) {
    forall k, l :: 0 <= k < l < |xs| ==> xs[k] < xs[l]
  }

  /** `xs` lists exactly the members of S, in increasing order. */
  ghost predicate Enumerates(xs: seq<nat>, S: set<nat>) {
    && StrictlyIncreasing(xs)
    && (forall k :: 0 <= k < |xs| ==> xs[k] in S)
    && (forall i :: i in S ==> i in xs)
  }

  /** i and j are the two largest members of S, with i < j. */
  ghost predicate LastTwo(S: set<nat>, i: nat, j: nat) {
    && i in S && j in S && i < j
    && forall k :: k in S && i < k ==> k == j
  }

  /** S has no two distinct members. */
  ghost predicate AtMostOne(S: set<nat>) {
    forall i, j :: i in S && j in S ==> i == j
  }

  /** The last two entries of an enumeration are the two largest members of
      the set, and the enumeration has fewer than two entries exactly when the
      set has at most one member. */
  lemma LastTwoOfEnumeration(xs: seq<nat>, S: set<nat>)
    requires Enumerates(xs, S)
    ensures |xs| >= 2 ==> LastTwo(S, xs[|xs| - 2], xs[|xs| - 1])
    ensures forall i: nat, j: nat :: LastTwo(S, i, j) ==> |xs| >= 2 && xs[|xs| - 2] == i && xs[|xs| - 1] == j
    ensures |xs| < 2 <==> AtMostOne(S)
  {
    var n := |xs|;
    if n >= 2 {
      forall k | k in S && xs[n - 2] < k
        ensures k == xs[n - 1]
      {
        var p :| 0 <= p < n && xs[p] == k;
      }
      assert xs[0] in S && xs[1] in S && xs[0] != xs[1];
    } else {
      forall i, j | i in S && j in S
        ensures i == j
      {
        assert i in xs && j in xs;
      }
    }
    forall i: nat, j: nat | LastTwo(S, i, j)
      ensures n >= 2 && xs[n - 2] == i && xs[n - 1] == j
    {
      var p :| 0 <= p < n && xs[p] == j;
      var q :| 0 <= q < n && xs[q] == i;
      assert q < p;
      assert xs[n - 1] in S;
      assert xs[n - 2] in S;
    }
  }

  /** Dropping the last entry of an enumeration enumerates the set without
      its largest member. */
  lemma EnumerationDropLast(xs: seq<nat>, S: set<nat>)
    requires Enumerates(xs, S) && xs != []
    ensures Enumerates(xs[..|xs| - 1], S - {xs[|xs| - 1]})
    ensures xs[|xs| - 1] in S
  {
    var x := xs[|xs| - 1];
    var front := xs[..|xs| - 1];
    forall i | i in S - {x}
      ensures i in front
    {
      var p :| 0 <= p < |xs| && xs[p] == i;
      assert front[p] == i;
    }
  }

  /** A scan that visits one more index i, above every member so far, and keeps
      it exactly when it passes the test, still enumerates what passed. */
  lemma EnumerationExtends(earlier: seq<nat>, S: set<nat>, i: nat, keep: bool)
    requires Enumerates(earlier, S) && forall s :: s in S ==> s < i
    ensures Enumerates(earlier + (if keep then [i] else []), if keep then S + {i} else S)
  {
    var xs := earlier + (if keep then [i] else []);
    assert forall k :: 0 <= k < |earlier| ==> xs[k] == earlier[k] && xs[k] < i;
  }
}
