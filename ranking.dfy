/** Ranking of scored entries, as `numpy.argsort(scores)[-k:][::-1]` does it:
    the indices of the `k` highest scores, highest first. */
module Ranking {
  import opened Base

  predicate InRange(ix: seq<nat>, n: nat) {
    forall k :: 0 <= k < |ix| ==> ix[k] < n
  }

  /** Each index in `ix` scores at least as high as the next one. */
  predicate Descending(ix: seq<nat>, scores: seq<real>)
    requires InRange(ix, |scores|)
  {
    forall k :: 0 <= k < |ix| - 1 ==> scores[ix[k]] >= scores[ix[k + 1]]
  }

  /** `a` comes ahead of `b` in numpy's order: a higher score, or the same
      score and a later index. */
  predicate Before(a: nat, b: nat, scores: seq<real>)
    requires a < |scores| && b < |scores|
  {
    scores[a] > scores[b] || (scores[a] == scores[b] && a > b)
  }

  /** Each index in `ix` comes ahead of the next one in numpy's order. */
  predicate Ordered(ix: seq<nat>, scores: seq<real>)
    requires InRange(ix, |scores|)
  {
    forall k :: 0 <= k < |ix| - 1 ==> Before(ix[k], ix[k + 1], scores)
  }

  predicate Increasing(ix: seq<nat>) {
    forall i, j :: 0 <= i < j < |ix| ==> ix[i] < ix[j]
  }

  /** Places index `x` into the list `ix`, in front of the first entry that
      scores strictly lower (so behind the entries that tie with it). */
  function Insert(x: nat, ix: seq<nat>, scores: seq<real>): (r: seq<nat>)
    requires x < |scores| && InRange(ix, |scores|)
    ensures InRange(r, |scores|)
    ensures multiset(r) == multiset(ix) + multiset{x}
    ensures r[0] == x || (ix != [] && r[0] == ix[0])
    decreases |ix|
  {
    if ix == [] || scores[x] > scores[ix[0]] then [x] + ix
    else
      assert ix == [ix[0]] + ix[1..];
      [ix[0]] + Insert(x, ix[1..], scores)
  }

  lemma {:induction false} InsertKeepsOrder(x: nat, ix: seq<nat>, scores: seq<real>)
    requires x < |scores| && InRange(ix, |scores|) && Descending(ix, scores)
    ensures Descending(Insert(x, ix, scores), scores)
    decreases |ix|
  {
    if ix != [] && scores[x] <= scores[ix[0]] {
      InsertKeepsOrder(x, ix[1..], scores);
    }
  }

  lemma {:induction false} InsertKeepsDistinct(x: nat, ix: seq<nat>, scores: seq<real>)
    requires x < |scores| && InRange(ix, |scores|) && Distinct(ix) && x !in ix
    ensures Distinct(Insert(x, ix, scores))
    decreases |ix|
  {
    if ix != [] && scores[x] <= scores[ix[0]] {
      InsertKeepsDistinct(x, ix[1..], scores);
      var rest := Insert(x, ix[1..], scores);
      assert ix[0] !in multiset(rest);
    }
  }

  /** Inserting an index lower than every entry keeps numpy's order: it lands
      behind the entries that tie with it. */
  lemma {:induction false} InsertKeepsTieOrder(x: nat, ix: seq<nat>, scores: seq<real>)
    requires x < |scores| && InRange(ix, |scores|) && Ordered(ix, scores)
    requires forall k :: 0 <= k < |ix| ==> x < ix[k]
    ensures Ordered(Insert(x, ix, scores), scores)
    decreases |ix|
  {
    if ix != [] && scores[x] <= scores[ix[0]] {
      InsertKeepsTieOrder(x, ix[1..], scores);
      var rest := Insert(x, ix[1..], scores);
      assert Before(ix[0], rest[0], scores);
    }
  }

  /** Insertion sort of `ix`, highest score first. */
  function SortDescending(ix: seq<nat>, scores: seq<real>): (r: seq<nat>)
    requires InRange(ix, |scores|)
    ensures InRange(r, |scores|)
    ensures multiset(r) == multiset(ix)
    decreases |ix|
  {
    if ix == [] then []
    else
      assert ix == [ix[0]] + ix[1..];
      Insert(ix[0], SortDescending(ix[1..], scores), scores)
  }

  lemma {:induction false} SortDescendingSorts(ix: seq<nat>, scores: seq<real>)
    requires InRange(ix, |scores|)
    ensures Descending(SortDescending(ix, scores), scores)
    ensures Distinct(ix) ==> Distinct(SortDescending(ix, scores))
    decreases |ix|
  {
    if ix != [] {
      var rest := SortDescending(ix[1..], scores);
      SortDescendingSorts(ix[1..], scores);
      InsertKeepsOrder(ix[0], rest, scores);
      if Distinct(ix) {
        assert ix[0] !in multiset(ix[1..]);
        InsertKeepsDistinct(ix[0], rest, scores);
      }
    }
  }

  /** Sorting a list of increasing indices puts, among equal scores, the later
      index first: the order a stable ascending sort gives once reversed. */
  lemma {:induction false} SortDescendingBreaksTies(ix: seq<nat>, scores: seq<real>)
    requires InRange(ix, |scores|) && Increasing(ix)
    ensures Ordered(SortDescending(ix, scores), scores)
    decreases |ix|
  {
    if ix != [] {
      var rest := SortDescending(ix[1..], scores);
      SortDescendingBreaksTies(ix[1..], scores);
      forall k | 0 <= k < |rest| ensures ix[0] < rest[k] {
        assert rest[k] in multiset(ix[1..]);
      }
      InsertKeepsTieOrder(ix[0], rest, scores);
    }
  }

  /** In an ordered list every entry comes ahead of every later one. */
  lemma {:induction false} OrderedPairwise(ix: seq<nat>, scores: seq<real>, i: nat, j: nat)
    requires InRange(ix, |scores|) && Ordered(ix, scores)
    requires i < j < |ix|
    ensures Before(ix[i], ix[j], scores)
    decreases j - i
  {
    if i + 1 < j {
      OrderedPairwise(ix, scores, i + 1, j);
    }
  }

  /** In a descending list every entry scores at least as high as every later one. */
  lemma {:induction false} DescendingPairwise(ix: seq<nat>, scores: seq<real>, i: nat, j: nat)
    requires InRange(ix, |scores|) && Descending(ix, scores)
    requires i <= j < |ix|
    ensures scores[ix[i]] >= scores[ix[j]]
    decreases j - i
  {
    if i < j {
      DescendingPairwise(ix, scores, i + 1, j);
    }
  }

  /** Every index of `scores`, highest score first. */
  function Ranked(scores: seq<real>): (r: seq<nat>)
    ensures InRange(r, |scores|)
  {
    SortDescending(Range(|scores|), scores)
  }

  lemma RankedIsPermutation(scores: seq<real>)
    ensures |Ranked(scores)| == |scores|
    ensures Distinct(Ranked(scores)) && Descending(Ranked(scores), scores)
    ensures forall i :: 0 <= i < |scores| ==> i in Ranked(scores)
  {
    var all, r := Range(|scores|), Ranked(scores);
    SortDescendingSorts(all, scores);
    assert |r| == |multiset(r)| == |multiset(all)| == |scores|;
    forall i | 0 <= i < |scores| ensures i in r {
      assert all[i] == i;
      assert i in multiset(all);
    }
  }

  /** The number of entries `xs[-k:]` keeps from a list of length `n`. */
  function TopCount(k: int, n: nat): (c: nat)
    ensures c <= n
  {
    n - SliceIndex(-k, n)
  }

  /** `numpy.argsort(scores)[-topK:][::-1]`: the `TopCount` best indices, best
      first; among equal scores the later index comes first, as numpy's stable
      sort of short arrays leaves them. */
  function TopIndices(scores: seq<real>, topK: int): (r: seq<nat>)
    ensures InRange(r, |scores|)
  {
    RankedIsPermutation(scores);
    Ranked(scores)[..TopCount(topK, |scores|)]
  }

  /** The selected indices are distinct, as many as `TopCount` says, best first,
      and no index left out scores higher than one kept. */
  lemma TopIndicesAreTop(scores: seq<real>, topK: int)
    ensures var r := TopIndices(scores, topK);
      && |r| == TopCount(topK, |scores|)
      && Distinct(r) && Descending(r, scores)
      && (forall i, k :: 0 <= i < |scores| && i !in r && 0 <= k < |r| ==> scores[i] <= scores[r[k]])
  {
    var ranked, r := Ranked(scores), TopIndices(scores, topK);
    RankedIsPermutation(scores);
    forall i, k | 0 <= i < |scores| && i !in r && 0 <= k < |r|
      ensures scores[i] <= scores[r[k]]
    {
      assert i in ranked;
      var p :| 0 <= p < |ranked| && ranked[p] == i;
      assert p >= |r|;
      DescendingPairwise(ranked, scores, k, p);
    }
  }

  /** Ties are broken towards the later index: within the selection an index
      scoring the same as the next one is the later of the two, and an index
      left out that ties with a kept one is an earlier index. */
  lemma TopIndicesBreakTies(scores: seq<real>, topK: int)
    ensures var r := TopIndices(scores, topK);
      && (forall k :: 0 <= k < |r| - 1 && scores[r[k]] == scores[r[k + 1]] ==> r[k] > r[k + 1])
      && (forall i, k :: 0 <= i < |scores| && i !in r && 0 <= k < |r| && scores[i] == scores[r[k]] ==> i < r[k])
  {
    var ranked, r := Ranked(scores), TopIndices(scores, topK);
    RankedIsPermutation(scores);
    SortDescendingBreaksTies(Range(|scores|), scores);
    assert r == ranked[..|r|];
    forall i, k | 0 <= i < |scores| && i !in r && 0 <= k < |r| && scores[i] == scores[r[k]]
      ensures i < r[k]
    {
      assert i in ranked;
      var p :| 0 <= p < |ranked| && ranked[p] == i;
      assert p >= |r|;
      OrderedPairwise(ranked, scores, k, p);
    }
  }

  /** Two equal scores and one result: the later index wins. */
  lemma TiesFavourTheLaterIndex()
    ensures TopIndices([0.5, 0.5], 1) == [1]
  {
    var r := TopIndices([0.5, 0.5], 1);
    TopIndicesAreTop([0.5, 0.5], 1);
    TopIndicesBreakTies([0.5, 0.5], 1);
    assert |r| == 1;
  }

  /** How many results a query with `topK` returns: `min(topK, n)` for a positive
      `topK`, every entry for `topK == 0`, and all but the `-topK` lowest for a
      negative one. */
  lemma TopCountCases(k: int, n: nat)
    ensures k >= 1 ==> TopCount(k, n) == Min(k, n)
    ensures k == 0 ==> TopCount(k, n) == n
    ensures k < 0 ==> TopCount(k, n) == Max(n + k, 0)
  {}
}
