/**
 * The suitability ranking: the classifier scores every crop class, and the
 * two best-scoring classes are kept, best first (app_logic.py, steps 5-6).
 * The classifier itself is not modelled; its output is a sequence of
 * (class name, score) pairs in class order.
 */
module Ranking {
  /** One crop class and the classifier's probability for it. */
  datatype ClassScore = ClassScore(name: string, score: real)

  function Min(a: int, b: int): int { if a <= b then a else b }

  /**
   * idx picks the top two classes of scored, best first: min(2, n)
   * distinct positions, in non-increasing score order, and no class left
   * out scores above the last one picked. Ties may be broken either way.
   */
  predicate IsTopTwo(scored: seq<ClassScore>, idx: seq<nat>)
  {
    && |idx| == Min(2, |scored|)
    && (forall j :: 0 <= j < |idx| ==> idx[j] < |scored|)
    && (|idx| == 2 ==> idx[0] != idx[1] && scored[idx[0]].score >= scored[idx[1]].score)
    && (|idx| > 0 ==>
          forall k :: 0 <= k < |scored| && k !in idx ==> scored[k].score <= scored[idx[|idx| - 1]].score)
  }

  /**
   * The positions of the two best scores, best first: the model of
   * `predictions_proba.argsort()[-2:][::-1]`. Earlier classes win ties here,
   * but nothing else in the model depends on that choice.
   */
  function TopTwo(scored: seq<ClassScore>): (idx: seq<nat>)
    ensures IsTopTwo(scored, idx)
  {
    var n := |scored|;
    if n == 0 then []
    else if n == 1 then [0]
    else if n == 2 then (if scored[1].score > scored[0].score then [1, 0] else [0, 1])
    else
      var prev := TopTwo(scored[..n - 1]);
      TopTwoExtended(scored, prev);
      Extend(scored, prev)
  }

  /** The top two of scored, from the top two of all but its last class. */
  function Extend(scored: seq<ClassScore>, prev: seq<nat>): seq<nat>
    requires |scored| >= 3 && |prev| == 2 && prev[0] < |scored| && prev[1] < |scored|
  {
    var n, s := |scored|, scored[|scored| - 1].score;
    if s > scored[prev[0]].score then [n - 1, prev[0]]
    else if s > scored[prev[1]].score then [prev[0], n - 1]
    else prev
  }

  lemma TopTwoExtended(scored: seq<ClassScore>, prev: seq<nat>)
    requires |scored| >= 3 && IsTopTwo(scored[..|scored| - 1], prev)
    ensures IsTopTwo(scored, Extend(scored, prev))
  {
    var n, init := |scored|, scored[..|scored| - 1];
    assert forall k :: 0 <= k < n - 1 ==> init[k] == scored[k];
    var last := scored[n - 1].score;
    if last > scored[prev[0]].score {
      assert forall k :: 0 <= k < n - 1 && k != prev[0] ==> scored[k].score <= scored[prev[0]].score;
    } else if last > scored[prev[1]].score {
      assert forall k :: 0 <= k < n - 1 && k !in prev ==> scored[k].score <= scored[prev[1]].score;
    }
  }

  /** The (class name, score) pairs at the given positions: `[(classes_[i], proba[i]) for i in idx]`. */
  function Pick(scored: seq<ClassScore>, idx: seq<nat>): (top: seq<ClassScore>)
    requires forall j :: 0 <= j < |idx| ==> idx[j] < |scored|
    ensures |top| == |idx|
    ensures forall j :: 0 <= j < |idx| ==> top[j] == scored[idx[j]]
  {
    seq(|idx|, j requires 0 <= j < |idx| => scored[idx[j]])
  }

  /** top is a best-first selection of the two best classes of scored, for some tie order. */
  ghost predicate IsTopCrops(scored: seq<ClassScore>, top: seq<ClassScore>)
  {
    exists idx :: IsTopTwo(scored, idx) && top == Pick(scored, idx)
  }

  /** The classes at the top-two positions are a top-two selection. */
  lemma PickedAreTopCrops(scored: seq<ClassScore>, idx: seq<nat>)
    requires IsTopTwo(scored, idx)
    ensures IsTopCrops(scored, Pick(scored, idx))
  {
  }

  /**
   * What any top-two selection looks like: min(2, n) entries, each the
   * classifier's own (name, score) pair, best first, with no other class
   * scoring above the last entry.
   */
  lemma TopCropsShape(scored: seq<ClassScore>, top: seq<ClassScore>)
    requires IsTopCrops(scored, top)
    ensures |top| == Min(2, |scored|)
    ensures forall j :: 0 <= j < |top| ==> top[j] in scored
    ensures |top| == 2 ==> top[0].score >= top[1].score
    ensures |top| == 0 <==> scored == []
    ensures forall k :: 0 <= k < |scored| ==> scored[k].score <= top[0].score
    ensures forall k :: 0 <= k < |scored| && scored[k] !in top ==> scored[k].score <= top[|top| - 1].score
  {
    var idx :| IsTopTwo(scored, idx) && top == Pick(scored, idx);
    PickedShape(scored, idx);
  }

  lemma PickedShape(scored: seq<ClassScore>, idx: seq<nat>)
    requires IsTopTwo(scored, idx)
    ensures var top := Pick(scored, idx);
      && (forall k :: 0 <= k < |scored| ==> scored[k].score <= top[0].score)
      && (forall k :: 0 <= k < |scored| && scored[k] !in top ==> scored[k].score <= top[|top| - 1].score)
  {
    if idx != [] {
      TopIsMaximum(scored, idx);
    }
  }

  /** The first position picked holds a maximum score. */
  lemma TopIsMaximum(scored: seq<ClassScore>, idx: seq<nat>)
    requires IsTopTwo(scored, idx) && idx != []
    ensures forall k :: 0 <= k < |scored| ==> scored[k].score <= scored[idx[0]].score
  {
    forall k | 0 <= k < |scored|
      ensures scored[k].score <= scored[idx[0]].score
    {
      if k !in idx {
        assert scored[k].score <= scored[idx[|idx| - 1]].score;
      }
    }
  }

  /** The runner-up of one selection scores no higher than the runner-up of another. */
  lemma RunnerUpBounded(scored: seq<ClassScore>, idx1: seq<nat>, idx2: seq<nat>)
    requires IsTopTwo(scored, idx1) && IsTopTwo(scored, idx2) && |idx1| == 2
    ensures scored[idx2[1]].score <= scored[idx1[1]].score
  {
    if idx2[1] == idx1[0] {
      if idx2[0] in idx1 {
        assert idx2[0] == idx1[1];
      }
    }
  }

  /** All top-two selections agree on the scores they keep, whatever the tie order. */
  lemma TopScoresDetermined(scored: seq<ClassScore>, idx1: seq<nat>, idx2: seq<nat>)
    requires IsTopTwo(scored, idx1) && IsTopTwo(scored, idx2)
    ensures forall j :: 0 <= j < |idx1| ==> scored[idx1[j]].score == scored[idx2[j]].score
  {
    if idx1 != [] {
      TopIsMaximum(scored, idx1);
      TopIsMaximum(scored, idx2);
    }
    if |idx1| == 2 {
      RunnerUpBounded(scored, idx1, idx2);
      RunnerUpBounded(scored, idx2, idx1);
    }
  }
}
