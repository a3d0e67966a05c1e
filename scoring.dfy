/**
 * The recall scorer of `renderResults` (src/App.jsx:119-122): the flashed items
 * whose shape equals the guess at the same position, ten points each, added to
 * the running score. Colour plays no part.
 */
module Scoring {
  import opened Items

  /** Points awarded per correctly recalled position. */
  const PointsPerMatch := 10

  /** Position `i` of the history is recalled: a guess exists there and names its shape. */
  predicate MatchesAt(history: seq<FlashItem>, selections: seq<string>, i: nat)
    requires i < |history|
  {
    i < |selections| && history[i].shape == selections[i]
  }

  /**
   * `flashHistory.filter((item, i) => item.shape === selections[i])`. A missing
   * guess reads as `undefined` in the source and never equals a shape name.
   */
  function Matched(history: seq<FlashItem>, selections: seq<string>): (r: seq<FlashItem>)
    ensures |r| <= |history| && |r| <= |selections|
    ensures multiset(r) <= multiset(history)
  {
    if history == [] then []
    else
      var k := |history| - 1;
      var rest := Matched(history[..k], selections);
      assert history == history[..k] + [history[k]];
      if MatchesAt(history, selections, k) then rest + [history[k]] else rest
  }

  /** `correct.length`: how many positions were recalled. */
  function Correct(history: seq<FlashItem>, selections: seq<string>): nat {
    |Matched(history, selections)|
  }

  /** The positions recalled, as an index set: the reference definition of the count. */
  function MatchIndices(history: seq<FlashItem>, selections: seq<string>): set<nat> {
    set i: nat | i < |history| && MatchesAt(history, selections, i)
  }

  /** The filter keeps exactly one item per recalled position. */
  lemma {:induction false} CorrectCountsMatchIndices(history: seq<FlashItem>, selections: seq<string>)
    ensures Correct(history, selections) == |MatchIndices(history, selections)|
  {
    if history != [] {
      var k := |history| - 1;
      var prefix := history[..k];
      CorrectCountsMatchIndices(prefix, selections);
      var before := MatchIndices(prefix, selections);
      assert k !in before;
      if MatchesAt(history, selections, k) {
        assert MatchIndices(history, selections) == before + {k};
      } else {
        assert MatchIndices(history, selections) == before;
      }
    }
  }

  /** `points`: ten per recalled position. */
  function Points(history: seq<FlashItem>, selections: seq<string>): (p: nat)
    ensures p % PointsPerMatch == 0
    ensures p <= PointsPerMatch * |history|
  {
    PointsPerMatch * Correct(history, selections)
  }

  /** `newScore`: the running score plus this stage's points; it never decreases. */
  function NewScore(score: int, history: seq<FlashItem>, selections: seq<string>): (s: int)
    ensures score <= s <= score + PointsPerMatch * |history|
    ensures s - score == PointsPerMatch * |MatchIndices(history, selections)|
  {
    CorrectCountsMatchIndices(history, selections);
    score + Points(history, selections)
  }

  /** Colour is ignored: histories that agree on their shapes score alike. */
  lemma ColorIgnored(h1: seq<FlashItem>, h2: seq<FlashItem>, selections: seq<string>)
    requires ShapesOf(h1) == ShapesOf(h2)
    ensures Correct(h1, selections) == Correct(h2, selections)
  {
    CorrectCountsMatchIndices(h1, selections);
    CorrectCountsMatchIndices(h2, selections);
    assert MatchIndices(h1, selections) == MatchIndices(h2, selections) by {
      forall i: nat | i < |h1| ensures h1[i].shape == h2[i].shape {
        assert ShapesOf(h1)[i] == ShapesOf(h2)[i];
      }
    }
  }

  /** Guessing every shape in order, with any further guesses after, recalls every position. */
  lemma {:induction false} PerfectRecall(history: seq<FlashItem>, selections: seq<string>)
    requires |history| <= |selections|
    requires forall i :: 0 <= i < |history| ==> selections[i] == history[i].shape
    ensures Correct(history, selections) == |history|
  {
    if history != [] {
      PerfectRecall(history[..|history| - 1], selections);
    }
  }

  /** Every recalled position counts: no position beyond the guesses can match. */
  lemma CorrectBoundedByBoth(history: seq<FlashItem>, selections: seq<string>)
    ensures 0 <= Correct(history, selections) <= |history|
    ensures Correct(history, selections) <= |selections|
  {
  }

  /** The example of three flashes and one wrong guess in the middle. */
  lemma TwoOfThree()
    ensures Correct([FlashItem("circle", "red"), FlashItem("square", "blue"), FlashItem("star", "green")],
                    ["circle", "triangle", "star"]) == 2
    ensures Points([FlashItem("circle", "red"), FlashItem("square", "blue"), FlashItem("star", "green")],
                   ["circle", "triangle", "star"]) == 20
  {
    var h := [FlashItem("circle", "red"), FlashItem("square", "blue"), FlashItem("star", "green")];
    var sel := ["circle", "triangle", "star"];
    assert h[..2][..1][..0] == [];
    assert Matched(h[..2][..1], sel) == [h[0]];
    assert Matched(h[..2], sel) == [h[0]];
    assert Matched(h, sel) == [h[0], h[2]];
  }
}
