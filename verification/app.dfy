/**
  The page's session state: the latest analysis result, the busy flag and the
  four statistics shown in the progress panel, and how one analysis moves
  them forward. The analysis itself is done by the engine, which is not part
  of this model: its outcome is the argument of `HandleAnalyze`.
*/
module App {
  import opened Wrappers
  import opened CompatibilityChecker

  function Sum(xs: seq<real>): real {
    if |xs| == 0 then 0.0 else xs[0] + Sum(xs[1..])
  }

  /** The mean of the scores, 0 for no scores (the initial average). */
  function Mean(xs: seq<real>): (m: real)
    ensures m * |xs| as real == Sum(xs)
    ensures |xs| == 0 ==> m == 0.0
  {
    if |xs| == 0 then 0.0 else Sum(xs) / |xs| as real
  }

  lemma {:induction false} SumAppend(xs: seq<real>, x: real)
    ensures Sum(xs + [x]) == Sum(xs) + x
  {
    if |xs| > 0 {
      assert (xs + [x])[1..] == xs[1..] + [x];
      SumAppend(xs[1..], x);
    }
  }

  lemma {:induction false} SumBounds(xs: seq<real>)
    requires forall i :: 0 <= i < |xs| ==> 0.0 <= xs[i] <= 100.0
    ensures 0.0 <= Sum(xs) <= 100.0 * |xs| as real
  {
    if |xs| > 0 {
      assert forall i :: 1 <= i < |xs| ==> xs[i] == xs[1..][i - 1];
      SumBounds(xs[1..]);
    }
  }

  /** With every score in [0, 100], so is their mean. */
  lemma MeanBounds(xs: seq<real>)
    requires forall i :: 0 <= i < |xs| ==> 0.0 <= xs[i] <= 100.0
    ensures 0.0 <= Mean(xs) <= 100.0
  {
    SumBounds(xs);
  }

  /** The update of the average in `handleAnalyze` after one more scan: the first
      score becomes the average, and later the average moves towards the new
      score without passing it. */
  function NextAverage(average: real, totalScans: nat, score: real): (next: real)
    ensures totalScans == 0 ==> next == score
    ensures 1 <= totalScans && average <= score ==> average <= next <= score
    ensures 1 <= totalScans && score <= average ==> score <= next <= average
    ensures 1 <= totalScans ==> (next == average <==> score == average)
  {
    var n := totalScans as real;
    var step := (score - average) / (n + 1.0);
    assert step * (n + 1.0) == score - average;
    assert (average * n + score) / (n + 1.0) == average + step;
    (average * n + score) / (n + 1.0)
  }

  /** The update keeps the average equal to the mean of all scores so far. */
  lemma NextAverageIsMean(xs: seq<real>, score: real)
    ensures NextAverage(Mean(xs), |xs|, score) == Mean(xs + [score])
  {
    SumAppend(xs, score);
  }

  /** How the engine's call ended: with a result, or by throwing. */
  datatype Analysis = Completed(result: CompatibilityResult) | Threw(error: string)

  class Session {
    var result: Option<CompatibilityResult>
    var isAnalyzing: bool
    var totalScans: nat
    var averageScore: real
    var currentScore: real
    var issuesFound: nat
    /** The scores of all successful analyses, oldest first. */
    ghost var scores: seq<real>

    ghost predicate Valid()
      reads this
    {
      && totalScans == |scores|
      && averageScore == Mean(scores)
      && (result.None? <==> scores == [])
      && (result.None? ==> currentScore == 0.0 && issuesFound == 0)
      && (result.Some? ==>
            && currentScore == result.value.score
            && issuesFound == |result.value.issues|
            && scores[|scores| - 1] == result.value.score)
    }

    /** The page mounts the progress panel only once there is a result, and
        then at least one scan has completed: the panel's first-scan prompt,
        which needs zero scans, never shows on the page. */
    lemma ShownPanelHasScans()
      requires Valid()
      ensures result.Some? ==> totalScans >= 1
    {
    }

    constructor ()
      ensures Valid()
      ensures result == None && !isAnalyzing
      ensures totalScans == 0 && averageScore == 0.0 && currentScore == 0.0 && issuesFound == 0
      ensures scores == []
    {
      result := None;
      isAnalyzing := false;
      totalScans, averageScore, currentScore, issuesFound := 0, 0.0, 0.0, 0;
      scores := [];
    }

    /** One click's analysis: on success the result and all four statistics
        move forward; when the engine throws, nothing but the busy flag changes. */
    method HandleAnalyze(analysis: Analysis)
      requires Valid()
      modifies this
      ensures Valid() && !isAnalyzing
      ensures analysis.Completed? ==>
                && result == Some(analysis.result)
                && totalScans == old(totalScans) + 1
                && averageScore == NextAverage(old(averageScore), old(totalScans), analysis.result.score)
                && currentScore == analysis.result.score
                && issuesFound == |analysis.result.issues|
                && scores == old(scores) + [analysis.result.score]
      ensures analysis.Threw? ==>
                && result == old(result)
                && totalScans == old(totalScans)
                && averageScore == old(averageScore)
                && currentScore == old(currentScore)
                && issuesFound == old(issuesFound)
                && scores == old(scores)
      ensures (forall i :: 0 <= i < |scores| ==> 0.0 <= scores[i] <= 100.0) ==> 0.0 <= averageScore <= 100.0
    {
      isAnalyzing := true;
      match analysis {
        case Completed(r) =>
          result := Some(r);
          var newTotalScans := totalScans + 1;
          var newAverageScore := NextAverage(averageScore, totalScans, r.score);
          NextAverageIsMean(scores, r.score);
          totalScans, averageScore := newTotalScans, newAverageScore;
          currentScore, issuesFound := r.score, |r.issues|;
          scores := scores + [r.score];
        case Threw(_) =>
      }
      isAnalyzing := false;
      if forall i :: 0 <= i < |scores| ==> 0.0 <= scores[i] <= 100.0 {
        MeanBounds(scores);
      }
    }
  }
}
