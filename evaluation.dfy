/** The evaluator of shopping.py: sensitivity and specificity of binary predictions. */
module Evaluation {
  import opened Wrappers

  /** The exceptions `evaluate` can raise: its own ValueError for a length
      mismatch, and the ZeroDivisionError of dividing by an absent class. */
  datatype EvalError = LengthMismatch | ZeroDivision

  /** The pair returned by `evaluate`, as exact rationals. */
  datatype Rates = Rates(sensitivity: real, specificity: real)

  // ---------------------------------------------------------------------------
  // Specification: counts over the prefix-closed structure of the inputs
  // ---------------------------------------------------------------------------

  /** Number of actual positives: labels equal to 1. */
  function Positives(labels: seq<int>): (r: nat)
    ensures r <= |labels|
  {
    if labels == [] then 0
    else Positives(labels[..|labels| - 1]) + (if labels[|labels| - 1] == 1 then 1 else 0)
  }

  /** Number of actual negatives: every label that is not 1, whatever its value. */
  function Negatives(labels: seq<int>): (r: nat)
    ensures r <= |labels|
  {
    if labels == [] then 0
    else Negatives(labels[..|labels| - 1]) + (if labels[|labels| - 1] != 1 then 1 else 0)
  }

  /** Positions where label and prediction are both 1. */
  function TruePositives(labels: seq<int>, predictions: seq<int>): (r: nat)
    requires |labels| == |predictions|
    ensures r <= |labels|
  {
    if labels == [] then 0
    else
      var n := |labels| - 1;
      TruePositives(labels[..n], predictions[..n])
        + (if labels[n] == predictions[n] == 1 then 1 else 0)
  }

  /** Positions where label and prediction are both 0. */
  function TrueNegatives(labels: seq<int>, predictions: seq<int>): (r: nat)
    requires |labels| == |predictions|
    ensures r <= |labels|
  {
    if labels == [] then 0
    else
      var n := |labels| - 1;
      TrueNegatives(labels[..n], predictions[..n])
        + (if labels[n] == predictions[n] == 0 then 1 else 0)
  }

  // ---------------------------------------------------------------------------
  // Properties of the counts
  // ---------------------------------------------------------------------------

  /** Every label is counted exactly once, as a positive or as a negative. */
  lemma {:induction false} PositivesPlusNegatives(labels: seq<int>)
    ensures Positives(labels) + Negatives(labels) == |labels|
  {
    if labels != [] {
      PositivesPlusNegatives(labels[..|labels| - 1]);
    }
  }

  /** The positive count is the multiplicity of 1 among the labels. */
  lemma {:induction false} PositivesIsMultiplicity(labels: seq<int>)
    ensures Positives(labels) == multiset(labels)[1]
    ensures Negatives(labels) == |labels| - multiset(labels)[1]
  {
    if labels != [] {
      var n := |labels| - 1;
      PositivesIsMultiplicity(labels[..n]);
      assert labels == labels[..n] + [labels[n]];
    }
    PositivesPlusNegatives(labels);
  }

  /** A true positive is in particular an actual positive. */
  lemma {:induction false} TruePositivesBound(labels: seq<int>, predictions: seq<int>)
    requires |labels| == |predictions|
    ensures TruePositives(labels, predictions) <= Positives(labels)
  {
    if labels != [] {
      var n := |labels| - 1;
      TruePositivesBound(labels[..n], predictions[..n]);
    }
  }

  /** A true negative (label 0) is in particular an actual negative (label not 1). */
  lemma {:induction false} TrueNegativesBound(labels: seq<int>, predictions: seq<int>)
    requires |labels| == |predictions|
    ensures TrueNegatives(labels, predictions) <= Negatives(labels)
  {
    if labels != [] {
      var n := |labels| - 1;
      TrueNegativesBound(labels[..n], predictions[..n]);
    }
  }

  /** When the predictions are the labels themselves and every label is 0 or 1,
      both counts are complete. */
  lemma {:induction false} PerfectPredictions(labels: seq<int>)
    requires forall i :: 0 <= i < |labels| ==> labels[i] == 0 || labels[i] == 1
    ensures TruePositives(labels, labels) == Positives(labels)
    ensures TrueNegatives(labels, labels) == Negatives(labels)
  {
    if labels != [] {
      PerfectPredictions(labels[..|labels| - 1]);
    }
  }

  /** The indices where label and prediction both equal `v`. */
  ghost function Hits(labels: seq<int>, predictions: seq<int>, v: int): set<nat>
    requires |labels| == |predictions|
  {
    set i: nat | i < |labels| && labels[i] == v && predictions[i] == v
  }

  /** Extending both sequences by one position adds that position to the hits
      exactly when it is one. */
  lemma HitsSnoc(labels: seq<int>, predictions: seq<int>, v: int)
    requires |labels| == |predictions| > 0
    ensures var n := |labels| - 1;
            Hits(labels, predictions, v)
              == Hits(labels[..n], predictions[..n], v)
                 + (if labels[n] == v && predictions[n] == v then {n} else {})
            && n !in Hits(labels[..n], predictions[..n], v)
  {
  }

  /** The true positives are the positions where label and prediction are both 1. */
  lemma {:induction false} TruePositivesAreHits(labels: seq<int>, predictions: seq<int>)
    requires |labels| == |predictions|
    ensures TruePositives(labels, predictions) == |Hits(labels, predictions, 1)|
  {
    if labels != [] {
      var n := |labels| - 1;
      TruePositivesAreHits(labels[..n], predictions[..n]);
      HitsSnoc(labels, predictions, 1);
    }
  }

  /** The true negatives are the positions where label and prediction are both 0. */
  lemma {:induction false} TrueNegativesAreHits(labels: seq<int>, predictions: seq<int>)
    requires |labels| == |predictions|
    ensures TrueNegatives(labels, predictions) == |Hits(labels, predictions, 0)|
  {
    if labels != [] {
      var n := |labels| - 1;
      TrueNegativesAreHits(labels[..n], predictions[..n]);
      HitsSnoc(labels, predictions, 0);
    }
  }

  // ---------------------------------------------------------------------------
  // The result of `evaluate`, as a function of its inputs
  // ---------------------------------------------------------------------------

  /** What `evaluate(labels, predictions)` returns or raises. The length check
      comes first; then TP / P, then TN / N, each raising on a zero divisor. */
  function EvaluateSpec(labels: seq<int>, predictions: seq<int>): (r: Result<Rates, EvalError>)
    ensures r == Err(LengthMismatch) <==> |labels| != |predictions|
    ensures r.Ok? ==> 0.0 <= r.value.sensitivity && 0.0 <= r.value.specificity
  {
    if |labels| != |predictions| then Err(LengthMismatch)
    else if Positives(labels) == 0 || Negatives(labels) == 0 then Err(ZeroDivision)
    else Ok(Rates(TruePositives(labels, predictions) as real / Positives(labels) as real,
                  TrueNegatives(labels, predictions) as real / Negatives(labels) as real))
  }

  /** A successful evaluation yields two rates in [0, 1], and it succeeds exactly
      when the lengths agree and both classes occur among the labels. */
  lemma RatesInUnitInterval(labels: seq<int>, predictions: seq<int>)
    ensures EvaluateSpec(labels, predictions).Ok?
        <==> |labels| == |predictions| && Positives(labels) > 0 && Negatives(labels) > 0
    ensures EvaluateSpec(labels, predictions).Ok? ==>
              var r := EvaluateSpec(labels, predictions).value;
              0.0 <= r.sensitivity <= 1.0 && 0.0 <= r.specificity <= 1.0
  {
    if |labels| == |predictions| && Positives(labels) > 0 && Negatives(labels) > 0 {
      TruePositivesBound(labels, predictions);
      TrueNegativesBound(labels, predictions);
      RatioInUnitInterval(TruePositives(labels, predictions) as real, Positives(labels) as real);
      RatioInUnitInterval(TrueNegatives(labels, predictions) as real, Negatives(labels) as real);
    }
  }

  /** A nonzero count over itself is 1. */
  lemma WholeRatio(whole: real)
    requires 0.0 < whole
    ensures whole / whole == 1.0
  {
  }

  /** A count over a larger nonzero count is a proportion. */
  lemma RatioInUnitInterval(part: real, whole: real)
    requires 0.0 <= part <= whole && 0.0 < whole
    ensures 0.0 <= part / whole <= 1.0
  {
  }

  /** Perfect predictions over 0/1 labels with both classes present score 1 and 1. */
  lemma PerfectPredictionsScoreOne(labels: seq<int>)
    requires forall i :: 0 <= i < |labels| ==> labels[i] == 0 || labels[i] == 1
    requires Positives(labels) > 0 && Negatives(labels) > 0
    ensures EvaluateSpec(labels, labels) == Ok(Rates(1.0, 1.0))
  {
    PerfectPredictions(labels);
    var tp, tn := TruePositives(labels, labels), TrueNegatives(labels, labels);
    var p, n := Positives(labels), Negatives(labels);
    assert EvaluateSpec(labels, labels) == Ok(Rates(tp as real / p as real, tn as real / n as real));
    assert tp == p && tn == n;
    WholeRatio(p as real);
    WholeRatio(n as real);
  }

  /** The example of the docstring: one hit in each class out of two. */
  lemma DocstringExample()
    ensures EvaluateSpec([0, 1, 1, 0], [0, 0, 1, 1]) == Ok(Rates(0.5, 0.5))
  {
    var labels, predictions := [0, 1, 1, 0], [0, 0, 1, 1];
    assert labels[..3] == [0, 1, 1] && [0, 1, 1][..2] == [0, 1] && [0, 1][..1] == [0];
    assert predictions[..3] == [0, 0, 1] && [0, 0, 1][..2] == [0, 0] && [0, 0][..1] == [0];
    assert Positives(labels) == 2 && Negatives(labels) == 2;
    assert TruePositives(labels, predictions) == 1;
    assert TrueNegatives(labels, predictions) == 1;
  }

  /** Both classes present: every positive hit, one negative of two missed. */
  lemma MixedExample()
    ensures EvaluateSpec([1, 0, 1, 0], [1, 0, 1, 1]) == Ok(Rates(1.0, 0.5))
  {
    var labels, predictions := [1, 0, 1, 0], [1, 0, 1, 1];
    assert labels[..3] == [1, 0, 1] && [1, 0, 1][..2] == [1, 0] && [1, 0][..1] == [1];
    assert predictions[..3] == [1, 0, 1] && [1, 0, 1][..2] == [1, 0] && [1, 0][..1] == [1];
    assert Positives(labels) == 2 && Negatives(labels) == 2;
    assert TruePositives(labels, predictions) == 2;
    assert TrueNegatives(labels, predictions) == 1;
  }

  /** With no negative label the specificity divides by zero. */
  lemma AllPositiveLabelsRaise()
    ensures EvaluateSpec([1, 1, 1, 1], [1, 1, 0, 1]) == Err(ZeroDivision)
  {
    var labels := [1, 1, 1, 1];
    assert labels[..3] == [1, 1, 1] && [1, 1, 1][..2] == [1, 1] && [1, 1][..1] == [1];
    assert Negatives(labels) == 0;
  }

  // ---------------------------------------------------------------------------
  // The counting loops of `evaluate`
  // ---------------------------------------------------------------------------

  /** `evaluate`: two counting passes, then two divisions. */
  method Evaluate(labels: seq<int>, predictions: seq<int>) returns (r: Result<Rates, EvalError>)
    ensures r == EvaluateSpec(labels, predictions)
    ensures |labels| != |predictions| ==> r == Err(LengthMismatch)
    ensures r.Ok? ==> 0.0 <= r.value.sensitivity <= 1.0 && 0.0 <= r.value.specificity <= 1.0
  {
    RatesInUnitInterval(labels, predictions);
    if |labels| != |predictions| {
      return Err(LengthMismatch);
    }

    var truePositives, trueNegatives, actualPositives, actualNegatives := 0, 0, 0, 0;

    // Count the actual positive and negative labels.
    var i := 0;
    while i < |labels|
      invariant 0 <= i <= |labels|
      invariant actualPositives == Positives(labels[..i])
      invariant actualNegatives == Negatives(labels[..i])
    {
      assert labels[..i + 1][..i] == labels[..i];
      if labels[i] == 1 {
        actualPositives := actualPositives + 1;
      } else {
        actualNegatives := actualNegatives + 1;
      }
      i := i + 1;
    }
    assert labels[..i] == labels;

    // Count the hits in each class.
    i := 0;
    while i < |labels|
      invariant 0 <= i <= |labels|
      invariant truePositives == TruePositives(labels[..i], predictions[..i])
      invariant trueNegatives == TrueNegatives(labels[..i], predictions[..i])
    {
      assert labels[..i + 1][..i] == labels[..i];
      assert predictions[..i + 1][..i] == predictions[..i];
      if labels[i] == predictions[i] == 1 { truePositives := truePositives + 1; }
      if labels[i] == predictions[i] == 0 { trueNegatives := trueNegatives + 1; }
      i := i + 1;
    }
    assert labels[..i] == labels && predictions[..i] == predictions;

    if actualPositives == 0 || actualNegatives == 0 {
      return Err(ZeroDivision);
    }
    r := Ok(Rates(truePositives as real / actualPositives as real,
                  trueNegatives as real / actualNegatives as real));
  }
}
