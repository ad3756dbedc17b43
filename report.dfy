/** The Correct / Incorrect counts that `main` in shopping.py reports. */
module Report {
  import opened Evaluation

  /** `(y_test == predictions).sum()`: positions where the prediction is right. */
  function Correct(actual: seq<int>, predicted: seq<int>): (r: nat)
    requires |actual| == |predicted|
    ensures r <= |actual|
  {
    if actual == [] then 0
    else
      var n := |actual| - 1;
      Correct(actual[..n], predicted[..n]) + (if actual[n] == predicted[n] then 1 else 0)
  }

  /** `(y_test != predictions).sum()`: positions where the prediction is wrong. */
  function Incorrect(actual: seq<int>, predicted: seq<int>): (r: nat)
    requires |actual| == |predicted|
    ensures r <= |actual|
  {
    if actual == [] then 0
    else
      var n := |actual| - 1;
      Incorrect(actual[..n], predicted[..n]) + (if actual[n] != predicted[n] then 1 else 0)
  }

  /** The two reported counts add up to the size of the test set. */
  lemma {:induction false} CorrectPlusIncorrect(actual: seq<int>, predicted: seq<int>)
    requires |actual| == |predicted|
    ensures Correct(actual, predicted) + Incorrect(actual, predicted) == |actual|
  {
    if actual != [] {
      var n := |actual| - 1;
      CorrectPlusIncorrect(actual[..n], predicted[..n]);
    }
  }

  /** Over 0/1 labels and predictions, the correct predictions are exactly the
      true positives and the true negatives that the evaluator counts. */
  lemma {:induction false} CorrectIsHits(actual: seq<int>, predicted: seq<int>)
    requires |actual| == |predicted|
    requires forall i :: 0 <= i < |actual| ==> actual[i] == 0 || actual[i] == 1
    requires forall i :: 0 <= i < |predicted| ==> predicted[i] == 0 || predicted[i] == 1
    ensures Correct(actual, predicted) == TruePositives(actual, predicted) + TrueNegatives(actual, predicted)
  {
    if actual != [] {
      var n := |actual| - 1;
      CorrectIsHits(actual[..n], predicted[..n]);
    }
  }
}
