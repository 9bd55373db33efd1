/** The two quality measures `AlgorithmService.run` reports: the count of correct
    class predictions with the accuracy derived from it, and the summed squared
    error with the mean squared error. Neither guards an empty validation set. */
module Evaluation {
  import opened JsNumber

  /** The number of indices where the predicted class equals the true class; a missing
      true value (`undefined`) never equals a prediction. */
  function Matches(predictionValues: seq<int>, trueValues: seq<int>): nat
  {
    if predictionValues == [] then 0
    else
      var k := |predictionValues| - 1;
      Matches(predictionValues[..k], trueValues) +
      (if k < |trueValues| && predictionValues[k] == trueValues[k] then 1 else 0)
  }

  /** The counting loop of `run`: `correctPredictions`. */
  method CountCorrectPredictions(predictionValues: seq<int>, trueValues: seq<int>) returns (correctPredictions: nat)
    ensures correctPredictions == Matches(predictionValues, trueValues)
    ensures correctPredictions <= |predictionValues|
  {
    correctPredictions := 0;
    for i := 0 to |predictionValues|
      invariant correctPredictions == Matches(predictionValues[..i], trueValues)
      invariant correctPredictions <= i
    {
      if i < |trueValues| && predictionValues[i] == trueValues[i] {
        correctPredictions := correctPredictions + 1;
      }
      assert predictionValues[..i + 1][..i] == predictionValues[..i];
    }
    assert predictionValues[..|predictionValues|] == predictionValues;
  }

  /** The count is the total exactly when every prediction is right, and zero exactly
      when none is. */
  lemma {:induction false} MatchesExtremes(predictionValues: seq<int>, trueValues: seq<int>)
    requires |predictionValues| == |trueValues|
    ensures Matches(predictionValues, trueValues) <= |predictionValues|
    ensures Matches(predictionValues, trueValues) == |predictionValues| <==>
              forall i :: 0 <= i < |predictionValues| ==> predictionValues[i] == trueValues[i]
    ensures Matches(predictionValues, trueValues) == 0 <==>
              forall i :: 0 <= i < |predictionValues| ==> predictionValues[i] != trueValues[i]
  {
    if predictionValues != [] {
      var k := |predictionValues| - 1;
      MatchesExtremes(predictionValues[..k], trueValues[..k]);
      MatchesPrefixTruth(predictionValues[..k], trueValues, k);
    }
  }

  /** Only the first `|predictionValues|` true values matter. */
  lemma {:induction false} MatchesPrefixTruth(predictionValues: seq<int>, trueValues: seq<int>, n: nat)
    requires |predictionValues| <= n <= |trueValues|
    ensures Matches(predictionValues, trueValues) == Matches(predictionValues, trueValues[..n])
  {
    if predictionValues != [] {
      MatchesPrefixTruth(predictionValues[..|predictionValues| - 1], trueValues, n);
    }
  }

  /** `correctPredictions / predictionValues.length`. */
  function Accuracy(correctPredictions: nat, totalPredictions: nat): Num
  {
    Divide(correctPredictions as real, totalPredictions as real)
  }

  /** Accuracy is a fraction in `[0, 1]` for a non-empty validation set and NaN for an
      empty one. */
  lemma AccuracyRange(predictionValues: seq<int>, trueValues: seq<int>)
    ensures var a := Accuracy(Matches(predictionValues, trueValues), |predictionValues|);
            (predictionValues != [] ==> a.Finite? && 0.0 <= a.value <= 1.0) &&
            (predictionValues == [] ==> a == NaN)
  {
    var c := Matches(predictionValues, trueValues);
    if predictionValues != [] {
      CountCorrectBound(predictionValues, trueValues);
      DivideFraction(c as real, |predictionValues| as real);
    }
  }

  lemma {:induction false} CountCorrectBound(predictionValues: seq<int>, trueValues: seq<int>)
    ensures Matches(predictionValues, trueValues) <= |predictionValues|
  {
    if predictionValues != [] {
      CountCorrectBound(predictionValues[..|predictionValues| - 1], trueValues);
    }
  }

  /** Counting distributes over aligned concatenation. */
  lemma {:induction false} MatchesAppend(p: seq<int>, q: seq<int>, t: seq<int>, u: seq<int>)
    requires |p| == |t| && |q| == |u|
    ensures Matches(p + q, t + u) == Matches(p, t) + Matches(q, u)
  {
    if q == [] {
      assert p + q == p;
      MatchesPrefixTruth(p, t + u, |t|);
      assert (t + u)[..|t|] == t;
    } else {
      var k := |q| - 1;
      assert (p + q)[..|p| + k] == p + q[..k];
      assert (t + u)[..|t| + k] == t + u[..k];
      MatchesAppend(p, q[..k], t, u[..k]);
      MatchesPrefixTruth(p + q[..k], t + u, |t| + k);
      MatchesPrefixTruth(q[..k], u, k);
    }
  }

  /** Seven right out of ten gives an accuracy of 0.7. */
  lemma SevenOfTen()
    ensures Accuracy(Matches([0, 1, 2, 0, 1, 2, 0, 1, 2, 0], [0, 1, 2, 0, 1, 2, 0, 2, 0, 1]), 10) == Finite(0.7)
  {
    var right: seq<int> := [0, 1, 2, 0, 1, 2, 0];
    var predicted: seq<int> := [1, 2, 0];
    var actual: seq<int> := [2, 0, 1];
    MatchesExtremes(right, right);
    MatchesExtremes(predicted, actual);
    MatchesAppend(right, predicted, right, actual);
    assert right + predicted == [0, 1, 2, 0, 1, 2, 0, 1, 2, 0];
    assert right + actual == [0, 1, 2, 0, 1, 2, 0, 2, 0, 1];
  }

  /** The squared errors of the validation inputs under `predict`, summed. */
  function SquaredErrors(predict: real -> real, validationData: seq<real>, validationLabels: seq<real>): real
    requires |validationData| == |validationLabels|
  {
    if validationData == [] then 0.0
    else
      var k := |validationData| - 1;
      var error := predict(validationData[k]) - validationLabels[k];
      SquaredErrors(predict, validationData[..k], validationLabels[..k]) + error * error
  }

  /** The accumulator loop of the random-forest branch: `sumSquaredError`. */
  method SumSquaredError(predict: real -> real, validationData: seq<real>, validationLabels: seq<real>)
    returns (sumSquaredError: real)
    requires |validationData| == |validationLabels|
    ensures sumSquaredError == SquaredErrors(predict, validationData, validationLabels)
    ensures sumSquaredError >= 0.0
  {
    sumSquaredError := 0.0;
    for i := 0 to |validationData|
      invariant sumSquaredError == SquaredErrors(predict, validationData[..i], validationLabels[..i])
      invariant sumSquaredError >= 0.0
    {
      var prediction := predict(validationData[i]);
      var error := prediction - validationLabels[i];
      sumSquaredError := sumSquaredError + error * error;
      assert validationData[..i + 1][..i] == validationData[..i];
      assert validationLabels[..i + 1][..i] == validationLabels[..i];
    }
    assert validationData[..|validationData|] == validationData;
    assert validationLabels[..|validationLabels|] == validationLabels;
  }

  /** The sum is never negative, and it is zero when every prediction is exact. */
  lemma {:induction false} SquaredErrorsZero(predict: real -> real, validationData: seq<real>, validationLabels: seq<real>)
    requires |validationData| == |validationLabels|
    ensures SquaredErrors(predict, validationData, validationLabels) >= 0.0
    ensures (forall i :: 0 <= i < |validationData| ==> predict(validationData[i]) == validationLabels[i]) ==>
              SquaredErrors(predict, validationData, validationLabels) == 0.0
  {
    if validationData != [] {
      var k := |validationData| - 1;
      var dataPrefix, labelPrefix := validationData[..k], validationLabels[..k];
      SquaredErrorsZero(predict, dataPrefix, labelPrefix);
      var error := predict(validationData[k]) - validationLabels[k];
      assert error * error >= 0.0;
      assert forall i :: 0 <= i < k ==> dataPrefix[i] == validationData[i] && labelPrefix[i] == validationLabels[i];
    }
  }

  /** `sumSquaredError / validationData.length`. */
  function MeanSquaredError(sumSquaredError: real, validationCount: nat): Num
  {
    Divide(sumSquaredError, validationCount as real)
  }

  /** The mean squared error is a non-negative number for a non-empty validation set and
      NaN for an empty one. */
  lemma MeanSquaredErrorRange(predict: real -> real, validationData: seq<real>, validationLabels: seq<real>)
    requires |validationData| == |validationLabels|
    ensures var m := MeanSquaredError(SquaredErrors(predict, validationData, validationLabels), |validationData|);
            (validationData != [] ==> m.Finite? && m.value >= 0.0) &&
            (validationData == [] ==> m == NaN)
  {
    SquaredErrorsZero(predict, validationData, validationLabels);
  }

  function Double(x: real): real { 2.0 * x }

  /** Predictions 2 and 4 against labels 1 and 4 give `((2-1)^2 + 0^2) / 2 = 0.5`. */
  lemma MeanOfTwo()
    ensures MeanSquaredError(SquaredErrors(Double, [1.0, 2.0], [1.0, 4.0]), 2) == Finite(0.5)
  {
    assert SquaredErrors(Double, [1.0], [1.0]) == 1.0 by {
      assert SquaredErrors(Double, [], []) == 0.0;
    }
    assert [1.0, 2.0][..1] == [1.0] && [1.0, 4.0][..1] == [1.0];
  }
}
