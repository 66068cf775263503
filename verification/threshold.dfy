/**
 The decision threshold of the churn model (`ChurnPredictor`). A fresh
 predictor classifies at 0.5; evaluation replaces that by the point of the
 precision/recall curve whose F1 score is largest, and a user is predicted
 to churn when the model's probability reaches the threshold.

 The probabilities and the curve are inputs: they come from the trained
 model and from the library that draws the curve.
 */
module Threshold {
  import opened Frames

  const DefaultThreshold: real := 0.5
  /** Added to the F1 denominator so that a point with no precision and no recall scores 0. */
  const Epsilon: real := 0.000000001

  /** The model itself is not part of this model: only whether one was trained, and the threshold. */
  datatype Predictor = Predictor(trained: bool, threshold: real)

  /** A fresh predictor: no model yet, threshold 0.5. */
  function NewPredictor(): (p: Predictor)
    ensures !p.trained && p.threshold == DefaultThreshold
  {
    Predictor(false, 0.5)
  }

  /**
   `train_optimized`: the fitted model is stored; the threshold is left as it
   was. The fit itself is not part of this model.
   */
  function Train(p: Predictor): (q: Predictor)
    ensures q.trained
    ensures q.threshold == p.threshold
  {
    p.(trained := true)
  }

  /** Every value lies in [0, 1]. */
  predicate Rates(s: seq<real>)
  {
    forall i :: 0 <= i < |s| ==> 0.0 <= s[i] <= 1.0
  }

  /**
   A precision/recall curve: precision and recall per point, and the
   thresholds at which the points are taken.
   */
  datatype Curve = Curve(precision: seq<real>, recall: seq<real>, thresholds: seq<real>)

  /** Equally many precisions and recalls, all of them rates. */
  predicate ValidCurve(c: Curve)
  {
    |c.precision| == |c.recall| && Rates(c.precision) && Rates(c.recall)
  }

  /**
   The shape the curve library guarantees: one point more than thresholds,
   at least one threshold, and a last point with precision 1 and recall 0
   that has no threshold of its own.
   */
  predicate LibraryShape(c: Curve)
  {
    && ValidCurve(c)
    && |c.thresholds| >= 1
    && |c.precision| == |c.thresholds| + 1
    && c.precision[|c.thresholds|] == 1.0
    && c.recall[|c.thresholds|] == 0.0
  }

  /** The smoothed F1 score of one point. */
  function F1(p: real, r: real): (f: real)
    requires 0.0 <= p <= 1.0 && 0.0 <= r <= 1.0
    ensures 0.0 <= f < 1.0
    ensures f == 0.0 <==> p == 0.0 || r == 0.0
  {
    HarmonicBelowSum(p, r);
    ProperFraction(2.0 * (p * r), p + r + Epsilon);
    2.0 * (p * r) / (p + r + Epsilon)
  }

  /** For rates, twice the product is at most the sum, and the product is 0 only when a factor is. */
  lemma HarmonicBelowSum(p: real, r: real)
    requires 0.0 <= p <= 1.0 && 0.0 <= r <= 1.0
    ensures 0.0 <= 2.0 * (p * r) <= p + r
    ensures p * r == 0.0 <==> p == 0.0 || r == 0.0
  {
    NonNegativeProduct(p, 1.0 - r);
    NonNegativeProduct(r, 1.0 - p);
    NonNegativeProduct(p, r);
    assert p * (1.0 - r) == p - p * r;
    assert r * (1.0 - p) == r - p * r;
    if p != 0.0 && r != 0.0 {
      PositiveProduct(p, r);
    }
  }

  lemma NonNegativeProduct(a: real, b: real)
    requires 0.0 <= a && 0.0 <= b
    ensures 0.0 <= a * b
  {
  }

  lemma PositiveProduct(a: real, b: real)
    requires 0.0 < a && 0.0 < b
    ensures 0.0 < a * b
  {
  }

  /** A non-negative numerator below the denominator gives a fraction in [0, 1), zero exactly when the numerator is. */
  lemma ProperFraction(a: real, b: real)
    requires 0.0 <= a < b
    ensures 0.0 <= a / b < 1.0
    ensures a / b == 0.0 <==> a == 0.0
  {
    var q := a / b;
    assert q * b == a;
    assert (1.0 - q) * b == b - a;
    FactorSign(q, b);
    FactorSign(1.0 - q, b);
  }

  /** With a positive factor, the product has the sign of the other factor. */
  lemma FactorSign(x: real, b: real)
    requires 0.0 < b
    ensures x * b > 0.0 ==> x > 0.0
    ensures x * b >= 0.0 ==> x >= 0.0
  {
  }

  /** The F1 score of every point of a curve. */
  function F1Scores(c: Curve): (f: seq<real>)
    requires ValidCurve(c)
    ensures |f| == |c.precision|
    ensures Rates(f)
  {
    seq(|c.precision|, i requires 0 <= i < |c.precision| => F1(c.precision[i], c.recall[i]))
  }

  /** `i` is where `s` first reaches its maximum: `np.argmax`. */
  predicate IsFirstMax(s: seq<real>, i: int)
  {
    && 0 <= i < |s|
    && (forall j :: 0 <= j < |s| ==> s[j] <= s[i])
    && (forall j :: 0 <= j < i ==> s[j] < s[i])
  }

  /** At most one position is the first maximum. */
  lemma FirstMaxUnique(s: seq<real>, i: int, j: int)
    requires IsFirstMax(s, i) && IsFirstMax(s, j)
    ensures i == j
  {
    assert s[j] <= s[i] && s[i] <= s[j];
  }

  /** `np.argmax`: the first position of the largest value; an empty sequence is an error. */
  method ArgMax(s: seq<real>) returns (res: Result<nat>)
    ensures res.Err? <==> |s| == 0
    ensures res.Err? ==> res.error == EmptySequence
    ensures res.Ok? ==> IsFirstMax(s, res.value)
  {
    if |s| == 0 {
      return Err(EmptySequence);
    }
    var best := 0;
    var i := 1;
    while i < |s|
      invariant 1 <= i <= |s|
      invariant 0 <= best < i
      invariant forall j :: 0 <= j < i ==> s[j] <= s[best]
      invariant forall j :: 0 <= j < best ==> s[j] < s[best]
    {
      if s[i] > s[best] {
        best := i;
      }
      i := i + 1;
    }
    return Ok(best);
  }

  /** `(probs >= threshold).astype(int)`. */
  function Predict(probs: seq<real>, threshold: real): (preds: seq<int>)
    ensures |preds| == |probs|
    ensures forall i :: 0 <= i < |probs| ==> preds[i] in {0, 1}
    ensures forall i :: 0 <= i < |probs| ==> (preds[i] == 1 <==> probs[i] >= threshold)
  {
    seq(|probs|, i requires 0 <= i < |probs| => if probs[i] >= threshold then 1 else 0)
  }

  /** A higher threshold never predicts churn for a user a lower one spares. */
  lemma PredictMonotone(probs: seq<real>, low: real, high: real, i: nat)
    requires low <= high && i < |probs|
    ensures Predict(probs, high)[i] <= Predict(probs, low)[i]
  {
  }

  datatype Evaluation = Evaluation(predictor: Predictor, best: nat, predictions: seq<int>)

  /**
   `evaluate`: score every point of the curve, take the first point of best
   F1, adopt its threshold and predict with it. A predictor without a model
   cannot produce probabilities, which is the first error. Indexing the
   thresholds at the last point, which has none, is an error, as is an
   empty curve.
   */
  method Evaluate(p: Predictor, probs: seq<real>, c: Curve) returns (res: Result<Evaluation>)
    requires ValidCurve(c)
    ensures !p.trained ==> res == Err(NoModel)
    ensures p.trained && |c.precision| == 0 ==> res == Err(EmptySequence)
    ensures res.Ok? ==> p.trained
    ensures res.Ok? ==> var e := res.value;
              && IsFirstMax(F1Scores(c), e.best)
              && e.best < |c.thresholds|
              && e.predictor == p.(threshold := c.thresholds[e.best])
              && e.predictions == Predict(probs, c.thresholds[e.best])
    ensures p.trained && LibraryShape(c) ==> res.Ok?
  {
    if !p.trained {
      return Err(NoModel);
    }
    var scores := F1Scores(c);
    var best := ArgMax(scores);
    if best.Err? {
      return Err(best.error);
    }
    var i := best.value;
    if i >= |c.thresholds| {
      if LibraryShape(c) {
        BestHasThreshold(c, i);
      }
      return Err(IndexOutOfRange);
    }
    var threshold := c.thresholds[i];
    return Ok(Evaluation(p.(threshold := threshold), i, Predict(probs, threshold)));
  }

  /**
   On a curve of the library's shape the first best point always has a
   threshold: the last point scores 0, so it is never strictly better than
   the first.
   */
  lemma BestHasThreshold(c: Curve, i: int)
    requires LibraryShape(c)
    requires IsFirstMax(F1Scores(c), i)
    ensures i < |c.thresholds|
  {
    var f := F1Scores(c);
    var last := |c.thresholds|;
    assert f[last] == 0.0 && f[0] >= 0.0;
  }
}
