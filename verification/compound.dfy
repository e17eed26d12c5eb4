/**
 * The compound aggregators: reduce the per-sub-claim labels of one claim to a
 * single score by an ordinal weight per label and the average of the weights.
 */
module Compound {
  import opened Types

  /** atomic weighs 3, non-atomic-1 weighs 2, any other label 1. */
  function AtomicityWeight(a: string): (w: nat)
    ensures 1 <= w <= 3
    ensures w == 3 <==> a == ATOMIC
    ensures w == 2 <==> a == NON_ATOMIC_1
  {
    if a == ATOMIC then 3 else if a == NON_ATOMIC_1 then 2 else 1
  }

  /** low weighs 1, medium weighs 2, any other label 3. */
  function MetricWeight(a: string): (w: nat)
    ensures 1 <= w <= 3
    ensures w == 1 <==> a == LOW
    ensures w == 2 <==> a == MEDIUM
  {
    if a == LOW then 1 else if a == MEDIUM then 2 else 3
  }

  /** Sum of the atomicity weights of a list of labels. */
  function AtomicitySum(labels: seq<string>): (s: nat)
    ensures |labels| <= s <= 3 * |labels|
  {
    if labels == [] then 0
    else AtomicitySum(labels[..|labels| - 1]) + AtomicityWeight(labels[|labels| - 1])
  }

  /** Sum of the metric weights of a list of labels. */
  function MetricSum(labels: seq<string>): (s: nat)
    ensures |labels| <= s <= 3 * |labels|
  {
    if labels == [] then 0
    else MetricSum(labels[..|labels| - 1]) + MetricWeight(labels[|labels| - 1])
  }

  /** The average of a weight sum over `count` labels; an empty list averages to 1. */
  function Mean(sum: nat, count: nat): real
  {
    if count == 0 then 1.0 else (sum as real) / (count as real)
  }

  /** A sum of between one and three weights per label averages into [1, 3]. */
  lemma MeanInRange(sum: nat, count: nat)
    requires count <= sum <= 3 * count
    ensures 1.0 <= Mean(sum, count) <= 3.0
  {
    if count > 0 {
      QuotientBounds(sum as real, count as real);
    }
  }

  /** For 0 < c, a quotient s / c with c <= s <= 3c lies in [1, 3]. */
  lemma QuotientBounds(s: real, c: real)
    requires 0.0 < c <= s <= 3.0 * c
    ensures 1.0 <= s / c <= 3.0
  {
    var m := s / c;
    assert m * c == s;
    assert (m - 1.0) * c == s - c;
    assert (3.0 - m) * c == 3.0 * c - s;
  }

  /** A non-empty list of one repeated label sums to that label's weight times its length. */
  lemma {:induction false} UniformAtomicitySum(labels: seq<string>, a: string)
    requires forall k :: 0 <= k < |labels| ==> labels[k] == a
    ensures AtomicitySum(labels) == |labels| * AtomicityWeight(a)
    decreases |labels|
  {
    if labels != [] {
      UniformAtomicitySum(labels[..|labels| - 1], a);
    }
  }

  /** A non-empty list of one repeated label sums to that label's weight times its length. */
  lemma {:induction false} UniformMetricSum(labels: seq<string>, a: string)
    requires forall k :: 0 <= k < |labels| ==> labels[k] == a
    ensures MetricSum(labels) == |labels| * MetricWeight(a)
    decreases |labels|
  {
    if labels != [] {
      UniformMetricSum(labels[..|labels| - 1], a);
    }
  }

  /** The mean of a uniform sum is the common weight. */
  lemma MeanOfUniform(count: nat, w: nat)
    requires count > 0
    ensures Mean(count * w, count) == w as real
  {
    var c := count as real;
    assert (count * w) as real == c * (w as real);
  }

  /**
   * Average atomicity of a claim's sub-claims. The result is always in
   * [1, 3]; an empty list gives 1, and a list of one repeated label gives
   * that label's weight.
   */
  method CompoundAtomicity(atomicity: seq<string>) returns (avg: real)
    ensures avg == Mean(AtomicitySum(atomicity), |atomicity|)
    ensures 1.0 <= avg <= 3.0
    ensures |atomicity| == 0 ==> avg == 1.0
    ensures |atomicity| > 0 && (forall k :: 0 <= k < |atomicity| ==> atomicity[k] == atomicity[0])
            ==> avg == AtomicityWeight(atomicity[0]) as real
  {
    if |atomicity| == 0 {
      return 1.0;
    }
    var score: nat := 0;
    for k := 0 to |atomicity|
      invariant score == AtomicitySum(atomicity[..k])
    {
      var a := atomicity[k];
      score := score + (if a == ATOMIC then 3 else if a == NON_ATOMIC_1 then 2 else 1);
      assert atomicity[..k + 1][..k] == atomicity[..k];
    }
    assert atomicity[..|atomicity|] == atomicity;
    avg := (score as real) / (|atomicity| as real);
    MeanInRange(score, |atomicity|);
    if forall k :: 0 <= k < |atomicity| ==> atomicity[k] == atomicity[0] {
      UniformAtomicitySum(atomicity, atomicity[0]);
      MeanOfUniform(|atomicity|, AtomicityWeight(atomicity[0]));
    }
  }

  /**
   * Average of a claim's low / medium / high labels. The result is always in
   * [1, 3]; an empty list gives 1, and a list of one repeated label gives
   * that label's weight.
   */
  method CompoundMetric(metric: seq<string>) returns (avg: real)
    ensures avg == Mean(MetricSum(metric), |metric|)
    ensures 1.0 <= avg <= 3.0
    ensures |metric| == 0 ==> avg == 1.0
    ensures |metric| > 0 && (forall k :: 0 <= k < |metric| ==> metric[k] == metric[0])
            ==> avg == MetricWeight(metric[0]) as real
  {
    if |metric| == 0 {
      return 1.0;
    }
    var score: nat := 0;
    for k := 0 to |metric|
      invariant score == MetricSum(metric[..k])
    {
      var a := metric[k];
      score := score + (if a == LOW then 1 else if a == MEDIUM then 2 else 3);
      assert metric[..k + 1][..k] == metric[..k];
    }
    assert metric[..|metric|] == metric;
    avg := (score as real) / (|metric| as real);
    MeanInRange(score, |metric|);
    if forall k :: 0 <= k < |metric| ==> metric[k] == metric[0] {
      UniformMetricSum(metric, metric[0]);
      MeanOfUniform(|metric|, MetricWeight(metric[0]));
    }
  }

  /** The worked averages: two lows give 1, two highs give 3, a low and a high give 2. */
  lemma MetricExamples()
    ensures Mean(MetricSum([LOW, LOW]), 2) == 1.0
    ensures Mean(MetricSum([HIGH, HIGH]), 2) == 3.0
    ensures Mean(MetricSum([LOW, HIGH]), 2) == 2.0
  {
    assert [LOW, LOW][..1] == [LOW];
    assert [HIGH, HIGH][..1] == [HIGH];
    assert [LOW, HIGH][..1] == [LOW];
  }
}
