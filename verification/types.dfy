/**
 * Shared vocabulary of the automated claim-decomposition evaluator: the
 * entity sets produced by entity extraction, the label strings, the fixed
 * thresholds, the threshold buckets and the count of entities that find no
 * fuzzy match in a pool.
 */
module Types {

  /** Subjects and objects extracted from one text (claim or sub-claim). */
  datatype EntitySet = EntitySet(subjects: seq<string>, objects: seq<string>)

  /**
   * A similarity scorer over two texts. The fuzzy entity matcher (Jaro-Winkler
   * after lower-casing and trimming) and the BERTScore F1 scorer are both of
   * this shape; neither is modelled beyond its signature.
   */
  type Scorer = (string, string) -> real

  /** An entity of a sub-claim "exists" in the claim above this match score. */
  const FABRICATION_THRESHOLD: real := 0.75
  /** A claim entity is "covered" by the sub-claims above this match score. */
  const COVERAGE_THRESHOLD: real := 0.6
  /** A pair of sub-claims is redundant above this F1 score. */
  const REDUNDANCY_THRESHOLD: real := 0.85
  /** The two bucket boundaries, as fractions of a total. */
  const LOWER_FRACTION: real := 0.25
  const UPPER_FRACTION: real := 0.75

  const LOW: string := "low"
  const MEDIUM: string := "medium"
  const HIGH: string := "high"
  const ATOMIC: string := "atomic"
  const NON_ATOMIC_1: string := "non-atomic-1"
  const NON_ATOMIC_2: string := "non-atomic-2"

  /** The elements of a list, as a set. */
  function Elements(xs: seq<string>): (s: set<string>)
    ensures forall k :: 0 <= k < |xs| ==> xs[k] in s
    ensures forall y :: y in s ==> y in xs
  {
    set y | y in xs
  }

  /** Some member of `pool` matches `x` with a score strictly above `threshold`. */
  predicate MatchedIn(score: Scorer, x: string, pool: set<string>, threshold: real)
  {
    exists y :: y in pool && score(x, y) > threshold
  }

  /**
   * Number of positions of `xs` whose entity has no match above `threshold`
   * in `pool`. Every position is counted on its own, so a duplicate entity
   * counts once per occurrence.
   */
  function CountUnmatched(score: Scorer, xs: seq<string>, pool: set<string>, threshold: real): (n: nat)
    ensures n <= |xs|
    ensures pool == {} ==> n == |xs|
  {
    if xs == [] then 0
    else
      CountUnmatched(score, xs[..|xs| - 1], pool, threshold)
        + (if MatchedIn(score, xs[|xs| - 1], pool, threshold) then 0 else 1)
  }

  /** Counting over a concatenation adds the counts of the two parts. */
  lemma {:induction false} CountUnmatchedAppend(score: Scorer, xs: seq<string>, ys: seq<string>, pool: set<string>, threshold: real)
    ensures CountUnmatched(score, xs + ys, pool, threshold)
            == CountUnmatched(score, xs, pool, threshold) + CountUnmatched(score, ys, pool, threshold)
    decreases |ys|
  {
    if ys != [] {
      var init := ys[..|ys| - 1];
      assert (xs + ys)[..|xs + ys| - 1] == xs + init;
      CountUnmatchedAppend(score, xs, init, pool, threshold);
    } else {
      assert xs + ys == xs;
    }
  }

  /** A single entity adds exactly one to the count iff nothing in the pool matches it. */
  lemma CountUnmatchedSingle(score: Scorer, x: string, pool: set<string>, threshold: real)
    ensures CountUnmatched(score, [x], pool, threshold) == if MatchedIn(score, x, pool, threshold) then 0 else 1
  {
    assert [x][..0] == [];
  }

  /** The count is zero iff every entity is matched, and is the full length iff none is. */
  lemma {:induction false} CountUnmatchedExtremes(score: Scorer, xs: seq<string>, pool: set<string>, threshold: real)
    ensures CountUnmatched(score, xs, pool, threshold) == 0
            <==> forall k :: 0 <= k < |xs| ==> MatchedIn(score, xs[k], pool, threshold)
    ensures CountUnmatched(score, xs, pool, threshold) == |xs|
            <==> forall k :: 0 <= k < |xs| ==> !MatchedIn(score, xs[k], pool, threshold)
    decreases |xs|
  {
    if xs != [] {
      var init := xs[..|xs| - 1];
      CountUnmatchedExtremes(score, init, pool, threshold);
      assert forall k :: 0 <= k < |init| ==> init[k] == xs[k];
    }
  }

  /**
   * The three-way bucket used for fabrication and redundancy: a count at most
   * a quarter of the total is low, at most three quarters is medium, else high.
   * Both comparisons include their boundary.
   */
  function Level(n: nat, total: nat): (l: string)
    ensures l == LOW <==> 4 * n <= total
    ensures l == MEDIUM <==> total < 4 * n <= 3 * total
    ensures l == HIGH <==> 3 * total < 4 * n
  {
    if (n as real) <= LOWER_FRACTION * (total as real) then LOW
    else if (n as real) <= UPPER_FRACTION * (total as real) then MEDIUM
    else HIGH
  }

  /**
   * The coverage bucket: the same boundaries as `Level` with the polarity
   * inverted, so that few uncovered entities give a high coverage.
   */
  function CoverageLevel(n: nat, total: nat): (l: string)
    ensures l == HIGH <==> 4 * n <= total
    ensures l == MEDIUM <==> total < 4 * n <= 3 * total
    ensures l == LOW <==> 3 * total < 4 * n
  {
    if (n as real) <= LOWER_FRACTION * (total as real) then HIGH
    else if (n as real) <= UPPER_FRACTION * (total as real) then MEDIUM
    else LOW
  }

  /** With an empty total both buckets collapse: zero is the lowest label, anything more the highest. */
  lemma LevelOfEmptyTotal(n: nat)
    ensures Level(n, 0) == (if n == 0 then LOW else HIGH)
    ensures CoverageLevel(n, 0) == (if n == 0 then HIGH else LOW)
  {
  }
}
