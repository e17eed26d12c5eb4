/**
 * The redundancy calculator: scores every unordered pair of sub-claims by
 * position, counts the pairs whose F1 score is above the redundancy
 * threshold, and buckets that count against the number of sub-claims.
 */
module Redundancy {
  import opened Types

  /**
   * The position pairs (a, b) with lo <= a < b < n, in lexicographic order:
   * the pairs of position lo with each later position, then those of the
   * positions after lo.
   */
  function PositionPairs(lo: nat, n: nat): (ps: seq<(nat, nat)>)
    requires lo <= n
    ensures 2 * |ps| == (n - lo) * (n - lo - 1)
    ensures forall k :: 0 <= k < |ps| ==> lo <= ps[k].0 < ps[k].1 < n
    decreases n - lo
  {
    if lo == n then []
    else
      var rest := PositionPairs(lo + 1, n);
      assert 2 * |rest| == (n - lo - 1) * (n - lo - 2);
      seq(n - lo - 1, j requires 0 <= j < n - lo - 1 => (lo, lo + 1 + j)) + rest
  }

  /** Every pair of positions lo <= a < b < n is enumerated. */
  lemma {:induction false} PositionPairsComplete(lo: nat, n: nat, a: nat, b: nat)
    requires lo <= a < b < n
    ensures (a, b) in PositionPairs(lo, n)
    decreases n - lo
  {
    var ps := PositionPairs(lo, n);
    if a == lo {
      assert ps[b - lo - 1] == (a, b);
    } else {
      PositionPairsComplete(lo + 1, n, a, b);
      assert ps == ps[..n - lo - 1] + PositionPairs(lo + 1, n);
    }
  }

  /** No pair of positions is enumerated twice. */
  lemma {:induction false} PositionPairsDistinct(lo: nat, n: nat)
    requires lo <= n
    ensures forall k1, k2 :: 0 <= k1 < k2 < |PositionPairs(lo, n)| ==> PositionPairs(lo, n)[k1] != PositionPairs(lo, n)[k2]
    decreases n - lo
  {
    if lo < n {
      PositionPairsDistinct(lo + 1, n);
      var ps := PositionPairs(lo, n);
      var rest := PositionPairs(lo + 1, n);
      var head := n - lo - 1;
      forall k1, k2 | 0 <= k1 < k2 < |ps|
        ensures ps[k1] != ps[k2]
      {
        if k2 < head {
          assert ps[k1].1 == lo + 1 + k1 && ps[k2].1 == lo + 1 + k2;
        } else if k1 < head {
          assert ps[k1].0 == lo && ps[k2] == rest[k2 - head];
        } else {
          assert ps[k1] == rest[k1 - head] && ps[k2] == rest[k2 - head];
        }
      }
    }
  }

  /**
   * All pairs of sub-claims taken by position, first position smaller than
   * the second, in lexicographic order of the positions.
   */
  function Combinations(xs: seq<string>): (ps: seq<(string, string)>)
    ensures 2 * |ps| == |xs| * (|xs| - 1)
    ensures |ps| == |PositionPairs(0, |xs|)|
    ensures forall k :: 0 <= k < |ps| ==>
              var (a, b) := PositionPairs(0, |xs|)[k]; a < b < |xs| && ps[k] == (xs[a], xs[b])
  {
    var pos := PositionPairs(0, |xs|);
    seq(|pos|, k requires 0 <= k < |pos| => (xs[pos[k].0], xs[pos[k].1]))
  }

  /**
   * Every pair of positions a < b is scored exactly once: there is one and
   * only one entry of the enumeration at positions (a, b), and it holds the
   * sub-claims at a and b.
   */
  lemma CombinationsScoreEveryPairOnce(xs: seq<string>, a: nat, b: nat)
    requires a < b < |xs|
    ensures exists k :: 0 <= k < |Combinations(xs)| && PositionPairs(0, |xs|)[k] == (a, b)
                        && Combinations(xs)[k] == (xs[a], xs[b])
                        && forall k' :: 0 <= k' < |Combinations(xs)| && PositionPairs(0, |xs|)[k'] == (a, b) ==> k' == k
  {
    var pos := PositionPairs(0, |xs|);
    PositionPairsComplete(0, |xs|, a, b);
    PositionPairsDistinct(0, |xs|);
    var k :| 0 <= k < |pos| && pos[k] == (a, b);
    assert Combinations(xs)[k] == (xs[a], xs[b]);
  }

  /** The F1 score of every pair, in pair order. */
  function PairScores(f1: Scorer, ps: seq<(string, string)>): (scores: seq<real>)
    ensures |scores| == |ps|
    ensures forall k :: 0 <= k < |ps| ==> scores[k] == f1(ps[k].0, ps[k].1)
  {
    seq(|ps|, k requires 0 <= k < |ps| => f1(ps[k].0, ps[k].1))
  }

  /** Number of scores strictly above the redundancy threshold. */
  function CountRedundant(scores: seq<real>): (n: nat)
    ensures n <= |scores|
  {
    if scores == [] then 0
    else CountRedundant(scores[..|scores| - 1]) + (if scores[|scores| - 1] > REDUNDANCY_THRESHOLD then 1 else 0)
  }

  /** Number of redundant pairs among the sub-claims. */
  function NumRedundant(f1: Scorer, subClaims: seq<string>): nat
  {
    CountRedundant(PairScores(f1, Combinations(subClaims)))
  }

  /** The redundancy label of a decomposition. */
  function RedundancyLabel(f1: Scorer, subClaims: seq<string>): string
  {
    Level(NumRedundant(f1, subClaims), |subClaims|)
  }

  /** If every score is above the threshold, every score is counted. */
  lemma {:induction false} CountRedundantAll(scores: seq<real>)
    requires forall k :: 0 <= k < |scores| ==> scores[k] > REDUNDANCY_THRESHOLD
    ensures CountRedundant(scores) == |scores|
    decreases |scores|
  {
    if scores != [] {
      CountRedundantAll(scores[..|scores| - 1]);
    }
  }

  /** The count is zero iff no score is above the threshold. */
  lemma {:induction false} CountRedundantNone(scores: seq<real>)
    ensures CountRedundant(scores) == 0 <==> forall k :: 0 <= k < |scores| ==> scores[k] <= REDUNDANCY_THRESHOLD
    decreases |scores|
  {
    if scores != [] {
      var init := scores[..|scores| - 1];
      CountRedundantNone(init);
      assert forall k :: 0 <= k < |init| ==> init[k] == scores[k];
    }
  }

  /**
   * k sub-claims give exactly k(k-1)/2 scored pairs, so at most that many are
   * redundant; fewer than two sub-claims give no pair and a low label.
   */
  lemma RedundancyBounds(f1: Scorer, subClaims: seq<string>)
    ensures 2 * |PairScores(f1, Combinations(subClaims))| == |subClaims| * (|subClaims| - 1)
    ensures 2 * NumRedundant(f1, subClaims) <= |subClaims| * (|subClaims| - 1)
    ensures |subClaims| < 2 ==> NumRedundant(f1, subClaims) == 0 && RedundancyLabel(f1, subClaims) == LOW
  {
  }

  /**
   * When every pair of distinct positions scores above the threshold, all
   * k(k-1)/2 pairs are redundant, and from three sub-claims on the label is high.
   */
  lemma AllPairsRedundant(f1: Scorer, subClaims: seq<string>)
    requires forall a, b :: 0 <= a < b < |subClaims| ==> f1(subClaims[a], subClaims[b]) > REDUNDANCY_THRESHOLD
    ensures 2 * NumRedundant(f1, subClaims) == |subClaims| * (|subClaims| - 1)
    ensures |subClaims| >= 3 ==> RedundancyLabel(f1, subClaims) == HIGH
  {
    var ps := Combinations(subClaims);
    var scores := PairScores(f1, ps);
    CountRedundantAll(scores);
    var k := |subClaims|;
    if k >= 3 {
      assert 2 * NumRedundant(f1, subClaims) == k * (k - 1);
      assert k * (k - 1) >= k * 2;
    }
  }

  /**
   * When no pair of distinct positions scores above the threshold, no pair is
   * redundant and the label is low.
   */
  lemma NoPairRedundant(f1: Scorer, subClaims: seq<string>)
    requires forall a, b :: 0 <= a < b < |subClaims| ==> f1(subClaims[a], subClaims[b]) <= REDUNDANCY_THRESHOLD
    ensures NumRedundant(f1, subClaims) == 0
    ensures RedundancyLabel(f1, subClaims) == LOW
  {
    CountRedundantNone(PairScores(f1, Combinations(subClaims)));
  }

  /**
   * Imperative form of the calculator: score every positional pair, then
   * count the scores above the threshold. The claim's own entities and the
   * entity map are accepted by the source but take no part in the result,
   * so they are not parameters here.
   */
  method CalculateRedundancy(f1: Scorer, subClaims: seq<string>) returns (l: string)
    ensures l == Level(NumRedundant(f1, subClaims), |subClaims|)
    ensures l == LOW <==> 4 * NumRedundant(f1, subClaims) <= |subClaims|
    ensures l == HIGH <==> 3 * |subClaims| < 4 * NumRedundant(f1, subClaims)
  {
    var pairings := Combinations(subClaims);
    var scores := PairScores(f1, pairings);

    var numRedundant: nat := 0;
    for k := 0 to |scores|
      invariant numRedundant == CountRedundant(scores[..k])
    {
      if scores[k] > REDUNDANCY_THRESHOLD {
        numRedundant := numRedundant + 1;
      }
      assert scores[..k + 1][..k] == scores[..k];
    }
    assert scores[..|scores|] == scores;

    if (numRedundant as real) <= LOWER_FRACTION * (|subClaims| as real) {
      l := LOW;
    } else if (numRedundant as real) <= UPPER_FRACTION * (|subClaims| as real) {
      l := MEDIUM;
    } else {
      l := HIGH;
    }
  }
}
