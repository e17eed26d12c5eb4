/**
 * The fabrication calculator: counts the entities of one sub-claim that have
 * no fuzzy match in the claim's own subjects and objects, and buckets that
 * count against the number of claim entities.
 */
module Fabrication {
  import opened Types

  /**
   * Number of fabricated entities: the sub-claim's subjects, then its objects,
   * each counted once when no claim entity matches it above the fabrication
   * threshold.
   */
  function FabricationCount(matchScore: Scorer, S: seq<string>, O: seq<string>, s_i: seq<string>, o_i: seq<string>): nat
  {
    CountUnmatched(matchScore, s_i, Elements(S + O), FABRICATION_THRESHOLD)
      + CountUnmatched(matchScore, o_i, Elements(S + O), FABRICATION_THRESHOLD)
  }

  /** The fabrication label of one sub-claim. */
  function FabricationLabel(matchScore: Scorer, S: seq<string>, O: seq<string>, s_i: seq<string>, o_i: seq<string>): string
  {
    Level(FabricationCount(matchScore, S, O, s_i, o_i), |S| + |O|)
  }

  /**
   * The count never exceeds the number of sub-claim entities, and it is the
   * number of unmatched positions of the sub-claim's subjects followed by its
   * objects.
   */
  lemma FabricationCountBounds(matchScore: Scorer, S: seq<string>, O: seq<string>, s_i: seq<string>, o_i: seq<string>)
    ensures FabricationCount(matchScore, S, O, s_i, o_i)
            == CountUnmatched(matchScore, s_i + o_i, Elements(S + O), FABRICATION_THRESHOLD)
    ensures 0 <= FabricationCount(matchScore, S, O, s_i, o_i) <= |s_i| + |o_i|
  {
    CountUnmatchedAppend(matchScore, s_i, o_i, Elements(S + O), FABRICATION_THRESHOLD);
  }

  /** A sub-claim with no entities fabricates nothing, whatever the claim. */
  lemma FabricationOfEmptySubClaim(matchScore: Scorer, S: seq<string>, O: seq<string>)
    ensures FabricationCount(matchScore, S, O, [], []) == 0
    ensures FabricationLabel(matchScore, S, O, [], []) == LOW
  {
  }

  /**
   * A claim with no entities matches nothing: every sub-claim entity is
   * fabricated, and the label is low exactly when the sub-claim has no
   * entities, high otherwise.
   */
  lemma FabricationOfEmptyClaim(matchScore: Scorer, s_i: seq<string>, o_i: seq<string>)
    ensures FabricationCount(matchScore, [], [], s_i, o_i) == |s_i| + |o_i|
    ensures FabricationLabel(matchScore, [], [], s_i, o_i) == if |s_i| + |o_i| == 0 then LOW else HIGH
  {
    assert Elements([] + []) == {};
  }

  /**
   * Imperative form of the calculator: for each sub-claim subject, then each
   * object, scan the claim entities until the first match above the
   * threshold; an entity with no match adds one fabrication.
   */
  method CalculateFabrication(matchScore: Scorer, S: seq<string>, O: seq<string>, s_i: seq<string>, o_i: seq<string>)
    returns (l: string)
    ensures l == Level(FabricationCount(matchScore, S, O, s_i, o_i), |S| + |O|)
    ensures l == LOW <==> 4 * FabricationCount(matchScore, S, O, s_i, o_i) <= |S| + |O|
    ensures l == HIGH <==> 3 * (|S| + |O|) < 4 * FabricationCount(matchScore, S, O, s_i, o_i)
  {
    var numFabrications: nat := 0;
    var E := S + O;
    ghost var pool := Elements(E);

    var k := 0;
    while k < |s_i|
      invariant 0 <= k <= |s_i|
      invariant numFabrications == CountUnmatched(matchScore, s_i[..k], pool, FABRICATION_THRESHOLD)
    {
      var s := s_i[k];
      var sExists := false;
      var j := 0;
      while j < |E|
        invariant 0 <= j <= |E|
        invariant forall m :: 0 <= m < j ==> matchScore(s, E[m]) <= FABRICATION_THRESHOLD
      {
        if matchScore(s, E[j]) > FABRICATION_THRESHOLD {
          assert E[j] in pool;
          sExists := true;
          break;
        }
        j := j + 1;
      }
      assert sExists == MatchedIn(matchScore, s, pool, FABRICATION_THRESHOLD);
      if !sExists {
        numFabrications := numFabrications + 1;
      }
      assert s_i[..k + 1][..k] == s_i[..k];
      k := k + 1;
    }
    assert s_i[..k] == s_i;

    k := 0;
    while k < |o_i|
      invariant 0 <= k <= |o_i|
      invariant numFabrications == CountUnmatched(matchScore, s_i, pool, FABRICATION_THRESHOLD)
                                   + CountUnmatched(matchScore, o_i[..k], pool, FABRICATION_THRESHOLD)
    {
      var o := o_i[k];
      var oExists := false;
      var j := 0;
      while j < |E|
        invariant 0 <= j <= |E|
        invariant forall m :: 0 <= m < j ==> matchScore(o, E[m]) <= FABRICATION_THRESHOLD
      {
        if matchScore(o, E[j]) > FABRICATION_THRESHOLD {
          assert E[j] in pool;
          oExists := true;
          break;
        }
        j := j + 1;
      }
      assert oExists == MatchedIn(matchScore, o, pool, FABRICATION_THRESHOLD);
      if !oExists {
        numFabrications := numFabrications + 1;
      }
      assert o_i[..k + 1][..k] == o_i[..k];
      k := k + 1;
    }
    assert o_i[..k] == o_i;

    if (numFabrications as real) <= LOWER_FRACTION * ((|S| + |O|) as real) {
      l := LOW;
    } else if (numFabrications as real) <= UPPER_FRACTION * ((|S| + |O|) as real) {
      l := MEDIUM;
    } else {
      l := HIGH;
    }
  }
}
