/**
 * The coverage calculator: pools the entities of all sub-claims, counts the
 * claim entities that no pooled entity matches, and buckets that count with
 * the polarity inverted (few misses give a high coverage).
 */
module Coverage {
  import opened Types

  /**
   * The sub-claims' subjects and objects concatenated in sub-claim order,
   * before de-duplication.
   */
  function PooledEntities(subClaims: seq<string>, entities: map<string, EntitySet>): seq<string>
    requires forall sc :: sc in subClaims ==> sc in entities
  {
    if subClaims == [] then []
    else
      var last := entities[subClaims[|subClaims| - 1]];
      PooledEntities(subClaims[..|subClaims| - 1], entities) + last.subjects + last.objects
  }

  /** The de-duplicated pool of sub-claim entities. */
  function SubClaimPool(subClaims: seq<string>, entities: map<string, EntitySet>): set<string>
    requires forall sc :: sc in subClaims ==> sc in entities
  {
    Elements(PooledEntities(subClaims, entities))
  }

  /** Number of claim entities (subjects then objects, duplicates each counted) left uncovered. */
  function NonCoverage(matchScore: Scorer, S: seq<string>, O: seq<string>, subClaims: seq<string>, entities: map<string, EntitySet>): nat
    requires forall sc :: sc in subClaims ==> sc in entities
  {
    CountUnmatched(matchScore, S + O, SubClaimPool(subClaims, entities), COVERAGE_THRESHOLD)
  }

  /** The coverage label of a decomposition. */
  function CoverageLabel(matchScore: Scorer, S: seq<string>, O: seq<string>, subClaims: seq<string>, entities: map<string, EntitySet>): string
    requires forall sc :: sc in subClaims ==> sc in entities
  {
    CoverageLevel(NonCoverage(matchScore, S, O, subClaims, entities), |S| + |O|)
  }

  /** An entity is in the pool iff it is a subject or an object of some sub-claim. */
  lemma {:induction false} PoolMembership(subClaims: seq<string>, entities: map<string, EntitySet>, x: string)
    requires forall sc :: sc in subClaims ==> sc in entities
    ensures x in SubClaimPool(subClaims, entities)
            <==> exists sc :: sc in subClaims && (x in entities[sc].subjects || x in entities[sc].objects)
    decreases |subClaims|
  {
    if subClaims != [] {
      var init := subClaims[..|subClaims| - 1];
      var last := subClaims[|subClaims| - 1];
      PoolMembership(init, entities, x);
      assert subClaims == init + [last];
      assert PooledEntities(subClaims, entities)
             == PooledEntities(init, entities) + entities[last].subjects + entities[last].objects;
      if x in SubClaimPool(subClaims, entities) {
        if x in PooledEntities(init, entities) {
          var sc :| sc in init && (x in entities[sc].subjects || x in entities[sc].objects);
          assert sc in subClaims;
        } else {
          assert x in entities[last].subjects || x in entities[last].objects;
        }
      }
      if exists sc :: sc in subClaims && (x in entities[sc].subjects || x in entities[sc].objects) {
        var sc :| sc in subClaims && (x in entities[sc].subjects || x in entities[sc].objects);
        if sc != last {
          assert sc in init;
        }
      }
    }
  }

  /**
   * The pool, and so the coverage label, depends only on the set of
   * sub-claims: reordering or repeating sub-claims changes nothing.
   */
  lemma CoverageDependsOnSubClaimSet(matchScore: Scorer, S: seq<string>, O: seq<string>,
                                     subClaims1: seq<string>, subClaims2: seq<string>,
                                     entities: map<string, EntitySet>)
    requires forall sc :: sc in subClaims1 ==> sc in entities
    requires forall sc :: sc in subClaims2 ==> sc in entities
    requires forall sc :: sc in subClaims1 <==> sc in subClaims2
    ensures SubClaimPool(subClaims1, entities) == SubClaimPool(subClaims2, entities)
    ensures CoverageLabel(matchScore, S, O, subClaims1, entities)
            == CoverageLabel(matchScore, S, O, subClaims2, entities)
  {
    forall x
      ensures x in SubClaimPool(subClaims1, entities) <==> x in SubClaimPool(subClaims2, entities)
    {
      PoolMembership(subClaims1, entities, x);
      PoolMembership(subClaims2, entities, x);
    }
  }

  /** At most every claim entity is uncovered; a claim with no entities is always fully covered. */
  lemma NonCoverageBounds(matchScore: Scorer, S: seq<string>, O: seq<string>, subClaims: seq<string>, entities: map<string, EntitySet>)
    requires forall sc :: sc in subClaims ==> sc in entities
    ensures 0 <= NonCoverage(matchScore, S, O, subClaims, entities) <= |S| + |O|
    ensures |S| + |O| == 0 ==> CoverageLabel(matchScore, S, O, subClaims, entities) == HIGH
  {
  }

  /** With no sub-claims the pool is empty, so every claim entity is uncovered. */
  lemma CoverageWithoutSubClaims(matchScore: Scorer, S: seq<string>, O: seq<string>, entities: map<string, EntitySet>)
    ensures NonCoverage(matchScore, S, O, [], entities) == |S| + |O|
    ensures |S| + |O| > 0 ==> CoverageLabel(matchScore, S, O, [], entities) == LOW
  {
  }

  /**
   * Imperative form of the calculator: extend a list with every sub-claim's
   * subjects and objects, de-duplicate it into a set, then for each claim
   * entity scan the set (in no particular order) until the first match above
   * the coverage threshold; an entity with no match is not covered.
   */
  method CalculateCoverage(matchScore: Scorer, S: seq<string>, O: seq<string>, subClaims: seq<string>, entities: map<string, EntitySet>)
    returns (l: string)
    requires forall sc :: sc in subClaims ==> sc in entities
    ensures l == CoverageLevel(NonCoverage(matchScore, S, O, subClaims, entities), |S| + |O|)
    ensures l == HIGH <==> 4 * NonCoverage(matchScore, S, O, subClaims, entities) <= |S| + |O|
    ensures l == LOW <==> 3 * (|S| + |O|) < 4 * NonCoverage(matchScore, S, O, subClaims, entities)
  {
    var e: seq<string> := [];
    for idx := 0 to |subClaims|
      invariant e == PooledEntities(subClaims[..idx], entities)
    {
      assert subClaims[..idx + 1][..idx] == subClaims[..idx];
      var s_i := entities[subClaims[idx]].subjects;
      e := e + s_i;
      var o_i := entities[subClaims[idx]].objects;
      e := e + o_i;
    }
    assert subClaims[..|subClaims|] == subClaims;

    var pool := set x | x in e;
    assert pool == SubClaimPool(subClaims, entities);
    var E := S + O;
    var nonCoverage: nat := 0;
    for k := 0 to |E|
      invariant nonCoverage == CountUnmatched(matchScore, E[..k], pool, COVERAGE_THRESHOLD)
    {
      var e_i := E[k];
      var isCovered := false;
      var rest := pool;
      while rest != {}
        invariant rest <= pool
        invariant forall y :: y in pool - rest ==> matchScore(e_i, y) <= COVERAGE_THRESHOLD
        decreases |rest|
      {
        var e_j :| e_j in rest;
        if matchScore(e_i, e_j) > COVERAGE_THRESHOLD {
          isCovered := true;
          break;
        }
        rest := rest - {e_j};
      }
      assert isCovered == MatchedIn(matchScore, e_i, pool, COVERAGE_THRESHOLD);
      if !isCovered {
        nonCoverage := nonCoverage + 1;
      }
      assert E[..k + 1][..k] == E[..k];
    }
    assert E[..|E|] == E;

    if (nonCoverage as real) <= LOWER_FRACTION * ((|S| + |O|) as real) {
      l := HIGH;
    } else if (nonCoverage as real) <= UPPER_FRACTION * ((|S| + |O|) as real) {
      l := MEDIUM;
    } else {
      l := LOW;
    }
  }
}
