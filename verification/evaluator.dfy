/**
 * The evaluation orchestrator: for one claim and its sub-claims, looks up the
 * extracted entities, runs the four calculators, aggregates the per-sub-claim
 * labels and assembles the result together with the entity sets it used.
 */
module Evaluator {
  import opened Types
  import opened Atomicity
  import opened Fabrication
  import opened Coverage
  import opened Redundancy
  import opened Compound

  /** The automated scores of one claim's decomposition. */
  datatype EvaluationResult = EvaluationResult(
    atomicity: real,
    atomicityFineGrained: seq<string>,
    fabrication: real,
    fabricationFineGrained: seq<string>,
    coverage: string,
    redundancy: string)

  /** Entity extraction has produced an entry for the claim and for every sub-claim text. */
  predicate Extracted(claim: string, subClaims: seq<string>, entities: map<string, EntitySet>)
  {
    claim in entities && forall sc :: sc in subClaims ==> sc in entities
  }

  /**
   * Evaluates one claim. Entity extraction is given as the map `entities`
   * from text to extracted subjects and objects (equal texts share one entry);
   * `matchScore` is the fuzzy entity matcher and `f1` the pairwise semantic
   * scorer. Returns the scores, the claim's entity set and the entity set of
   * each sub-claim in order.
   */
  method Evaluate(matchScore: Scorer, f1: Scorer, claim: string, subClaims: seq<string>, entities: map<string, EntitySet>)
    returns (result: EvaluationResult, claimEntity: EntitySet, subClaimEntity: seq<EntitySet>)
    requires Extracted(claim, subClaims, entities)
    ensures claimEntity == entities[claim]
    ensures |subClaimEntity| == |subClaims|
    ensures |result.atomicityFineGrained| == |subClaims|
    ensures |result.fabricationFineGrained| == |subClaims|
    ensures forall i :: 0 <= i < |subClaims| ==>
              && subClaimEntity[i] == entities[subClaims[i]]
              && result.atomicityFineGrained[i]
                 == CalculateAtomicity(entities[subClaims[i]].subjects, entities[subClaims[i]].objects)
              && result.fabricationFineGrained[i]
                 == FabricationLabel(matchScore, claimEntity.subjects, claimEntity.objects,
                                     entities[subClaims[i]].subjects, entities[subClaims[i]].objects)
    ensures result.coverage == CoverageLabel(matchScore, claimEntity.subjects, claimEntity.objects, subClaims, entities)
    ensures result.redundancy == RedundancyLabel(f1, subClaims)
    ensures result.atomicity == Mean(AtomicitySum(result.atomicityFineGrained), |subClaims|)
    ensures result.fabrication == Mean(MetricSum(result.fabricationFineGrained), |subClaims|)
    ensures 1.0 <= result.atomicity <= 3.0 && 1.0 <= result.fabrication <= 3.0
  {
    var S := entities[claim].subjects;
    var O := entities[claim].objects;
    claimEntity := EntitySet(S, O);

    var atomicityFineGrained: seq<string> := [];
    var fabricationFineGrained: seq<string> := [];
    subClaimEntity := [];

    for k := 0 to |subClaims|
      invariant |subClaimEntity| == |atomicityFineGrained| == |fabricationFineGrained| == k
      invariant forall i :: 0 <= i < k ==>
                  && subClaimEntity[i] == entities[subClaims[i]]
                  && atomicityFineGrained[i]
                     == CalculateAtomicity(entities[subClaims[i]].subjects, entities[subClaims[i]].objects)
                  && fabricationFineGrained[i]
                     == FabricationLabel(matchScore, S, O, entities[subClaims[i]].subjects, entities[subClaims[i]].objects)
    {
      var s_i := entities[subClaims[k]].subjects;
      var o_i := entities[subClaims[k]].objects;
      subClaimEntity := subClaimEntity + [EntitySet(s_i, o_i)];
      atomicityFineGrained := atomicityFineGrained + [CalculateAtomicity(s_i, o_i)];
      var fabrication := CalculateFabrication(matchScore, S, O, s_i, o_i);
      fabricationFineGrained := fabricationFineGrained + [fabrication];
    }

    var coverage := CalculateCoverage(matchScore, S, O, subClaims, entities);
    var redundancy := CalculateRedundancy(f1, subClaims);
    var atomicityScore := CompoundAtomicity(atomicityFineGrained);
    var fabricationScore := CompoundMetric(fabricationFineGrained);

    result := EvaluationResult(
      atomicityScore, atomicityFineGrained,
      fabricationScore, fabricationFineGrained,
      coverage, redundancy);
  }
}
