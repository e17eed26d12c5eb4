# Automated claim-decomposition scores, modelled in Dafny

This project models the automated (not LLM-judged) scoring engine of the
factlens claim-decomposition evaluator. A factual claim is split into
sub-claims. Each text has an extracted set of subjects and objects. The engine
scores the decomposition on four axes:

- **atomicity**: per sub-claim, from how many subjects and objects it has;
- **fabrication**: per sub-claim, how many of its entities have no fuzzy match
  above 0.75 among the claim's subjects and objects;
- **coverage**: how many claim entities have no fuzzy match above 0.6 in the
  de-duplicated pool of all sub-claim entities;
- **redundancy**: how many position pairs of sub-claims have a semantic F1
  score above 0.85.

Counts are bucketed against a quarter and three quarters of a total. For
fabrication and redundancy the buckets are `low`, `medium` and `high`. For
coverage they are inverted: few misses give `high`. The per-sub-claim labels
are averaged with ordinal weights 1 to 3. An empty list averages to 1.

Modules, one per component:

- `Types` (types.dfy): entity sets, label strings, thresholds, the buckets
  `Level` and `CoverageLevel`, and `CountUnmatched`, the count of entities
  with no match in a pool.
- `Atomicity`, `Fabrication`, `Coverage` and `Redundancy`: one calculator each.
  Each loop of the source is a method, proved against a specification
  function. The properties of that function are lemmas.
- `Compound`: the two averaging aggregators.
- `Evaluator`: the orchestrator `Evaluate`.

The fuzzy entity matcher and the BERTScore scorer are parameters of type
`Scorer = (string, string) -> real`. Nothing is assumed about them. The
thresholds and bucket fractions are exact `real` constants. The integer form of
each bucket boundary (`4n <= t`, `4n <= 3t`) is proved as part of the bucket
functions' contracts.

Facts of the source that the model keeps:

- Atomicity puts every shape other than (1 subject, 1 object) and (1 subject,
  2 or more objects) into `non-atomic-2`, including no subjects and one subject
  with no objects (src/automated_evaluator.py:94-99).
- The aggregators weigh every label outside their vocabulary: 1 for atomicity
  (src/automated_evaluator.py:192), 3 for the metric aggregator
  (src/automated_evaluator.py:203).
- `evaluate` returns the two entity sets beside the score record, not inside
  it (src/automated_evaluator.py:232-239).
- The redundancy calculator takes the claim's entities and the entity map but
  never reads them (src/automated_evaluator.py:164-182), so
  `CalculateRedundancy` takes only the scorer and the sub-claims.

Specification functions. Each calculator method is proved equal to one of
these, and `Evaluate`'s contract is stated with them:

- `Types.Elements` is the de-duplication `set(e)` (src/automated_evaluator.py:145)
  and the membership test in `S+O` (src/automated_evaluator.py:107).
- `Types.CountUnmatched` with `Types.MatchedIn` is the flag-and-break scan
  that counts unmatched entities (src/automated_evaluator.py:108-124,
  148-155).
- `Fabrication.FabricationCount` is `num_fabrications`
  (src/automated_evaluator.py:106-124), and `Fabrication.FabricationLabel` is
  the whole calculator (src/automated_evaluator.py:101-131).
- `Coverage.PooledEntities` is the extend loop (src/automated_evaluator.py:138-143),
  and `Coverage.SubClaimPool` is its de-duplication
  (src/automated_evaluator.py:145).
- `Coverage.NonCoverage` is `non_coverage` (src/automated_evaluator.py:146-155),
  and `Coverage.CoverageLabel` is the whole calculator
  (src/automated_evaluator.py:133-162).
- `Redundancy.PositionPairs` and `Redundancy.Combinations` are
  `itertools.combinations(sub_claims, 2)` (src/automated_evaluator.py:169).
  `Redundancy.PairScores` is the list of F1 scores
  (src/automated_evaluator.py:170).
- `Redundancy.CountRedundant` and `Redundancy.NumRedundant` are
  `num_redundant` (src/automated_evaluator.py:172-175), and
  `Redundancy.RedundancyLabel` is the whole calculator
  (src/automated_evaluator.py:164-182).
- `Compound.AtomicitySum` and `Compound.MetricSum` are the accumulated `score`
  (src/automated_evaluator.py:190-192, 201-203). `Compound.Mean` is the
  empty-list fallback and the division (src/automated_evaluator.py:188-193,
  199-204).

## Model

| member | source | states |
|---|---|---|
| `Types.CountUnmatched` | src/automated_evaluator.py:106-124 | the number of unmatched entities is at most the number of entities, and equals it when the pool is empty |
| `Types.CountUnmatchedAppend` | src/automated_evaluator.py:106-124 | counting over subjects followed by objects adds the two counts |
| `Types.CountUnmatchedSingle` | src/automated_evaluator.py:108-115 | one entity adds exactly 1 iff no pool member matches it above the threshold, and otherwise adds 0, however many members match |
| `Types.CountUnmatchedExtremes` | src/automated_evaluator.py:148-155 | the count is 0 iff every entity is matched, and is the full length iff none is; duplicates are counted per occurrence |
| `Types.Level` | src/automated_evaluator.py:126-131 | `low` iff 4n <= total, `medium` iff total < 4n <= 3·total, `high` iff 4n > 3·total (both boundaries inclusive) |
| `Types.CoverageLevel` | src/automated_evaluator.py:157-162 | inverted polarity: `high` iff 4n <= total, `medium` in between, `low` iff 4n > 3·total |
| `Types.LevelOfEmptyTotal` | src/automated_evaluator.py:126-131 | with a zero total, a zero count gives the lowest label (coverage: `high`) and any positive count the highest (coverage: `low`) |
| `Atomicity.CalculateAtomicity` | src/automated_evaluator.py:90-99 | `atomic` iff exactly one subject and one object; `non-atomic-1` iff one subject and at least two objects; `non-atomic-2` iff the subject count is not 1 or there is no object |
| `Fabrication.FabricationCountBounds` | src/automated_evaluator.py:106-124 | the fabrication count is the unmatched count over the sub-claim's subjects followed by its objects, and lies in [0, \|s_i\|+\|o_i\|] |
| `Fabrication.FabricationOfEmptySubClaim` | src/automated_evaluator.py:106-131 | a sub-claim with no entities has count 0 and label `low`, whatever the claim |
| `Fabrication.FabricationOfEmptyClaim` | src/automated_evaluator.py:106-131 | with no claim entities every sub-claim entity is fabricated; the label is `low` for an empty sub-claim and `high` otherwise |
| `Fabrication.CalculateFabrication` | src/automated_evaluator.py:101-131 | the nested scan with early exit yields exactly the bucket of the fabrication count against \|S\|+\|O\|, including both integer boundary forms |
| `Coverage.PoolMembership` | src/automated_evaluator.py:138-145 | an entity is in the pool iff it is a subject or object of some sub-claim |
| `Coverage.CoverageDependsOnSubClaimSet` | src/automated_evaluator.py:138-162 | two sub-claim lists with the same members give the same pool and the same coverage label |
| `Coverage.NonCoverageBounds` | src/automated_evaluator.py:146-162 | 0 <= non-coverage <= \|S\|+\|O\|; a claim with no entities always gets `high` |
| `Coverage.CoverageWithoutSubClaims` | src/automated_evaluator.py:138-162 | with no sub-claims every claim entity is uncovered, so any claim entity gives `low` |
| `Coverage.CalculateCoverage` | src/automated_evaluator.py:133-162 | extending, de-duplicating and scanning the pool in any order yields exactly the inverted bucket of the non-coverage count |
| `Redundancy.PositionPairs` | src/automated_evaluator.py:169 | positions lo to n-1 give exactly m(m-1)/2 pairs for m = n-lo, each (a, b) with lo <= a < b < n, in lexicographic order |
| `Redundancy.PositionPairsComplete` | src/automated_evaluator.py:169 | every pair of positions a < b is enumerated |
| `Redundancy.PositionPairsDistinct` | src/automated_evaluator.py:169 | no pair of positions is enumerated twice |
| `Redundancy.Combinations` | src/automated_evaluator.py:169 | k sub-claims give exactly k(k-1)/2 pairs, one per enumerated position pair |
| `Redundancy.CombinationsScoreEveryPairOnce` | src/automated_evaluator.py:169-170 | for every positions a < b, exactly one entry is at (a, b), and it holds the sub-claims at a and b |
| `Redundancy.CountRedundant` | src/automated_evaluator.py:172-175 | the number of redundant scores is at most the number of scores |
| `Redundancy.CountRedundantAll` | src/automated_evaluator.py:172-175 | when every score is above 0.85 every score is counted |
| `Redundancy.CountRedundantNone` | src/automated_evaluator.py:172-175 | the count is 0 iff no score is above 0.85 |
| `Redundancy.RedundancyBounds` | src/automated_evaluator.py:169-182 | exactly k(k-1)/2 scores, so 0 <= redundant <= k(k-1)/2; fewer than two sub-claims give 0 and `low` |
| `Redundancy.AllPairsRedundant` | src/automated_evaluator.py:169-182 | if every position pair scores above 0.85 all k(k-1)/2 pairs count, and from three sub-claims on the label is `high` |
| `Redundancy.NoPairRedundant` | src/automated_evaluator.py:169-182 | if no pair of positions a < b scores above 0.85, the count is 0 and the label is `low` |
| `Redundancy.CalculateRedundancy` | src/automated_evaluator.py:164-182 | the counting loop yields exactly the bucket of the redundant-pair count against the number of sub-claims |
| `Compound.AtomicityWeight` | src/automated_evaluator.py:192 | weight in [1, 3]: 3 iff `atomic`, 2 iff `non-atomic-1`, 1 for anything else |
| `Compound.MetricWeight` | src/automated_evaluator.py:203 | weight in [1, 3]: 1 iff `low`, 2 iff `medium`, 3 for anything else |
| `Compound.AtomicitySum` | src/automated_evaluator.py:190-192 | the weighted sum lies in [len, 3·len] |
| `Compound.MetricSum` | src/automated_evaluator.py:201-203 | the weighted sum lies in [len, 3·len] |
| `Compound.MeanInRange` | src/automated_evaluator.py:188-204 | a sum in [len, 3·len] averages into [1, 3], and the empty fallback 1 is in range too |
| `Compound.UniformAtomicitySum` | src/automated_evaluator.py:190-192 | a list of one repeated label sums to length times that label's weight |
| `Compound.UniformMetricSum` | src/automated_evaluator.py:201-203 | a list of one repeated label sums to length times that label's weight |
| `Compound.MeanOfUniform` | src/automated_evaluator.py:193 | dividing length times a weight by the length gives the weight |
| `Compound.CompoundAtomicity` | src/automated_evaluator.py:184-193 | the loop's result is the mean of the weights (1 for an empty list), lies in [1, 3], and is the common weight for a uniform list |
| `Compound.CompoundMetric` | src/automated_evaluator.py:195-204 | the loop's result is the mean of the weights (1 for an empty list), lies in [1, 3], and is the common weight for a uniform list |
| `Compound.MetricExamples` | src/automated_evaluator.py:195-204 | [low, low] averages to 1, [high, high] to 3, [low, high] to 2 |
| `Evaluator.Evaluate` | src/automated_evaluator.py:206-239 | one fine-grained atomicity label, fabrication label and entity set per sub-claim, in order, each the calculator applied to that sub-claim; the claim's entity set returned unchanged; coverage, redundancy and both compound scores as specified, the scores in [1, 3] |

## Left out

- Entity extraction by a language model and its JSON parsing
  (src/automated_evaluator.py:26-58): `Evaluate` takes the extracted entities
  as a map from text to entity set. The map is keyed by text, so equal
  sub-claims share one entry. `Evaluate` requires an entry for the claim and
  for every sub-claim, which the extraction step always provides. A reply that
  is not JSON fails at `json.loads` (src/automated_evaluator.py:52) before any
  calculator runs; this failure is not modelled.
- `EntitySet` assumes every reply gives two lists of strings under `subjects`
  and `objects`. The source behaves differently on other well-formed JSON, and
  the model does not capture it:
  - a missing key raises `KeyError` at src/automated_evaluator.py:211-212 or
    220-221, after the calculators for earlier sub-claims have run;
  - a non-string entity makes `.lower()` raise inside a calculator
    (src/automated_evaluator.py:86);
  - a string in place of a list is counted and scanned character by character
    (src/automated_evaluator.py:94, 108).
- The Jaro-Winkler matcher with its `lower().strip()` normalisation
  (src/automated_evaluator.py:82-88), and the BERTScore model
  (src/automated_evaluator.py:170). Both are foreign libraries computing
  floats. They are arbitrary `Scorer` parameters, and no property of them
  (reflexivity, range) is assumed or claimed.
- Floating point: thresholds, bucket products and averages are exact reals.
  Python's float `0.6` and the float division `score/len` can differ from the
  exact values in the last bit, and that rounding is not modelled.
- Iteration order of `list(set(e))` (src/automated_evaluator.py:145): the pool is a
  set, scanned in an arbitrary order. The result is proved independent of the
  order.
- CSV and pandas I/O, progress bars, the per-row driver `evaluate_sub_claims`,
  the constructor and `main` (src/automated_evaluator.py:15-23, 60-80, 241-248):
  I/O plumbing.
- The LLM-judged scorer and the sub-claim generator (src/sub_claim_evaluator.py,
  src/sub_claim_generator.py, src/verifier.py, src/prompts.py): prompt
  templates and model calls. They are not part of this model. Their own
  averaging (with fallback 0) is a different rule from the aggregators
  modelled here.
