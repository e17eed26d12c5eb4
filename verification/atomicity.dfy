/** The atomicity calculator: classifies one sub-claim by its entity counts alone. */
module Atomicity {
  import opened Types

  /**
   * One subject and one object is atomic; one subject with several objects is
   * non-atomic-1; every other shape, including no subject at all or one
   * subject with no object, is non-atomic-2.
   */
  function CalculateAtomicity(subjects: seq<string>, objects: seq<string>): (l: string)
    ensures l == ATOMIC <==> |subjects| == 1 && |objects| == 1
    ensures l == NON_ATOMIC_1 <==> |subjects| == 1 && |objects| >= 2
    ensures l == NON_ATOMIC_2 <==> |subjects| != 1 || |objects| == 0
  {
    if |subjects| == 1 && |objects| == 1 then ATOMIC
    else if |subjects| == 1 && |objects| > 1 then NON_ATOMIC_1
    else NON_ATOMIC_2
  }
}
