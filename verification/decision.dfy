/**
 The decision rule of script.js's predict: a left-to-right scan that keeps
 the first strictly greater probability. Ties therefore go to the lowest
 index, and index 0 is where the scan starts.
 */
module Decision {

  /** The classifier's output: one probability per class, never empty. */
  type ProbVector = s: seq<real> | |s| > 0 witness [0.0]

  /**
   `k` is the first position of the largest value: it is in bounds, no value
   exceeds it, and every value before it is strictly smaller.
   */
  ghost predicate IsFirstMax(probs: seq<real>, k: int) {
    && 0 <= k < |probs|
    && (forall j :: 0 <= j < |probs| ==> probs[j] <= probs[k])
    && (forall j :: 0 <= j < k ==> probs[j] < probs[k])
  }

  /** At most one position is the first maximum. */
  lemma FirstMaxUnique(probs: seq<real>, k1: int, k2: int)
    requires IsFirstMax(probs, k1) && IsFirstMax(probs, k2)
    ensures k1 == k2
  {
    assert probs[k1] <= probs[k2] && probs[k2] <= probs[k1];
  }

  /** Reference definition of the decision: the scan written as a recursion on the prefix. */
  function FirstMax(probs: seq<real>): (k: nat)
    requires |probs| > 0
    ensures IsFirstMax(probs, k)
    decreases |probs|
  {
    if |probs| == 1 then 0
    else
      var prefix := probs[..|probs| - 1];
      var k := FirstMax(prefix);
      assert forall j :: 0 <= j < |prefix| ==> prefix[j] == probs[j];
      if probs[|probs| - 1] > probs[k] then |probs| - 1 else k
  }

  /** The scan of lines 84-92: returns the chosen index and its probability. */
  method ArgMax(probabilities: ProbVector) returns (maxIndex: nat, maxProb: real)
    ensures IsFirstMax(probabilities, maxIndex)
    ensures maxProb == probabilities[maxIndex]
    ensures maxIndex == FirstMax(probabilities)
  {
    maxIndex := 0;
    maxProb := probabilities[0];
    var i := 1;
    while i < |probabilities|
      invariant 1 <= i <= |probabilities|
      invariant maxIndex < i && maxProb == probabilities[maxIndex]
      invariant forall j :: 0 <= j < i ==> probabilities[j] <= maxProb
      invariant forall j :: 0 <= j < maxIndex ==> probabilities[j] < maxProb
    {
      if probabilities[i] > maxProb {
        maxProb := probabilities[i];
        maxIndex := i;
      }
      i := i + 1;
    }
    FirstMaxUnique(probabilities, maxIndex, FirstMax(probabilities));
  }

  /** Of two equal maximal probabilities the later one is never chosen. */
  lemma TieGoesToLowerIndex(probs: ProbVector, i: nat, j: nat)
    requires i < j < |probs| && probs[i] == probs[j]
    requires forall k :: 0 <= k < |probs| ==> probs[k] <= probs[j]
    ensures FirstMax(probs) <= i
  {
  }

  /** The reference decision picks `k` exactly when `k` is the first maximum. */
  lemma FirstMaxCharacterized(probs: ProbVector, k: nat)
    requires k < |probs|
    ensures FirstMax(probs) == k <==> IsFirstMax(probs, k)
  {
    if IsFirstMax(probs, k) {
      FirstMaxUnique(probs, k, FirstMax(probs));
    }
  }
}
