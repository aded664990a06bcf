/**
 The fixed label table of script.js (line 4). The notebook that trained the
 classifier numbered its classes from 1, so index 0 holds an empty
 placeholder; the decision rule does not skip it.
 */
module Labels {

  const ClassNames: seq<string> :=
    ["", "cat", "airplane", "jail", "line", "alarm clock", "baseball", "baseball bat"]

  /**
   The text `${classNames[i]}` renders: the table entry, or "undefined" when a
   classifier with more outputs than labels picks an index past the table.
   */
  function LabelAt(i: nat): (name: string)
    ensures name == "" <==> i == 0
    ensures i < |ClassNames| ==> name in ClassNames
  {
    if i < |ClassNames| then ClassNames[i] else "undefined"
  }

  /** The table has eight entries and no label repeats, so a shown label names one index. */
  lemma LabelsDistinct(i: nat, j: nat)
    requires i < |ClassNames| && j < |ClassNames|
    ensures LabelAt(i) == LabelAt(j) <==> i == j
  {
  }
}
