/** The best-so-far search that the parameter detectors and the frame-rate snap share:
  * scan candidates in order and keep a new one only when its error is strictly smaller. */
module Search {
  function Abs(x: real): (r: real)
    ensures r >= 0.0 && (r == x || r == -x)
  {
    if x < 0.0 then -x else x
  }

  /** `i` is the first position that holds the smallest error of the list. */
  predicate IsFirstMin(errs: seq<real>, i: nat)
  {
    i < |errs| &&
    (forall j :: 0 <= j < |errs| ==> errs[i] <= errs[j]) &&
    (forall j :: 0 <= j < i ==> errs[j] > errs[i])
  }

  /** The index a left-to-right scan with a strict `<` comparison ends on. */
  function FirstMinIndex(errs: seq<real>): (i: nat)
    requires |errs| > 0
    ensures IsFirstMin(errs, i)
  {
    if |errs| == 1 then 0
    else
      var k := FirstMinIndex(errs[..|errs| - 1]);
      if errs[|errs| - 1] < errs[k] then |errs| - 1 else k
  }

  /** Only one position is the first minimum. */
  lemma FirstMinUnique(errs: seq<real>, i: nat, j: nat)
    requires IsFirstMin(errs, i) && IsFirstMin(errs, j)
    ensures i == j
  {
    assert errs[i] == errs[j];
  }

  /** A position that repeats the error of an earlier one is never the first minimum. */
  lemma FirstMinNotATwin(errs: seq<real>, j: nat, d: nat)
    requires |errs| > 0 && 0 < d <= j < |errs| && errs[j] == errs[j - d]
    ensures !IsFirstMin(errs, j)
  {
  }
}
