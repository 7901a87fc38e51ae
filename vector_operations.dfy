/** Element-wise addition and subtraction of equally long vectors. */
module VectorOperations {
  import opened Wrappers

  const LengthMismatch := "Vectors must have the same length"

  function AddVectors(v1: seq<real>, v2: seq<real>): (r: Result<seq<real>>)
    ensures r.Failure? <==> |v1| != |v2|
    ensures r.Failure? ==> r.error == ValueError(LengthMismatch)
    ensures r.Success? ==> |r.value| == |v1| && forall i :: 0 <= i < |v1| ==> r.value[i] == v1[i] + v2[i]
  {
    if |v1| != |v2| then Failure(ValueError(LengthMismatch))
    else Success(seq(|v1|, i requires 0 <= i < |v1| => v1[i] + v2[i]))
  }

  function SubtractVectors(v1: seq<real>, v2: seq<real>): (r: Result<seq<real>>)
    ensures r.Failure? <==> |v1| != |v2|
    ensures r.Failure? ==> r.error == ValueError(LengthMismatch)
    ensures r.Success? ==> |r.value| == |v1| && forall i :: 0 <= i < |v1| ==> r.value[i] == v1[i] - v2[i]
  {
    if |v1| != |v2| then Failure(ValueError(LengthMismatch))
    else Success(seq(|v1|, i requires 0 <= i < |v1| => v1[i] - v2[i]))
  }

  /** Subtracting what was added gives back the first vector. */
  lemma SubtractUndoesAdd(v1: seq<real>, v2: seq<real>)
    requires |v1| == |v2|
    ensures AddVectors(v1, v2).Success?
    ensures SubtractVectors(AddVectors(v1, v2).value, v2) == Success(v1)
  {
    var s := AddVectors(v1, v2).value;
    assert SubtractVectors(s, v2).value == v1;
  }

  /** The module's own example: [1,2,3] + [4,5,6] and [1,2,3] - [4,5,6]. */
  lemma Example()
    ensures AddVectors([1.0, 2.0, 3.0], [4.0, 5.0, 6.0]) == Success([5.0, 7.0, 9.0])
    ensures SubtractVectors([1.0, 2.0, 3.0], [4.0, 5.0, 6.0]) == Success([-3.0, -3.0, -3.0])
  {
    assert AddVectors([1.0, 2.0, 3.0], [4.0, 5.0, 6.0]).value == [5.0, 7.0, 9.0];
    assert SubtractVectors([1.0, 2.0, 3.0], [4.0, 5.0, 6.0]).value == [-3.0, -3.0, -3.0];
  }
}
