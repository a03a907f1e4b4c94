/** Byte strings and the two searches that the Go standard library provides. */
module Bytes {

  type Byte = b: int | 0 <= b < 256

  type Text = seq<Byte>

  /** Position of the first occurrence of `b`, or -1. */
  function IndexByte(data: Text, b: Byte): (i: int)
    ensures -1 <= i < |data|
    ensures i >= 0 ==> data[i] == b
    ensures forall k :: 0 <= k < (if i < 0 then |data| else i) ==> data[k] != b
  {
    if data == [] then -1
    else if data[0] == b then 0
    else
      var rest := IndexByte(data[1..], b);
      if rest < 0 then -1 else rest + 1
  }

  /** Position of the last occurrence of `b`, or -1. */
  function LastIndexByte(data: Text, b: Byte): (i: int)
    ensures -1 <= i < |data|
    ensures i >= 0 ==> data[i] == b
    ensures forall k :: i < k < |data| ==> data[k] != b
  {
    if data == [] then -1
    else if data[|data| - 1] == b then |data| - 1
    else LastIndexByte(data[..|data| - 1], b)
  }
}
