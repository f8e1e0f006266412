/** What a request's database calls answer, in the order it makes them. */
module Calls {

  /** `Error`: the call answered an error; `committed`: its work is in the database all the same. */
  datatype Reply = Yes(text: string) | Held | No | Error(committed: bool)

  /** The answer to call `k`; a script that ran out answers nothing. */
  function At(script: seq<Reply>, k: nat): Reply { if k < |script| then script[k] else No }

  ghost predicate NoErrors(script: seq<Reply>) { forall r :: r in script ==> !r.Error? }

  /** None of the `n` calls from `k` on answers an error. */
  ghost predicate NoErrorIn(script: seq<Reply>, k: nat, n: nat) {
    forall j: nat :: k <= j < k + n ==> !At(script, j).Error?
  }

  /** From call `k` on no call answers an error. */
  ghost predicate NoErrorFrom(script: seq<Reply>, k: nat) { forall j: nat :: k <= j ==> !At(script, j).Error? }
}
