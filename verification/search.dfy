/**
 What both search strategies share: the result of a search and the order in
 which their termination tests are made.
 */
module Search {
  import opened Values
  import opened Scalar

  /** `TryGetModelResult` as the solvers return it; a success carries the
      model found. */
  datatype Outcome = Success(model: Model) | Timeout | NoModelFound

  /** The termination test: a valid model wins over a timeout, which wins
      over an exhausted fitness budget; `None` means "keep searching". */
  function Verdict(found: Option<Model>, timedOut: bool, evaluations: nat, budget: int): (r: Option<Outcome>)
    ensures r.Some? <==> found.Some? || timedOut || evaluations >= budget
    ensures found.Some? ==> r == Some(Success(found.value))
    ensures r.Some? && r.value.Success? ==> found == Some(r.value.model)
    ensures r == Some(Timeout) <==> found.None? && timedOut
    ensures r == Some(NoModelFound) <==> found.None? && !timedOut && evaluations >= budget
  {
    if found.Some? then Some(Success(found.value))
    else if timedOut then Some(Timeout)
    else if evaluations >= budget then Some(NoModelFound)
    else None
  }

  /** The first model of `models` the host accepts as a solution, scanning
      in order. */
  function FirstValid(models: seq<Model>, valid: Model -> bool): (r: Option<Model>)
    ensures r.Some? ==> r.value in models && valid(r.value)
    ensures r.Some? ==> exists k :: 0 <= k < |models| && models[k] == r.value
                          && forall j :: 0 <= j < k ==> !valid(models[j])
    ensures r.None? <==> forall k :: 0 <= k < |models| ==> !valid(models[k])
    decreases |models|
  {
    if |models| == 0 then None
    else if valid(models[0]) then Some(models[0])
    else
      var rest := FirstValid(models[1..], valid);
      assert forall k :: 1 <= k < |models| ==> models[k] == models[1..][k - 1];
      rest
  }
}
