/** Request payloads: the form fields and query parameters the searches send. */
module Forms {
  import opened Outcomes
  import opened Strings

  /** Field names and their values. */
  type Payload = map<string, string>

  /** The payload with `df` set to the time limit, when one is given. */
  function WithTimelimit(payload: Payload, timelimit: Option<string>): (r: Payload)
    ensures IsNullOrEmpty(timelimit) ==> r == payload
    ensures !IsNullOrEmpty(timelimit) ==> r == payload["df" := timelimit.value]
  {
    if IsNullOrEmpty(timelimit) then payload else payload["df" := timelimit.value]
  }

  /** The names of a list of fields have no repetition. */
  predicate DistinctNames(pairs: seq<(string, string)>) {
    forall i, j :: 0 <= i < j < |pairs| ==> pairs[i].0 != pairs[j].0
  }

  /** `ToDictionary` over hidden form inputs: name to value, failing on a
      repeated name. */
  function ToDictionary(pairs: seq<(string, string)>): (r: Result<Payload>)
    ensures r.Ok? <==> DistinctNames(pairs)
    ensures r.Fail? ==> r.error == RuntimeError(DuplicateKey)
    ensures r.Ok? ==> forall i :: 0 <= i < |pairs| ==> pairs[i].0 in r.value && r.value[pairs[i].0] == pairs[i].1
    ensures r.Ok? ==> forall k :: k in r.value ==> exists i :: 0 <= i < |pairs| && pairs[i].0 == k
  {
    if pairs == [] then Ok(map[])
    else
      var last := pairs[|pairs| - 1];
      DistinctSnoc(pairs);
      var m :- ToDictionary(pairs[..|pairs| - 1]);
      if last.0 in m then Fail(RuntimeError(DuplicateKey)) else Ok(m[last.0 := last.1])
  }

  /** Names are distinct exactly when those before the last are and the last
      is none of them. */
  lemma DistinctSnoc(pairs: seq<(string, string)>)
    requires pairs != []
    ensures DistinctNames(pairs) <==>
              DistinctNames(pairs[..|pairs| - 1])
              && forall i :: 0 <= i < |pairs| - 1 ==> pairs[i].0 != pairs[|pairs| - 1].0
  {
    var init := pairs[..|pairs| - 1];
    assert forall i :: 0 <= i < |init| ==> init[i] == pairs[i];
  }

  /** The next request of the html and lite searches: the hidden inputs of
      the next-page form replace the whole payload; without any, the same
      payload is sent again. */
  function NextForm(payload: Payload, inputs: Option<seq<(string, string)>>): (r: Result<Payload>)
    ensures inputs.None? ==> r == Ok(payload)
    ensures inputs.Some? ==> r == ToDictionary(inputs.value)
  {
    match inputs
    case None => Ok(payload)
    case Some(pairs) => ToDictionary(pairs)
  }
}
