/** Models src/loaders/loader.ts: the base loader's option merge, its update dispatch, and the
    defaults every loader inherits. */
module Loader {
  import opened Wrappers
  import opened Errors

  /** What a loader hands back: where the text came from and the text itself. */
  datatype LoadResult = LoadResult(source: string, content: string)

  /** The events a loader emits, in emission order. */
  datatype LoaderEvent =
    | Updated(result: Option<LoadResult>)   // `updated`, carrying the new result (possibly absent)
    | UpdateFailed(error: Error)             // `updateFailed`, carrying the error
    | Changed(event: string, path: string)  // a file-system notification re-emitted under its own name

  /** `updateOptions`: a shallow merge in which the new keys win and unmentioned old keys stay. */
  function UpdateOptions<V>(current: map<string, V>, patch: map<string, V>): (r: map<string, V>)
    ensures r.Keys == current.Keys + patch.Keys
    ensures forall k :: k in patch ==> r[k] == patch[k]
    ensures forall k :: k in current && k !in patch ==> r[k] == current[k]
  {
    current + patch
  }

  /** Applying the same patch twice is the same as applying it once. */
  lemma UpdateOptionsIdempotent<V>(current: map<string, V>, patch: map<string, V>)
    ensures UpdateOptions(UpdateOptions(current, patch), patch) == UpdateOptions(current, patch)
  {
    var once := UpdateOptions(current, patch);
    var twice := UpdateOptions(once, patch);
    assert twice.Keys == once.Keys;
    forall k | k in once
      ensures twice[k] == once[k]
    {
      if k !in patch {
        assert once[k] == current[k];
      }
    }
  }

  /** The constructor starts from no options and merges the supplied ones, so it keeps them as given. */
  lemma ConstructedOptions<V>(supplied: map<string, V>)
    ensures UpdateOptions(map[], supplied) == supplied
  {
    var r := UpdateOptions(map[], supplied);
    assert r.Keys == supplied.Keys;
  }

  /** `updated(err, results)`: a present error emits only `updateFailed`; otherwise only `updated`. */
  function UpdatedEvents(err: Option<Error>, result: Option<LoadResult>): (r: seq<LoaderEvent>)
    ensures |r| == 1
    ensures err.Some? <==> r[0].UpdateFailed?
    ensures err.Some? ==> r[0].error == err.value
    ensures err.None? <==> r[0].Updated?
    ensures err.None? ==> r[0].result == result
  {
    match err
    case Some(e) => [UpdateFailed(e)]
    case None => [Updated(result)]
  }

  /** How a loader answers the three questions the load pipeline asks it about one identifier:
      whether a formatter is required, which formatter it suggests (`None` for `false`), and the
      outcome of loading. */
  datatype Behaviour = Behaviour(
    formatterRequired: bool,
    formatterSuggested: Result<Option<string>, Error>,
    load: Result<LoadResult, Error>)

  /** The base class: a formatter is required, none is suggested, and loading always fails. */
  function BaseBehaviour(identifier: string): (b: Behaviour)
    ensures b.formatterRequired
    ensures b.formatterSuggested == Ok(None)
    ensures b.load == Err(LoadNotImplemented)
  {
    Behaviour(true, Ok(None), Err(LoadNotImplemented))
  }
}
