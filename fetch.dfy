/** Server replies as seen by the client-side caches.

    A cache never performs a request itself here: the outcome of the awaited
    `$fetch` call is handed to each operation as a `Reply`. A successful reply
    carries the decoded JSON body; a failed one carries what the caches read
    of the thrown error, its optional `data.message`.
 */
module Fetch {

  datatype Option<+T> = None | Some(value: T)

  /** What the caches read of a thrown fetch error: `e.data?.message`. */
  datatype FetchError = FetchError(message: Option<string>)

  /** The outcome of one awaited request. An operation that rethrows its
      error returns the same `Failed` value it was given. */
  datatype Reply<+T> = Ok(value: T) | Failed(error: FetchError)

  /** The fallback text that `load` stores when the error has no message. */
  const DefaultLoadError: string := "Erreur de chargement"

  /** `e.data?.message || 'Erreur de chargement'`: an absent or empty message
      falls back to the default text, so the stored error is never empty. */
  function LoadErrorText(e: FetchError): (t: string)
    ensures t != ""
    ensures t == DefaultLoadError || e.message == Some(t)
    ensures e.message.Some? && e.message.value != "" ==> t == e.message.value
  {
    match e.message
    case Some(m) => if m != "" then m else DefaultLoadError
    case None => DefaultLoadError
  }

  /** `xs || []` on an array-valued field of a reply: absent means empty
      (an empty array is truthy in JavaScript, so it is kept as it is). */
  function OrEmpty<T>(xs: Option<seq<T>>): (r: seq<T>)
    ensures xs.Some? ==> r == xs.value
    ensures xs.None? ==> r == []
  {
    match xs
    case Some(s) => s
    case None => []
  }
}
