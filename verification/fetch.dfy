/** `fetch`: the outcome of one scrape, as a function of the page the renderer
    delivered. The renderer call and the channel that waits for its callback are
    not part of this model; JSON decoding is the parameter `decode`. */
module Fetcher {
  import opened Wrappers
  import opened StateExtractor
  import opened Schema

  /** A Go `error` value other than nil. */
  datatype FetchError = FetchError(message: string)

  /** The pair `(gameTrackerState, error)` that `fetch` returns; `err == None` is nil. */
  datatype Fetched = Fetched(state: State, err: Option<FetchError>)

  /** The parse callback applied to the rendered page: find the embedded state, decode
      it, and keep it only if decoding succeeded. A missing marker and a decoding
      failure are only logged, so both leave the zero state, and the error is always nil. */
  function Fetch(page: string, decode: string -> Option<State>): (r: Fetched)
    ensures r.err == None
    ensures r.state == ZeroState || exists payload :: Extract(page) == Some(payload) && decode(payload) == Some(r.state)
    ensures NoMatch(page) ==> r.state == ZeroState
    ensures forall i, j :: FirstMatch(page, i, j) && decode(page[i + |Open|..j]).None? ==> r.state == ZeroState
    ensures forall i, j :: FirstMatch(page, i, j) && decode(page[i + |Open|..j]).Some? ==>
              r.state == decode(page[i + |Open|..j]).value
  {
    var result :=
      match Extract(page)
      case None => ZeroState
      case Some(payload) =>
        match decode(payload)
        case None => ZeroState
        case Some(state) => state;
    Fetched(result, None)
  }
}
