/** `battleMetricsCollector.Update`: fetch the state, return the fetch error if there is
    one, otherwise emit one sample per server entry. */
module Collector {
  import opened Wrappers
  import opened StateExtractor
  import opened ExtractorProperties
  import opened Schema
  import opened Fetcher
  import opened Metrics

  /** The body of `Update` after the call to `fetch`: an error is returned unchanged and
      nothing is emitted; otherwise every server entry is emitted, in `order`. */
  method Collect(fetched: Fetched, order: seq<string>) returns (samples: seq<Sample>, err: Option<FetchError>)
    requires fetched.err.None? ==> IsIterationOrder(order, fetched.state.servers)
    ensures fetched.err.Some? ==> err == fetched.err && samples == []
    ensures fetched.err.None? ==> err.None? && multiset(samples) == Image(fetched.state.servers)
  {
    if fetched.err.Some? {
      return [], fetched.err;
    }
    samples := Emit(fetched.state.servers, order);
    err := None;
  }

  /** One scrape of the rendered `page`. Because `fetch` never reports an error, the
      scrape never fails: a page without the embedded state and a payload that does not
      decode both yield no samples, and a decoded payload yields one sample per server. */
  method Update(page: string, decode: string -> Option<State>, order: seq<string>)
      returns (samples: seq<Sample>, err: Option<FetchError>)
    requires IsIterationOrder(order, Fetch(page, decode).state.servers)
    ensures err.None?
    ensures NoMatch(page) ==> samples == []
    ensures forall i, j :: FirstMatch(page, i, j) && decode(page[i + |Open|..j]).None? ==> samples == []
    ensures forall i, j :: FirstMatch(page, i, j) && decode(page[i + |Open|..j]).Some? ==>
              multiset(samples) == Image(decode(page[i + |Open|..j]).value.servers)
  {
    var fetched := Fetch(page, decode);
    samples, err := Collect(fetched, order);
    if fetched.state == ZeroState {
      assert |multiset(samples)| == 0;
    }
  }

  /** A missing marker is reported exactly like a page whose state lists no servers:
      the zero state with a nil error. */
  lemma NotFoundLooksEmpty(page: string, decode: string -> Option<State>,
                           page': string, decode': string -> Option<State>)
    requires NoMatch(page)
    requires Fetch(page', decode').state.servers == map[]
    ensures Fetch(page, decode) == Fetch(page', decode')
  {
  }

  /** The two-server scenario: a page, inside any surrounding HTML, whose embedded state
      decodes to the servers `s1` (Alpha, rank 1) and `s2` (Beta, rank 12) is projected to
      exactly the two samples `server = Alpha` with value 1 and `server = Beta` with value 12. */
  lemma TwoServersScenario(prefix: string, payload: string, rest: string, decode: string -> Option<State>)
    requires forall i :: !OccursAt(prefix, i, Open)
    requires |payload| > 0 && NewlineFree(payload)
    requires forall k :: 1 <= k ==> !OccursAt(payload, k, Close)
    requires decode(payload) == Some(State(map["s1" := Server("Alpha", 1), "s2" := Server("Beta", 12)]))
    ensures Image(Fetch(prefix + Open + payload + Close + rest, decode).state.servers)
            == multiset{Sample("Alpha", 1), Sample("Beta", 12)}
  {
    ExtractRoundTrip(prefix, payload, rest);
    var m0: map<string, Server> := map[];
    var m1 := m0["s1" := Server("Alpha", 1)];
    assert Image(m0) == multiset{};
    ImageInsert(m0, "s1", Server("Alpha", 1));
    ImageInsert(m1, "s2", Server("Beta", 12));
    assert m1["s2" := Server("Beta", 12)] == map["s1" := Server("Alpha", 1), "s2" := Server("Beta", 12)];
  }
}
