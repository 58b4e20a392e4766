# BattleMetrics rank collector — Dafny model

This project models the scrape pipeline of the `battlemetrics` collector of the
srcds exporter. On every scrape the collector renders the BattleMetrics server list,
finds the JSON application state that the page embeds in
`<script id="storeBootstrap" type="application/json">…</script>`, decodes it, and
publishes one sample of the gauge `<namespace>_battlemetrics_rank` (the `rank` gauge
of subsystem `battlemetrics`), labelled `server="<name>"` with the rank as its value,
for every server listed in `state.servers.servers`.

The model has seven modules:

- `Wrappers` (`wrappers.dfy`): the `Option` datatype. `None` stands for "no match" from
  the extractor and for "decoding failed" from the decoder.
- `StateExtractor` (`extractor.dfy`): the regular expression
  `<script id="storeBootstrap" type="application/json">(.+?)</script>` and Go's
  `FindSubmatch` on it. The matching rules are predicates: `MatchAt` (one match at a
  start and capture end), `FirstMatch` (leftmost start, then shortest non-empty capture,
  with `.` never matching a line feed) and `NoMatch`. `Extract` is an executable search,
  and its contract says it returns exactly the capture of the first match.
- `ExtractorProperties` (`extractor_properties.dfy`): the round trip for a page built
  around one payload, plus the edge cases. These are: no marker, an empty capture, a
  `</script>` straight after the opening tag, and a line feed in the payload.
- `Schema` (`schema.dfy`): the decoded state reduced to the server map, where each
  server keeps only its name and its rank. The rank is a Go `int`, which the model
  assumes is 64 bits wide. On a 32-bit build a larger rank fails to decode, a case the
  uninterpreted `decode` already allows. It also holds the Go zero
  value of the state.
- `Fetcher` (`fetch.dfy`): `fetch` as a function of the rendered page. JSON decoding is
  the function parameter `decode`.
- `Metrics` (`metrics.dfy`) and `Collector` (`collector.dfy`): the projection loop and
  the error propagation of `Update`. Go ranges over a map in an unspecified order, so the
  loop gets that order as a parameter (`IsIterationOrder`). Its result is specified as a
  multiset, `Image`, which does not depend on the order.

`fetch` does not turn a missing marker or a malformed payload into a scrape error.
It logs both cases and returns the zero state with a nil error, so `Update` succeeds
with no samples, and such a scrape cannot be told apart from one whose state lists no
servers. The model follows the code (`Fetch`, `Update`, `NotFoundLooksEmpty`).

## Model

| member | source | states |
|---|---|---|
| `StateExtractor.FindEnd` | collector/battlemetrics.go:25 | The lazy `(.+?)</script>` tail: it returns the first end of at least one character after the capture start such that `</script>` follows and no line feed comes before it. When it returns none, no such end exists. |
| `StateExtractor.FindStart` | collector/battlemetrics.go:386 | The leftmost start that admits a match: the returned start matches, no earlier start admits any match, and the returned end is the shortest for that start. When it returns none, no start at or after the given index matches. |
| `StateExtractor.FirstMatchUnique` | collector/battlemetrics.go:25 | The leftmost-shortest match is unique, so the capture `FindSubmatch` reports is well defined. |
| `StateExtractor.Extract` | collector/battlemetrics.go:386-387 | It returns none exactly when the pattern matches nowhere. Otherwise the capture is non-empty and free of line feeds, and the page holds the opening marker, then the capture, then `</script>`. A first match then exists, and the capture is its text; and whenever a first match exists, the result is its capture. |
| `ExtractorProperties.SinglePayloadFirstMatch` | collector/battlemetrics.go:386 | For the page `prefix + open + p + "</script>" + rest`, under the same conditions as the round trip, the leftmost-shortest match starts right after `prefix` and its capture ends right after `p`. |
| `ExtractorProperties.ExtractRoundTrip` | collector/battlemetrics.go:25 | Take a page `prefix + open + p + "</script>" + rest` where `prefix` has no opening marker and `p` is non-empty, line-feed-free and has no `</script>` after its first character. Then `Extract` returns exactly `p`, whatever `rest` contains. |
| `ExtractorProperties.NoMarkerNoPayload` | collector/battlemetrics.go:387-391 | A page without the opening marker yields no payload. |
| `ExtractorProperties.EmptyCaptureRejected` | collector/battlemetrics.go:25 | The opening marker directly followed by `</script>` does not match, because `.+?` needs at least one character. |
| `ExtractorProperties.CloseRightAfterOpen` | collector/battlemetrics.go:25 | With `</script></script>` after the opening marker, the first closing tag cannot end an empty capture. The capture is therefore `</script>` itself. |
| `ExtractorProperties.NewlineInPayloadRejected` | collector/battlemetrics.go:25 | A payload made only of a line feed is not found, because `.` does not match `\n` without the `s` flag. |
| `Fetcher.Fetch` | collector/battlemetrics.go:382-404 | The error is always nil. The state is either the zero state or exactly what the extracted payload decodes to, never a partial decode. No match gives the zero state. A first-match payload that fails to decode gives the zero state. One that decodes gives the decoded state. |
| `Metrics.ImageCount` | collector/battlemetrics.go:49-58 | No filtering or deduplication: each sample occurs in the image as often as there are server entries with that name and rank. |
| `Metrics.ImageSize` | collector/battlemetrics.go:49-58 | The image holds exactly one sample per server entry. |
| `Metrics.ImageInsert` | collector/battlemetrics.go:49-58 | Adding a server under a new id adds exactly one sample, labelled with its name and valued at its rank. |
| `Metrics.Emit` | collector/battlemetrics.go:49-58 | For any order in which Go may range over the map, the samples sent number one per entry and form exactly the multiset image of the map's values. |
| `Collector.Collect` | collector/battlemetrics.go:45-59 | An error from `fetch` comes back unchanged with no samples emitted. Otherwise the error is nil and the samples are the image of the fetched server map. |
| `Collector.Update` | collector/battlemetrics.go:44-60 | The scrape never reports an error. With no marker, or with a payload that does not decode, it emits no samples. With a decoded payload, it emits exactly the image of the decoded server map. |
| `Collector.NotFoundLooksEmpty` | collector/battlemetrics.go:383-403 | A page without the embedded state gives the same fetch outcome as a page whose state lists no servers: the zero state and a nil error. |
| `Collector.TwoServersScenario` | collector/battlemetrics.go:44-60 | A page `prefix + open + payload + "</script>" + rest`, under the round trip's conditions on `prefix` and `payload`, whose payload decodes to servers `s1` (Alpha, 1) and `s2` (Beta, 12) yields exactly two samples: `server=Alpha` with value 1 and `server=Beta` with value 12. |

## Left out

- The headless render (`gez`, `GetRendered`, the RFC 2616 cache policy, the 10 s timeout, the domain allow-list): this is network and browser I/O. `Fetch` takes the rendered page as its argument.
- The `doneChan` handshake between the render callback and `fetch`: this is goroutine synchronisation. `Fetch` is a direct function of the page. A render that never calls back would leave `fetch` blocked, and that is not modelled.
- `encoding/json.Unmarshal`: it is the uninterpreted parameter `decode`. Only the server map with each server's `name` and `rank` is kept. The other schema fields (`gtRules` and the unused nested structs) are never read.
- Prometheus plumbing (`NewDesc`, `BuildFQName`, `MustNewConstMetric`, the channel send): a sample is its `server` label and its value. The metric's fully qualified name is left out because `Namespace` is defined in a file that is not part of this model.
- Sample values: the value is the integer rank, not `float64(server.Rank)`. Ranks beyond 2^53 would be rounded in the source.
- The regular expression runs over characters, not UTF-8 bytes. Go's handling of invalid UTF-8 (each bad byte read as U+FFFD) is not modelled.
- `logrus` logging and the `init` registration into `Factories` (defined in a file that is not part of this model).
- `NewBattleMetricsCollector`: it only builds an empty descriptor slice and has no behaviour.
- The test file `collector/battlemetrics_test.go`: it needs network access and a browser. It calls `fetch()` without the argument `fetch` takes. `models/player.go` is a plain struct with no behaviour.
