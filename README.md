# Metrics server core in Dafny

A model of the core of a small Go metrics-ingestion server (`cmd/server/main.go`).
The server accepts `POST /update/{type}/{name}/{value}` and keeps two kinds of metric
in memory:

- **counters**: a name maps to a signed 64-bit running sum, and every update adds a delta;
- **gauges**: a name maps to the last value written.

The model has five modules:

- `Int64Arith` (`int64.dfy`): Go's `int64` as a subset of `int`, with the wrap-around of `+` written out (`Wrap`, `Add`).
- `Strconv` (`strconv.dfy`): `strconv.ParseInt(s, 10, 64)` as a function over strings. `FormatInt` is its inverse and is used to state the round trip.
- `Storage` (`storage.dfy`): the `InMemStorage` class, whose two `map` fields are updated in place by `UpdateCounter` and `UpdateGauge`. Beside it are the value-level functions that specify those methods (`AddToCounter`, `SetGauge`), their folds over many updates (`ApplyDeltas`, `ApplyGaugeWrites`) and lemmas about them.
- `Handler` (`handler.dfy`): the route handler's body with the HTTP plumbing removed. `Decide` classifies (kind, name, raw value) into `Ok | NotFound | BadRequest` and names the one store mutation to apply, if any. `HandleUpdate` runs the same checks in the same order as the Go closure against a store, and is proved to do what `Decide` says.
- `Wrappers` (`wrappers.dfy`): `Option`.

The gauge value (a Go `float64`) is the type parameter `G`, because the store only keeps it. `strconv.ParseFloat` is the parameter `parseFloat: string -> Option<G>`.

## Model

| member | source | states |
|---|---|---|
| `Int64Arith.Add` | cmd/server/main.go:34 | `+=` on int64 gives the exact sum when it fits, and otherwise the sum shifted by 2^64 (two's-complement wrap-around) |
| `Int64Arith.Wrap` | cmd/server/main.go:16 | the result is an int64 congruent to the input modulo 2^64, and equals the input when the input is already in range |
| `Int64Arith.AddAssociative` | cmd/server/main.go:34 | wrapping addition is associative, so the grouping of counter deltas does not change the total |
| `Strconv.ParseInt` | cmd/server/main.go:62 | anything accepted is an optional `+`/`-` followed by one or more ASCII digits and nothing else, and a negative result comes only after a `-` |
| `Strconv.ParseFormatRoundTrip` | cmd/server/main.go:62 | every int64 written in decimal parses back to itself |
| `Strconv.ParseSignedDigits` | cmd/server/main.go:62 | for every digit string d: `d` and `+d` parse to d's value iff it is at most 2^63-1, and `-d` parses to its negation iff the value is at most 2^63; otherwise the result is an error |
| `Strconv.ParseIntRejects` | cmd/server/main.go:62-66 | the empty string, a lone sign, letters, `1.5`, surrounding blanks and underscores are all parse errors |
| `Strconv.ParseIntAccepts` | cmd/server/main.go:62-63 | `42`, `+42`, `-42` and `007` parse to 42, 42, -42 and 7 |
| `Strconv.ParseIntRangeEnds` | cmd/server/main.go:62 | both ends of the int64 range parse, and one past either end is rejected |
| `Storage.AddToCounter` | cmd/server/main.go:34 | the name is added to the keys; its value becomes the old value (0 if absent) plus the delta, wrapped; every other counter keeps its value |
| `Storage.SetGauge` | cmd/server/main.go:42 | the name is added to the keys and holds exactly the new value; every other gauge keeps its value |
| `Storage.ApplyDeltasClosedForm` | cmd/server/main.go:30-36 | applying deltas d1..dn one update at a time leaves the counter at its old value plus d1+...+dn, wrapped, and changes no other counter |
| `Storage.CounterIsWrappedSum` | cmd/server/main.go:30-36 | starting from the empty store, a counter equals the wrapped sum of every delta applied to it, which is 0 when no delta was applied |
| `Storage.SumPermutation` | cmd/server/main.go:34 | the sum of a set of deltas is the same in every order |
| `Storage.ApplyDeltasOrderIndependent` | cmd/server/main.go:30-36 | applying the same deltas to one counter in any order leaves the same counters map |
| `Storage.ApplyGaugeWritesLastWins` | cmd/server/main.go:38-44 | writing v1..vn to a gauge leaves vn (the last write wins), and changes no other gauge |
| `Storage.InMemStorage.constructor` | cmd/server/main.go:23-28 | a new store has empty counters and empty gauges |
| `Storage.InMemStorage.UpdateCounter` | cmd/server/main.go:30-36 | the counters map becomes `AddToCounter` of the old one; gauges are unchanged; the returned error is always nil |
| `Storage.InMemStorage.UpdateGauge` | cmd/server/main.go:38-44 | the gauges map becomes `SetGauge` of the old one; counters are unchanged; the returned error is always nil |
| `Handler.Decide` | cmd/server/main.go:55-75 | the outcome is Ok exactly when a mutation is chosen. NotFound happens exactly when the name is empty. A counter add is chosen exactly for a non-empty name, kind `counter` and a value ParseInt accepts, and it carries that name and the parsed delta. A gauge set is chosen likewise for kind `gauge` and a value ParseFloat accepts. Every other case is BadRequest with no mutation |
| `Handler.RejectionChangesNothing` | cmd/server/main.go:55-75 | a rejected update (NotFound or BadRequest) changes neither map; an accepted one leaves at least one of the two maps as it was |
| `Handler.ParseFloatOnlyForGauges` | cmd/server/main.go:60-75 | outside the gauge kind the float parser is never consulted, and for an unknown kind the raw value does not affect the outcome |
| `Handler.HandleUpdate` | cmd/server/main.go:51-75 | the returned status is Decide's status, and the store's counters and gauges become exactly those of Decide's mutation applied to the old store |
| `Handler.DecideExamples` | cmd/server/main.go:55-74 | `counter/hits/42` is Ok and adds 42 to `hits`; an empty name is NotFound; `notanumber` and `1.5` as counter values and the kinds `unknown` and `histogram` are BadRequest with no mutation |

## Left out

- The HTTP server: the mux, the route pattern, `PathValue` extraction, writing the error responses, `ListenAndServe` and `log.Fatal` (cmd/server/main.go:46-53, 78-81). The model takes the three path values as strings and returns the outcome class instead of writing a response. Whether the router ever passes an empty name is the router's business; the model keeps the handler's own check.
- The two mutexes (cmd/server/main.go:17, 20, 31-32, 39-40). They only serialise each read-modify-write. The model is the sequential behaviour they enforce, so interleavings are not modelled.
- Floating point: gauge values are an opaque type `G`. `strconv.ParseFloat` is an arbitrary function `string -> Option<G>` given as a parameter, so its literal grammar, rounding, NaN and infinities are not modelled.
- Go's `error` values are modelled as `Option<string>`. `UpdateCounter` and `UpdateGauge` always return `None`, and the handler discards it as the Go code does.
