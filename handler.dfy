/**
 * The body of the `POST /update/{type}/{name}/{value}` handler, with the HTTP
 * plumbing taken off: three strings in, one of three outcomes out, and at most
 * one store mutation. `strconv.ParseFloat` is the parameter parseFloat.
 */
module Handler {
  import opened Wrappers
  import opened Int64Arith
  import opened Strconv
  import opened Storage

  const CounterMetricType: string := "counter"
  const GaugeMetricType: string := "gauge"

  /** The response class: 200 (nothing written), 404 "Not found" or 400 "Bad request". */
  datatype Status = Ok | NotFound | BadRequest

  /** The store operation an update asks for, if any. */
  datatype Mutation<G> = NoMutation | CounterAdd(name: string, delta: Int64) | GaugeSet(name: string, value: G)

  datatype Decision<G> = Decision(status: Status, mutation: Mutation<G>)

  /**
   * What the handler decides for (kind, name, raw value): the empty name is
   * checked first, then the kind, then the value is parsed for that kind.
   */
  function Decide<G>(kind: string, name: string, raw: string, parseFloat: string -> Option<G>): (r: Decision<G>)
    ensures r.status == Ok <==> !r.mutation.NoMutation?
    ensures r.status == NotFound <==> name == ""
    ensures r.mutation.CounterAdd? <==> name != "" && kind == CounterMetricType && ParseInt(raw).Some?
    ensures r.mutation.CounterAdd? ==> r.mutation.name == name && ParseInt(raw) == Some(r.mutation.delta)
    ensures r.mutation.GaugeSet? <==> name != "" && kind == GaugeMetricType && parseFloat(raw).Some?
    ensures r.mutation.GaugeSet? ==> r.mutation.name == name && parseFloat(raw) == Some(r.mutation.value)
  {
    if name == "" then Decision(NotFound, NoMutation)
    else if kind == CounterMetricType then
      match ParseInt(raw)
      case Some(v) => Decision(Ok, CounterAdd(name, v))
      case None => Decision(BadRequest, NoMutation)
    else if kind == GaugeMetricType then
      match parseFloat(raw)
      case Some(v) => Decision(Ok, GaugeSet(name, v))
      case None => Decision(BadRequest, NoMutation)
    else Decision(BadRequest, NoMutation)
  }

  /** The counters map once a mutation is applied. */
  function ApplyToCounters<G>(counters: map<string, Int64>, m: Mutation<G>): map<string, Int64>
  {
    match m
    case CounterAdd(name, delta) => AddToCounter(counters, name, delta)
    case _ => counters
  }

  /** The gauges map once a mutation is applied. */
  function ApplyToGauges<G>(gauges: map<string, G>, m: Mutation<G>): map<string, G>
  {
    match m
    case GaugeSet(name, value) => SetGauge(gauges, name, value)
    case _ => gauges
  }

  /** A rejected update leaves both maps as they were; an accepted one leaves at least one of the two maps as it was. */
  lemma RejectionChangesNothing<G>(counters: map<string, Int64>, gauges: map<string, G>,
                                   kind: string, name: string, raw: string, parseFloat: string -> Option<G>)
    ensures var d := Decide(kind, name, raw, parseFloat);
      d.status != Ok ==> ApplyToCounters(counters, d.mutation) == counters && ApplyToGauges(gauges, d.mutation) == gauges
    ensures var d := Decide(kind, name, raw, parseFloat);
      d.status == Ok ==> (ApplyToCounters(counters, d.mutation) == counters || ApplyToGauges(gauges, d.mutation) == gauges)
  {
  }

  /** Only the gauge branch consults ParseFloat; for an unknown kind the value is not looked at at all. */
  lemma ParseFloatOnlyForGauges<G>(kind: string, name: string, raw: string, raw': string,
                                   p: string -> Option<G>, p': string -> Option<G>)
    ensures kind != GaugeMetricType ==> Decide(kind, name, raw, p) == Decide(kind, name, raw, p')
    ensures kind != GaugeMetricType && kind != CounterMetricType ==> Decide(kind, name, raw, p) == Decide(kind, name, raw', p')
  {
  }

  /** The handler: the same checks in the same order as Go's closure, applying at most one store update. */
  method HandleUpdate<G>(store: InMemStorage<G>, kind: string, name: string, raw: string, parseFloat: string -> Option<G>)
    returns (status: Status)
    modifies store
    ensures status == Decide(kind, name, raw, parseFloat).status
    ensures store.counters == ApplyToCounters(old(store.counters), Decide(kind, name, raw, parseFloat).mutation)
    ensures store.gauges == ApplyToGauges(old(store.gauges), Decide(kind, name, raw, parseFloat).mutation)
  {
    if name == "" {
      return NotFound;
    }
    if kind == CounterMetricType {
      var value := ParseInt(raw);
      if value.Some? {
        var _ := store.UpdateCounter(name, value.value);
        status := Ok;
      } else {
        status := BadRequest;
      }
    } else if kind == GaugeMetricType {
      var value := parseFloat(raw);
      if value.Some? {
        var _ := store.UpdateGauge(name, value.value);
        status := Ok;
      } else {
        status := BadRequest;
      }
    } else {
      status := BadRequest;
    }
  }

  /** Example requests and their outcomes. */
  lemma DecideExamples<G>(parseFloat: string -> Option<G>)
    ensures Decide("counter", "hits", "42", parseFloat) == Decision(Ok, CounterAdd("hits", 42))
    ensures Decide("gauge", "", "1.0", parseFloat) == Decision(NotFound, NoMutation)
    ensures Decide("counter", "hits", "notanumber", parseFloat) == Decision(BadRequest, NoMutation)
    ensures Decide("counter", "hits", "1.5", parseFloat) == Decision(BadRequest, NoMutation)
    ensures Decide("unknown", "x", "1", parseFloat) == Decision(BadRequest, NoMutation)
    ensures Decide("histogram", "x", "1", parseFloat) == Decision(BadRequest, NoMutation)
  {
    ParseIntAccepts();
    assert !IsDigit("notanumber"[0]);
    ParseIntRejects();
  }

  /** The example scenarios, checked as assertions against the store and handler. */
  method Scenarios(parseFloat: string -> Option<real>)
    requires parseFloat("xyz") == None
  {
    var store := new InMemStorage<real>();
    var _ := store.UpdateCounter("requests", 5);
    var _ := store.UpdateCounter("requests", 3);
    assert store.counters["requests"] == 8;

    var _ := store.UpdateGauge("temp", 36.6);
    var _ := store.UpdateGauge("temp", 37.1);
    assert store.gauges["temp"] == 37.1;

    DecideExamples(parseFloat);
    var status := HandleUpdate(store, "counter", "hits", "42", parseFloat);
    assert status == Ok && store.counters["hits"] == 42;

    status := HandleUpdate(store, "gauge", "", "1.0", parseFloat);
    assert status == NotFound;

    status := HandleUpdate(store, "counter", "hits", "notanumber", parseFloat);
    assert status == BadRequest && store.counters["hits"] == 42;

    status := HandleUpdate(store, "gauge", "temp", "xyz", parseFloat);
    assert status == BadRequest && store.gauges["temp"] == 37.1;

    status := HandleUpdate(store, "unknown", "x", "1", parseFloat);
    assert status == BadRequest && "x" !in store.counters && "x" !in store.gauges;
  }
}
