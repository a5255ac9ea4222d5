/**
 * `InMemStorage`, the metric store: counters (name to int64 running sum) and
 * gauges (name to last written value) kept in two independent maps. The gauge
 * value type (Go's float64) is the type parameter G: the store only keeps it.
 */
module Storage {
  import opened Wrappers
  import opened Int64Arith

  /** What `counters[name]` reads in Go: the stored value, or int64's zero value for an absent name. */
  function CounterValue(counters: map<string, Int64>, name: string): Int64
  {
    if name in counters then counters[name] else 0
  }

  /** The counters map after `counters[name] += delta`. */
  function AddToCounter(counters: map<string, Int64>, name: string, delta: Int64): (r: map<string, Int64>)
    ensures r.Keys == counters.Keys + {name}
    ensures CounterValue(r, name) == Add(CounterValue(counters, name), delta)
    ensures forall k :: k in counters && k != name ==> r[k] == counters[k]
  {
    counters[name := Add(CounterValue(counters, name), delta)]
  }

  /** The gauges map after `gauges[name] = value`. */
  function SetGauge<G>(gauges: map<string, G>, name: string, value: G): (r: map<string, G>)
    ensures r.Keys == gauges.Keys + {name}
    ensures r[name] == value
    ensures forall k :: k in gauges && k != name ==> r[k] == gauges[k]
  {
    gauges[name := value]
  }

  /** The mathematical (unwrapped) sum of a sequence of deltas. */
  function Sum(ds: seq<Int64>): int
  {
    if ds == [] then 0 else ds[0] + Sum(ds[1..])
  }

  /** The counters map after the deltas ds are added to `name`, one `UpdateCounter` at a time. */
  function ApplyDeltas(counters: map<string, Int64>, name: string, ds: seq<Int64>): map<string, Int64>
    decreases ds
  {
    if ds == [] then counters else ApplyDeltas(AddToCounter(counters, name, ds[0]), name, ds[1..])
  }

  /** The gauges map after the values vs are written to `name`, one `UpdateGauge` at a time. */
  function ApplyGaugeWrites<G>(gauges: map<string, G>, name: string, vs: seq<G>): map<string, G>
    decreases vs
  {
    if vs == [] then gauges else ApplyGaugeWrites(SetGauge(gauges, name, vs[0]), name, vs[1..])
  }

  /**
   * Adding d1..dn one at a time leaves `name` at its old value plus the sum of
   * the deltas, wrapped once at the end, and every other counter as it was.
   */
  lemma {:induction false} ApplyDeltasClosedForm(counters: map<string, Int64>, name: string, ds: seq<Int64>)
    ensures ApplyDeltas(counters, name, ds)
         == if ds == [] then counters else counters[name := Wrap(CounterValue(counters, name) + Sum(ds))]
    decreases ds
  {
    if ds != [] {
      var next := AddToCounter(counters, name, ds[0]);
      ApplyDeltasClosedForm(next, name, ds[1..]);
      WrapOfWrap(CounterValue(counters, name) + ds[0], Sum(ds[1..]));
      if ds[1..] == [] {
        assert Sum(ds) == ds[0];
      }
    }
  }

  /** From an empty store, a counter equals the wrapped sum of every delta ever applied to it (0 when there were none). */
  lemma CounterIsWrappedSum(name: string, ds: seq<Int64>)
    ensures CounterValue(ApplyDeltas(map[], name, ds), name) == Wrap(Sum(ds))
  {
    ApplyDeltasClosedForm(map[], name, ds);
  }

  lemma {:induction false} SumConcat(xs: seq<Int64>, ys: seq<Int64>)
    ensures Sum(xs + ys) == Sum(xs) + Sum(ys)
  {
    if xs == [] {
      assert xs + ys == ys;
    } else {
      assert (xs + ys)[1..] == xs[1..] + ys;
      SumConcat(xs[1..], ys);
    }
  }

  /** Taking one delta out of a sequence takes exactly its value out of the sum. */
  lemma SumRemove(es: seq<Int64>, i: nat)
    requires i < |es|
    ensures Sum(es) == es[i] + Sum(es[..i] + es[i + 1..])
  {
    var front, back := es[..i], es[i + 1..];
    assert es == front + ([es[i]] + back);
    SumConcat(front, [es[i]] + back);
    assert ([es[i]] + back)[1..] == back;
    SumConcat(front, back);
  }

  /** Taking one delta out of a sequence takes exactly one copy of it out of the multiset. */
  lemma MultisetRemove(es: seq<Int64>, i: nat)
    requires i < |es|
    ensures multiset(es) == multiset{es[i]} + multiset(es[..i] + es[i + 1..])
  {
    var front, back := es[..i], es[i + 1..];
    assert es == front + [es[i]] + back;
  }

  /** Reordering the deltas does not change their sum. */
  lemma {:induction false} SumPermutation(ds: seq<Int64>, es: seq<Int64>)
    requires multiset(ds) == multiset(es)
    ensures Sum(ds) == Sum(es)
  {
    if ds == [] {
      assert |es| == |multiset(es)| == 0;
    } else {
      assert ds[0] in multiset(es);
      var i :| 0 <= i < |es| && es[i] == ds[0];
      var rest := es[..i] + es[i + 1..];
      SumRemove(es, i);
      MultisetRemove(es, i);
      assert ds == [ds[0]] + ds[1..];
      assert multiset(ds) == multiset{ds[0]} + multiset(ds[1..]);
      assert multiset(ds[1..]) == multiset(ds) - multiset{ds[0]};
      assert multiset(rest) == multiset(es) - multiset{es[i]};
      SumPermutation(ds[1..], rest);
    }
  }

  /** The order in which deltas reach one counter does not matter: any permutation leaves the same store. */
  lemma ApplyDeltasOrderIndependent(counters: map<string, Int64>, name: string, ds: seq<Int64>, es: seq<Int64>)
    requires multiset(ds) == multiset(es)
    ensures ApplyDeltas(counters, name, ds) == ApplyDeltas(counters, name, es)
  {
    ApplyDeltasClosedForm(counters, name, ds);
    ApplyDeltasClosedForm(counters, name, es);
    SumPermutation(ds, es);
    assert ds == [] <==> |multiset(ds)| == 0;
    assert es == [] <==> |multiset(es)| == 0;
  }

  /** Writing v1..vn to a gauge leaves the last value written, and every other gauge as it was. */
  lemma {:induction false} ApplyGaugeWritesLastWins<G>(gauges: map<string, G>, name: string, vs: seq<G>)
    ensures ApplyGaugeWrites(gauges, name, vs) == if vs == [] then gauges else gauges[name := vs[|vs| - 1]]
    decreases vs
  {
    if vs != [] {
      ApplyGaugeWritesLastWins(SetGauge(gauges, name, vs[0]), name, vs[1..]);
    }
  }

  /** The store. Go guards each map with its own mutex; the model is the serialised behaviour. */
  class InMemStorage<G> {
    var counters: map<string, Int64>
    var gauges: map<string, G>

    /** `NewInMemStorage`: both maps empty. */
    constructor ()
      ensures counters == map[] && gauges == map[]
    {
      counters := map[];
      gauges := map[];
    }

    /** `UpdateCounter`: adds value to the counter (absent counts as 0), touches nothing else, never fails. */
    method UpdateCounter(name: string, value: Int64) returns (err: Option<string>)
      modifies this
      ensures counters == AddToCounter(old(counters), name, value)
      ensures gauges == old(gauges)
      ensures err == None
    {
      counters := counters[name := Add(CounterValue(counters, name), value)];
      err := None;
    }

    /** `UpdateGauge`: overwrites the gauge, touches nothing else, never fails. */
    method UpdateGauge(name: string, value: G) returns (err: Option<string>)
      modifies this
      ensures gauges == SetGauge(old(gauges), name, value)
      ensures counters == old(counters)
      ensures err == None
    {
      gauges := gauges[name := value];
      err := None;
    }
  }
}
