/** What the cells of the metrics collector hold, as a function of the recorded samples. */
module MetricSeries {
  import opened LabelKeys

  datatype Sample<T> = Sample(name: string, labels: Labels, value: T)

  /** The values recorded under a metric name and the text of a label set. */
  ghost function ByKey<T>(samples: seq<Sample<T>>, slot: (string, string)): seq<T> {
    if samples == [] then []
    else
      var last := samples[|samples| - 1];
      ByKey(samples[..|samples| - 1], slot) + if (last.name, Key(last.labels)) == slot then [last.value] else []
  }

  /** The values recorded for a metric name and exactly a label set. */
  function ByLabels<T>(samples: seq<Sample<T>>, name: string, labels: Labels): seq<T> {
    if samples == [] then []
    else
      var last := samples[|samples| - 1];
      ByLabels(samples[..|samples| - 1], name, labels) +
      if last.name == name && last.labels == labels then [last.value] else []
  }

  /** Over clean label sets, the cell of a text holds what was recorded for that label set and nothing else. */
  lemma {:induction false} TextIndexIsExact<T>(samples: seq<Sample<T>>, name: string, labels: Labels)
    requires Clean(labels) && forall i | 0 <= i < |samples| :: Clean(samples[i].labels)
    ensures ByKey(samples, (name, Key(labels))) == ByLabels(samples, name, labels)
  {
    if samples != [] {
      var last := samples[|samples| - 1];
      TextIndexIsExact(samples[..|samples| - 1], name, labels);
      if Key(last.labels) == Key(labels) {
        KeyIsInjective(last.labels, labels);
      }
    }
  }

  lemma ByKeySnoc<T>(samples: seq<Sample<T>>, s: Sample<T>, slot: (string, string))
    ensures ByKey(samples + [s], slot) ==
            if (s.name, Key(s.labels)) == slot then ByKey(samples, slot) + [s.value] else ByKey(samples, slot)
  {
    assert (samples + [s])[..|samples + [s]| - 1] == samples;
    assert ByKey(samples, slot) + [] == ByKey(samples, slot);
  }

  /** The cells hold, under each name and text, the summary of what was recorded there, and nothing else. */
  ghost predicate Indexes<T, C>(cells: map<(string, string), C>, samples: seq<Sample<T>>, summary: seq<T> -> C) {
    forall slot :: CellAgrees(cells, samples, summary, slot)
  }

  ghost predicate CellAgrees<T, C>(cells: map<(string, string), C>, samples: seq<Sample<T>>, summary: seq<T> -> C,
                                   slot: (string, string))
  {
    && (slot in cells <==> ByKey(samples, slot) != [])
    && (slot in cells ==> cells[slot] == summary(ByKey(samples, slot)))
  }

  lemma IndexStep<T, C>(cells: map<(string, string), C>, samples: seq<Sample<T>>, summary: seq<T> -> C,
                        s: Sample<T>, slot: (string, string), cell: C)
    requires Indexes(cells, samples, summary) && slot == (s.name, Key(s.labels))
    requires cell == summary(ByKey(samples, slot) + [s.value])
    ensures Indexes(cells[slot := cell], samples + [s], summary)
  {
    var (next, more) := (cells[slot := cell], samples + [s]);
    forall t ensures CellAgrees(next, more, summary, t) {
      assert CellAgrees(cells, samples, summary, t);
      ByKeySnoc(samples, s, t);
    }
  }

  /** A cell found by the text of a clean label set summarises exactly what was recorded for that label set. */
  lemma CellIsItsLabelSet<T, C>(cells: map<(string, string), C>, samples: seq<Sample<T>>, summary: seq<T> -> C,
                                name: string, labels: Labels)
    requires Indexes(cells, samples, summary)
    requires Clean(labels) && forall i | 0 <= i < |samples| :: Clean(samples[i].labels)
    ensures (name, Key(labels)) in cells <==> ByLabels(samples, name, labels) != []
    ensures (name, Key(labels)) in cells ==> cells[(name, Key(labels))] == summary(ByLabels(samples, name, labels))
  {
    assert CellAgrees(cells, samples, summary, (name, Key(labels)));
    TextIndexIsExact(samples, name, labels);
  }

  function Sum(deltas: seq<int>): int {
    if deltas == [] then 0 else Sum(deltas[..|deltas| - 1]) + deltas[|deltas| - 1]
  }

  function RealSum(values: seq<real>): real {
    if values == [] then 0.0 else RealSum(values[..|values| - 1]) + values[|values| - 1]
  }

  // ----- Histograms -----

  const BOUNDS: seq<real> := [50.0, 100.0, 250.0, 500.0, 1000.0, 2500.0, 5000.0, 10000.0]

  function CountAtMost(values: seq<real>, bound: real): nat {
    if values == [] then 0
    else CountAtMost(values[..|values| - 1], bound) + if values[|values| - 1] <= bound then 1 else 0
  }

  datatype HistCell = HistCell(count: nat, sum: real, buckets: seq<nat>)

  /** Each bucket holds the number of observations that do not exceed its bound. */
  function CellOf(values: seq<real>): HistCell {
    HistCell(|values|, RealSum(values), seq(|BOUNDS|, i requires 0 <= i < |BOUNDS| => CountAtMost(values, BOUNDS[i])))
  }

  lemma {:induction false} LargerBoundHoldsMore(values: seq<real>, low: real, high: real)
    requires low <= high
    ensures CountAtMost(values, low) <= CountAtMost(values, high) <= |values|
  {
    if values != [] {
      LargerBoundHoldsMore(values[..|values| - 1], low, high);
    }
  }

  /** The buckets of a series, by their bounds in milliseconds. */
  lemma BucketsByBound(values: seq<real>)
    ensures CellOf(values).buckets ==
            [CountAtMost(values, 50.0), CountAtMost(values, 100.0), CountAtMost(values, 250.0), CountAtMost(values, 500.0),
             CountAtMost(values, 1000.0), CountAtMost(values, 2500.0), CountAtMost(values, 5000.0), CountAtMost(values, 10000.0)]
  {
  }

  /** The exposed series are cumulative: buckets do not decrease with their bound and never exceed the count,
      which the handler prints as the bucket of +Inf. */
  lemma BucketsAreCumulative(values: seq<real>)
    ensures var c := CellOf(values);
            && |c.buckets| == |BOUNDS|
            && (forall i, j | 0 <= i <= j < |c.buckets| :: c.buckets[i] <= c.buckets[j])
            && (forall i | 0 <= i < |c.buckets| :: c.buckets[i] <= c.count)
  {
    forall i, j | 0 <= i <= j < |BOUNDS|
      ensures CellOf(values).buckets[i] <= CellOf(values).buckets[j] <= CellOf(values).count
    {
      LargerBoundHoldsMore(values, BOUNDS[i], BOUNDS[j]);
    }
  }

  lemma CountSnoc(values: seq<real>, v: real, bound: real)
    ensures CountAtMost(values + [v], bound) == CountAtMost(values, bound) + if v <= bound then 1 else 0
    ensures RealSum(values + [v]) == RealSum(values) + v
  {
    assert (values + [v])[..|values + [v]| - 1] == values;
  }

  lemma SumSnoc(deltas: seq<int>, d: int)
    ensures Sum(deltas + [d]) == Sum(deltas) + d
  {
    assert (deltas + [d])[..|deltas + [d]| - 1] == deltas;
  }
}

/** The collector as it runs: counter cells and histogram data updated in place. */
module Metrics {
  import opened LabelKeys
  import opened MetricSeries

  class HistData {
    var count: nat
    var sum: real
    var buckets: array<nat>

    constructor ()
      ensures fresh(buckets) && Value() == CellOf([])
    {
      count, sum := 0, 0.0;
      buckets := new nat[|BOUNDS|](_ => 0);
      new;
      assert buckets[..] == CellOf([]).buckets;
    }

    ghost function Value(): HistCell
      reads this, buckets
    {
      HistCell(count, sum, buckets[..])
    }

    method Observe(value: real, ghost before: seq<real>)
      requires Value() == CellOf(before)
      modifies this, buckets
      ensures buckets == old(buckets) && Value() == CellOf(before + [value])
    {
      count := count + 1;
      sum := sum + value;
      ghost var was := buckets[..];
      assert |was| == |BOUNDS|;
      for i := 0 to |BOUNDS|
        invariant count == |before| + 1 && sum == RealSum(before) + value && buckets == old(buckets)
        invariant forall j | 0 <= j < |BOUNDS| ::
                    buckets[j] == was[j] + if j < i && value <= BOUNDS[j] then 1 else 0
      {
        if value <= BOUNDS[i] {
          buckets[i] := buckets[i] + 1;
        }
      }
      forall j | 0 <= j < |BOUNDS| ensures buckets[j] == CellOf(before + [value]).buckets[j] {
        CountSnoc(before, value, BOUNDS[j]);
        assert was[j] == CellOf(before).buckets[j];
      }
      CountSnoc(before, value, 0.0);
      assert buckets[..] == CellOf(before + [value]).buckets;
    }
  }

  lemma CounterStep(cells: map<(string, string), int>, added: seq<Sample<int>>, s: Sample<int>, slot: (string, string), cell: int)
    requires Indexes(cells, added, Sum) && slot == (s.name, Key(s.labels))
    requires cell == if slot in cells then cells[slot] else 0
    ensures Indexes(cells[slot := cell + s.value], added + [s], Sum)
  {
    assert CellAgrees(cells, added, Sum, slot);
    SumSnoc(ByKey(added, slot), s.value);
    IndexStep(cells, added, Sum, s, slot, cell + s.value);
  }

  class Counters {
    var cells: map<(string, string), int>
    ghost var added: seq<Sample<int>>

    /** Every cell holds the sum of exactly what was added under its name and text. */
    ghost predicate Valid()
      reads this
    {
      Indexes(cells, added, Sum)
    }

    constructor ()
      ensures Valid() && added == []
    {
      cells, added := map[], [];
    }

    method AddCounter(name: string, labels: Labels, order: seq<string>, delta: int)
      requires Valid() && NoRepeats(order) && forall k :: k in order <==> k in labels
      modifies this
      ensures Valid() && added == old(added) + [Sample(name, labels, delta)]
    {
      var key := LabelsKey(labels, order);
      var slot := (name, key);
      var cell := if slot in cells then cells[slot] else 0;
      CounterStep(cells, added, Sample(name, labels, delta), slot, cell);
      cells := cells[slot := cell + delta];
      added := added + [Sample(name, labels, delta)];
    }

    method IncrCounter(name: string, labels: Labels, order: seq<string>)
      requires Valid() && NoRepeats(order) && forall k :: k in order <==> k in labels
      modifies this
      ensures Valid() && added == old(added) + [Sample(name, labels, 1)]
    {
      AddCounter(name, labels, order, 1);
    }
  }

  class Histograms {
    var cells: map<(string, string), HistData>
    ghost var observed: seq<Sample<real>>

    ghost function Footprint(): set<object>
      reads this, set slot | slot in cells :: cells[slot]
    {
      (set slot | slot in cells :: cells[slot]) + (set slot | slot in cells :: cells[slot].buckets)
    }

    ghost function Values(): map<(string, string), HistCell>
      reads this, Footprint()
    {
      map slot | slot in cells :: cells[slot].Value()
    }

    /** No two series share storage. */
    ghost predicate Separate()
      reads this, Footprint()
    {
      forall s, t | s in cells && t in cells && s != t :: cells[s] != cells[t] && cells[s].buckets != cells[t].buckets
    }

    /** Every series counts exactly what was observed under its name and text. */
    ghost predicate Valid()
      reads this, Footprint()
    {
      Separate() && Indexes(Values(), observed, CellOf)
    }

    constructor ()
      ensures Valid() && observed == []
    {
      cells, observed := map[], [];
    }

    method ObserveHistogram(name: string, labels: Labels, order: seq<string>, value: real)
      requires Valid() && NoRepeats(order) && forall k :: k in order <==> k in labels
      modifies this, Footprint()
      ensures Valid() && observed == old(observed) + [Sample(name, labels, value)]
    {
      var key := LabelsKey(labels, order);
      ghost var s := Sample(name, labels, value);
      ghost var before := BeforeObserving(s, (name, key));
      UpdateSeries((name, key), value, before);
      label stored:
      observed := observed + [s];
      SameCells@stored();
    }

    lemma BeforeObserving(s: Sample<real>, slot: (string, string)) returns (before: seq<real>)
      requires Valid() && slot == (s.name, Key(s.labels))
      ensures if slot in cells then cells[slot].Value() == CellOf(before) else before == []
      ensures Indexes(Values()[slot := CellOf(before + [s.value])], observed + [s], CellOf)
    {
      before := ByKey(observed, slot);
      assert CellAgrees(Values(), observed, CellOf, slot);
      IndexStep(Values(), observed, CellOf, s, slot, CellOf(before + [s.value]));
    }

    method UpdateSeries(slot: (string, string), value: real, ghost before: seq<real>)
      requires Separate()
      requires if slot in cells then cells[slot].Value() == CellOf(before) else before == []
      modifies this`cells, Footprint()
      ensures Separate() && Values() == old(Values())[slot := CellOf(before + [value])]
    {
      if slot in cells {
        cells[slot].Observe(value, before);
        OneChanged(slot);
      } else {
        var d := new HistData();
        d.Observe(value, before);
        cells := cells[slot := d];
        OneAdded(slot, d);
      }
    }

    twostate lemma SameCells()
      requires cells == old(cells) && forall t | t in cells :: unchanged(cells[t]) && unchanged(cells[t].buckets)
      ensures Values() == old(Values()) && Separate() == old(Separate())
    {
    }

    twostate lemma OneChanged(slot: (string, string))
      requires old(Separate()) && unchanged(this) && slot in cells && cells[slot].buckets == old(cells[slot].buckets)
      requires forall t | t in cells && t != slot :: unchanged(cells[t]) && unchanged(cells[t].buckets)
      ensures Separate() && Values() == old(Values())[slot := cells[slot].Value()]
    {
    }

    twostate lemma OneAdded(slot: (string, string), new d: HistData)
      requires old(Separate()) && cells == old(cells)[slot := d] && slot !in old(cells)
      requires forall t | t in old(cells) :: unchanged(old(cells)[t]) && unchanged(old(cells)[t].buckets)
      requires fresh(d) && fresh(d.buckets)
      ensures Separate() && Values() == old(Values())[slot := d.Value()]
    {
    }
  }
}
