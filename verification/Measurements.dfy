/** `leaf_readings` and `analyze_measurements` of the hardware collectors, over exact reals. */
module Measurements {
  import opened Outcomes
  import opened Texts

  // -------------------------------------------------------------------- readings

  /** A JSON value that is no object. Lists stand as their JSON text. */
  datatype Item = Num(number: real) | Flag(flag: bool) | Text(text: string) | Null | List(json: string)

  /** Python's ==, in which True and False equal 1 and 0. */
  predicate Same(a: Item, b: Item) {
    Compared(a) == Compared(b)
  }

  function Compared(a: Item): Item {
    if a.Flag? then Num(if a.flag then 1.0 else 0.0) else a
  }

  /** `number` of an ok reading: a number, or a text that is a decimal integer. */
  function Number(item: Item): Option<real> {
    match item
    case Num(x) => Some(x)
    case Text(s) =>
      if s != "" && AllDigits(s) then Some(Value(s) as real)
      else if s != "" && s[0] == '-' && s != "-" && AllDigits(s[1..]) then Some(-(Value(s[1..]) as real))
      else None
    case _ => None
  }

  datatype Json = Plain(item: Item) | Object(entries: seq<(string, Json)>)

  datatype Leaf = Leaf(status: string, unit: string, item: Item)

  function Get(entries: seq<(string, Json)>, name: string): (r: Option<Json>)
    ensures r.Some? ==> exists i :: 0 <= i < |entries| && entries[i] == (name, r.value)
  {
    if entries == [] then None
    else if entries[0].0 == name then Some(entries[0].1)
    else
      var r := Get(entries[1..], name);
      assert r.Some? ==>
          exists i :: 0 <= i < |entries[1..]| && entries[1..][i] == (name, r.value)
              && entries[i + 1] == (name, r.value);
      r
  }

  function GetText(entries: seq<(string, Json)>, name: string): Option<string> {
    match Get(entries, name)
    case Some(Plain(Text(s))) => Some(s)
    case _ => None
  }

  function Below(prefix: string, name: string): string {
    if prefix == "" then name else prefix + "/" + name
  }

  function NameOf(prefix: string): string {
    if prefix == "" then "value" else prefix
  }

  function UnitOf(entries: seq<(string, Json)>): string {
    var unit := GetText(entries, "unit");
    if unit.Some? then unit.value else "raw"
  }

  /** `leaf_readings`: an object with a text status is a reading, any other one a level of names. */
  function Leaves(value: Json, prefix: string): seq<(string, Leaf)>
    decreases value, 1, 0
  {
    match value
    case Plain(item) => [(NameOf(prefix), Leaf("ok", "raw", item))]
    case Object(entries) =>
      var status, reading := GetText(entries, "status"), Get(entries, "value");
      if status.None? then EachName(value, 0, prefix)
      else if status.value == "ok" && reading.Some? then OkLeaves(reading.value, UnitOf(entries), prefix)
      else [(NameOf(prefix),
          Leaf(status.value, UnitOf(entries),
               if reading.Some? && reading.value.Plain? then reading.value.item else Null))]
  }

  function EachName(value: Json, i: nat, prefix: string): seq<(string, Leaf)>
    requires value.Object? && i <= |value.entries|
    decreases value, 0, |value.entries| - i
  {
    if i == |value.entries| then [] else
      var (name, item) := value.entries[i];
      Leaves(item, Below(prefix, name)) + EachName(value, i + 1, prefix)
  }

  /** The leaves of an ok reading with this value: each of an object's values is one in turn. */
  function OkLeaves(value: Json, unit: string, prefix: string): seq<(string, Leaf)>
    decreases value, 1, 0
  {
    match value
    case Plain(item) => [(NameOf(prefix), Leaf("ok", unit, item))]
    case Object(entries) => EachOk(value, 0, unit, prefix)
  }

  function EachOk(value: Json, i: nat, unit: string, prefix: string): seq<(string, Leaf)>
    requires value.Object? && i <= |value.entries|
    decreases value, 0, |value.entries| - i
  {
    if i == |value.entries| then [] else
      var (name, item) := value.entries[i];
      OkLeaves(item, unit, Below(prefix, name)) + EachOk(value, i + 1, unit, prefix)
  }

  // ---------------------------------------------------------- tallies and numbers

  /** counts[x] = counts.get(x, 0) + 1 */
  function Add<T>(counts: map<T, nat>, x: T): map<T, nat> {
    counts[x := if x in counts then counts[x] + 1 else 1]
  }

  ghost predicate TallyOf<T(!new)>(counts: map<T, nat>, xs: seq<T>) {
    && (forall x :: x in counts <==> x in xs)
    && (forall x :: x in counts ==> counts[x] == multiset(xs)[x])
  }

  lemma TallyOneMore<T(!new)>(counts: map<T, nat>, xs: seq<T>, x: T)
    requires TallyOf(counts, xs)
    ensures TallyOf(Add(counts, x), xs + [x])
  {
    assert x !in counts ==> multiset(xs)[x] == 0;
    assert forall y :: y in xs + [x] <==> y in xs || y == x;
  }

  /** The counts of these keys added up. */
  ghost function SumOver<T>(counts: map<T, nat>, keys: set<T>): nat
    requires keys <= counts.Keys
    decreases keys
  {
    if keys == {} then 0 else
      var k :| k in keys;
      counts[k] + SumOver(counts, keys - {k})
  }

  function HowManyIn<T(==)>(xs: seq<T>, keys: set<T>): nat {
    if xs == [] then 0 else HowManyIn(xs[..|xs| - 1], keys) + if xs[|xs| - 1] in keys then 1 else 0
  }

  lemma {:induction false} HowManySplit<T>(xs: seq<T>, keys: set<T>, k: T)
    requires k in keys
    ensures HowManyIn(xs, keys) == multiset(xs)[k] + HowManyIn(xs, keys - {k})
  {
    if xs != [] {
      HowManySplit(xs[..|xs| - 1], keys, k);
      assert xs == xs[..|xs| - 1] + [xs[|xs| - 1]];
    }
  }

  lemma {:induction false} HowManyAll<T>(xs: seq<T>, keys: set<T>)
    ensures keys == {} ==> HowManyIn(xs, keys) == 0
    ensures (forall x :: x in xs ==> x in keys) ==> HowManyIn(xs, keys) == |xs|
  {
    if xs != [] {
      HowManyAll(xs[..|xs| - 1], keys);
    }
  }

  lemma {:induction false} SumIsHowMany<T(!new)>(counts: map<T, nat>, xs: seq<T>, keys: set<T>)
    requires TallyOf(counts, xs) && keys <= counts.Keys
    ensures SumOver(counts, keys) == HowManyIn(xs, keys)
    decreases keys
  {
    if keys == {} {
      HowManyAll(xs, keys);
    } else {
      var k :| k in keys && SumOver(counts, keys) == counts[k] + SumOver(counts, keys - {k});
      SumIsHowMany(counts, xs, keys - {k});
      HowManySplit(xs, keys, k);
    }
  }

  /** The counts of a tally add up to the number of its elements. */
  lemma TallyAddsUp<T(!new)>(counts: map<T, nat>, xs: seq<T>)
    requires TallyOf(counts, xs)
    ensures SumOver(counts, counts.Keys) == |xs|
  {
    SumIsHowMany(counts, xs, counts.Keys);
    HowManyAll(xs, counts.Keys);
  }

  datatype Numbers = NoNumbers
                   | Numbers(count: nat, first: real, last: real, difference: real,
                             minimum: real, maximum: real, mean: real)

  function AddNumber(n: Numbers, x: real): Numbers {
    match n
    case NoNumbers => Numbers(1, x, x, x - x, x, x, x)
    case Numbers(count, first, _, _, minimum, maximum, mean) =>
      Numbers(count + 1, first, x, x - first, if x < minimum then x else minimum,
              if x > maximum then x else maximum, mean + (x - mean) / (count + 1) as real)
  }

  function Sum(xs: seq<real>): real {
    if xs == [] then 0.0 else Sum(xs[..|xs| - 1]) + xs[|xs| - 1]
  }

  /** The batch statistics of all numbers of a row. */
  ghost predicate NumbersOf(n: Numbers, xs: seq<real>) {
    if xs == [] then n == NoNumbers
    else
      && n.Numbers? && n.count == |xs|
      && n.first == xs[0] && n.last == xs[|xs| - 1] && n.difference == xs[|xs| - 1] - xs[0]
      && n.minimum in xs && n.maximum in xs && (forall x :: x in xs ==> n.minimum <= x <= n.maximum)
      && n.mean == Sum(xs) / |xs| as real
  }

  lemma IncrementalMean(sum: real, x: real, n: nat)
    requires n > 0
    ensures var mean := sum / n as real;
            mean + (x - mean) / (n + 1) as real == (sum + x) / (n + 1) as real
  {
    var mean, m := sum / n as real, (n + 1) as real;
    assert mean * n as real == sum;
    assert (mean + (x - mean) / m) * m == mean * m + (x - mean);
    assert mean * m == mean * n as real + mean;
  }

  lemma NumbersOneMore(n: Numbers, xs: seq<real>, x: real)
    requires NumbersOf(n, xs)
    ensures NumbersOf(AddNumber(n, x), xs + [x])
  {
    var all := xs + [x];
    assert all[..|xs|] == xs && Sum(all) == Sum(xs) + x;
    if xs == [] {
      assert all == [x];
    } else {
      IncrementalMean(Sum(xs), x, |xs|);
      assert forall y :: y in all <==> y in xs || y == x;
    }
  }

  datatype Items = NoItems | Items(count: nat, first: Item, last: Item, changed: bool)

  function AddItem(i: Items, item: Item): Items {
    match i
    case NoItems => Items(1, item, item, false)
    case Items(count, first, last, changed) => Items(count + 1, first, item, changed || !Same(item, last))
  }

  ghost predicate ItemsOf(i: Items, items: seq<Item>) {
    if items == [] then i == NoItems
    else
      && i.Items? && i.count == |items| && i.first == items[0] && i.last == items[|items| - 1]
      && (i.changed <==> exists j, k :: 0 <= j < k < |items| && !Same(items[j], items[k]))
  }

  lemma ItemsOneMore(i: Items, items: seq<Item>, item: Item)
    requires ItemsOf(i, items)
    ensures ItemsOf(AddItem(i, item), items + [item])
  {
    var all := items + [item];
    if items != [] {
      var n := |items|;
      if i.changed {
        var j, k :| 0 <= j < k < n && !Same(items[j], items[k]);
        assert !Same(all[j], all[k]);
      } else if !Same(item, i.last) {
        assert !Same(all[n - 1], all[n]);
      } else {
        forall j, k | 0 <= j < k < |all| ensures Same(all[j], all[k]) {
          assert j < n - 1 ==> Same(items[j], items[n - 1]);
          assert k < n ==> Same(items[j], items[k]);
        }
      }
    }
  }

  // ------------------------------------------------------------------------ rows

  datatype Row = Row(unit: string, statusCounts: map<string, nat>, items: Items, numbers: Numbers,
                     observed: map<Item, nat>)

  function Blank(unit: string): Row {
    Row(unit, map[], NoItems, NoNumbers, map[])
  }

  /** One more reading in a row. */
  function Step(row: Row, leaf: Leaf): Row {
    var counted := row.(statusCounts := Add(row.statusCounts, leaf.status));
    if leaf.status != "ok" then counted
    else
      var more := counted.(items := AddItem(row.items, leaf.item));
      var number := Number(leaf.item);
      if number.Some? then more.(numbers := AddNumber(row.numbers, number.value))
      else more.(observed := Add(row.observed, leaf.item))
  }

  function Statuses(rs: seq<Leaf>): seq<string> {
    seq(|rs|, i requires 0 <= i < |rs| => rs[i].status)
  }

  /** The items of the ok readings. */
  function Oks(rs: seq<Leaf>): seq<Item> {
    if rs == [] then [] else
      Oks(rs[..|rs| - 1]) + if rs[|rs| - 1].status == "ok" then [rs[|rs| - 1].item] else []
  }

  function Nums(items: seq<Item>): seq<real> {
    if items == [] then [] else
      var number := Number(items[|items| - 1]);
      Nums(items[..|items| - 1]) + if number.Some? then [number.value] else []
  }

  function Others(items: seq<Item>): seq<Item> {
    if items == [] then [] else
      var item := items[|items| - 1];
      Others(items[..|items| - 1]) + if Number(item).None? then [item] else []
  }

  /** The row holds the batch statistics of its readings. */
  ghost predicate Summarizes(row: Row, rs: seq<Leaf>) {
    && (rs != [] ==> row.unit == rs[0].unit)
    && TallyOf(row.statusCounts, Statuses(rs))
    && ItemsOf(row.items, Oks(rs))
    && NumbersOf(row.numbers, Nums(Oks(rs)))
    && TallyOf(row.observed, Others(Oks(rs)))
  }

  lemma BlankSummarizes(unit: string)
    ensures Summarizes(Blank(unit), [])
  {
  }

  lemma OksOneMore(rs: seq<Leaf>, leaf: Leaf)
    ensures Oks(rs + [leaf]) == if leaf.status == "ok" then Oks(rs) + [leaf.item] else Oks(rs)
    ensures Statuses(rs + [leaf]) == Statuses(rs) + [leaf.status]
  {
    assert (rs + [leaf])[..|rs|] == rs;
  }

  lemma ItemsSplit(items: seq<Item>, item: Item)
    ensures var number := Number(item);
            && Nums(items + [item]) == (if number.Some? then Nums(items) + [number.value] else Nums(items))
            && Others(items + [item]) == (if number.Some? then Others(items) else Others(items) + [item])
  {
    assert (items + [item])[..|items|] == items;
  }

  /** Streaming one more reading keeps the batch statistics. */
  lemma StepSummarizes(row: Row, rs: seq<Leaf>, leaf: Leaf)
    requires Summarizes(row, rs) && (rs == [] ==> row.unit == leaf.unit)
    ensures Summarizes(Step(row, leaf), rs + [leaf])
  {
    var items, number := Oks(rs), Number(leaf.item);
    OksOneMore(rs, leaf);
    ItemsSplit(items, leaf.item);
    TallyOneMore(row.statusCounts, Statuses(rs), leaf.status);
    ItemsOneMore(row.items, items, leaf.item);
    if number.Some? {
      NumbersOneMore(row.numbers, Nums(items), number.value);
    } else {
      TallyOneMore(row.observed, Others(items), leaf.item);
    }
  }

  // ------------------------------------------------------------- the whole report

  datatype Event = SampleGroup(index: int, tag: string, source: string, readings: Json) | OtherEvent

  datatype RowKey = RowKey(tag: string, source: string, name: string)

  datatype Bucket = Bucket(indices: set<int>, okReadings: nat)

  type Trace = seq<(RowKey, Leaf)>

  /** Every reading of every sample group, in the order of the report. */
  function TraceOf(events: seq<Event>): Trace {
    if events == [] then [] else TraceOf(events[..|events| - 1]) + KeyedLeaves(events[|events| - 1])
  }

  function KeyedLeaves(e: Event): Trace {
    if e.OtherEvent? then [] else
      var leaves := Leaves(e.readings, "");
      seq(|leaves|, i requires 0 <= i < |leaves| => (RowKey(e.tag, e.source, leaves[i].0), leaves[i].1))
  }

  function ReadingsOf(trace: Trace, key: RowKey): seq<Leaf> {
    if trace == [] then [] else
      ReadingsOf(trace[..|trace| - 1], key) + if trace[|trace| - 1].0 == key then [trace[|trace| - 1].1] else []
  }

  function OkCount(trace: Trace, tag: string, source: string): nat {
    if trace == [] then 0 else
      var (key, leaf) := trace[|trace| - 1];
      OkCount(trace[..|trace| - 1], tag, source)
      + if key.tag == tag && key.source == source && leaf.status == "ok" then 1 else 0
  }

  function Indices(events: seq<Event>, tag: string, source: string): set<int> {
    set e | e in events && e.SampleGroup? && e.tag == tag && e.source == source :: e.index
  }

  /** Every row that occurs, and no other, with the batch statistics of its readings. */
  ghost predicate RowsOf(metrics: map<RowKey, Row>, trace: Trace) {
    forall key :: RowOf(metrics, trace, key)
  }

  ghost predicate RowOf(metrics: map<RowKey, Row>, trace: Trace, key: RowKey) {
    && (key in metrics <==> ReadingsOf(trace, key) != [])
    && (key in metrics ==> Summarizes(metrics[key], ReadingsOf(trace, key)))
  }

  /** Every source that occurs, and no other, with its sample indices and its ok readings. */
  ghost predicate CoverageOf(coverage: map<(string, string), Bucket>, events: seq<Event>, trace: Trace) {
    forall tag, source ::
      && ((tag, source) !in coverage ==> OkCount(trace, tag, source) == 0)
      && ((tag, source) in coverage <==> Indices(events, tag, source) != {})
      && ((tag, source) in coverage ==>
            coverage[(tag, source)] == Bucket(Indices(events, tag, source), OkCount(trace, tag, source)))
  }

  // --------------------------------------------------------------- the streaming

  function Recorded(metrics: map<RowKey, Row>, key: RowKey, leaf: Leaf): map<RowKey, Row> {
    metrics[key := Step(if key in metrics then metrics[key] else Blank(leaf.unit), leaf)]
  }

  function Noted(b: Bucket, leaf: Leaf): Bucket {
    if leaf.status == "ok" then b.(okReadings := b.okReadings + 1) else b
  }

  class Analysis {
    var metrics: map<RowKey, Row>
    var coverage: map<(string, string), Bucket>

    constructor ()
      ensures metrics == map[] && coverage == map[]
    {
      metrics, coverage := map[], map[];
    }

    /** The body of the loop over the leaves of one group. */
    method Record(key: RowKey, leaf: Leaf)
      requires (key.tag, key.source) in coverage
      modifies this
      ensures metrics == Recorded(old(metrics), key, leaf)
      ensures coverage == old(coverage)[(key.tag, key.source) := Noted(old(coverage)[(key.tag, key.source)], leaf)]
    {
      var row := if key in metrics then metrics[key] else Blank(leaf.unit);
      row := row.(statusCounts := Add(row.statusCounts, leaf.status));
      if leaf.status == "ok" {
        row := row.(items := AddItem(row.items, leaf.item));
        var bucket := coverage[(key.tag, key.source)];
        coverage := coverage[(key.tag, key.source) := bucket.(okReadings := bucket.okReadings + 1)];
        var number := Number(leaf.item);
        if number.Some? {
          row := row.(numbers := AddNumber(row.numbers, number.value));
        } else {
          row := row.(observed := Add(row.observed, leaf.item));
        }
      }
      metrics := metrics[key := row];
    }

    /** One event of the report. */
    method Take(e: Event, ghost before: seq<Event>)
      requires RowsOf(metrics, TraceOf(before)) && CoverageOf(coverage, before, TraceOf(before))
      modifies this
      ensures RowsOf(metrics, TraceOf(before + [e])) && CoverageOf(coverage, before + [e], TraceOf(before + [e]))
    {
      ghost var start := TraceOf(before);
      TraceOneMore(before, e);
      if e.OtherEvent? {
        OtherEventCovers(coverage, before, e, start);
        return;
      }
      var source := (e.tag, e.source);
      var bucket := if source in coverage then coverage[source] else Bucket({}, 0);
      GroupCovers(coverage, before, e, start);
      coverage := coverage[source := bucket.(indices := bucket.indices + {e.index})];
      var leaves := Leaves(e.readings, "");
      ghost var trace := start;
      for j := 0 to |leaves|
        invariant trace == start + KeyedLeaves(e)[..j] && source in coverage
        invariant RowsOf(metrics, trace) && CoverageOf(coverage, before + [e], trace)
      {
        var key, leaf := RowKey(e.tag, e.source, leaves[j].0), leaves[j].1;
        RowsOneMore(metrics, trace, key, leaf);
        CoverageOneMore(coverage, before + [e], trace, key, leaf);
        Record(key, leaf);
        trace := trace + [(key, leaf)];
        KeyedOneMore(start, e, j);
      }
      assert trace == TraceOf(before + [e]);
    }

    /** The whole report: for every list of events, each streamed row holds the batch statistics
        of its readings, and each source its sample indices and ok readings. */
    method Analyze(events: seq<Event>)
      requires metrics == map[] && coverage == map[]
      modifies this
      ensures RowsOf(metrics, TraceOf(events)) && CoverageOf(coverage, events, TraceOf(events))
    {
      for i := 0 to |events|
        invariant RowsOf(metrics, TraceOf(events[..i])) && CoverageOf(coverage, events[..i], TraceOf(events[..i]))
      {
        assert events[..i + 1] == events[..i] + [events[i]];
        Take(events[i], events[..i]);
      }
      assert events[..|events|] == events;
    }
  }

  lemma TraceOneMore(before: seq<Event>, e: Event)
    ensures TraceOf(before + [e]) == TraceOf(before) + KeyedLeaves(e)
    ensures e.OtherEvent? ==> TraceOf(before + [e]) == TraceOf(before)
    ensures e.SampleGroup? ==> KeyedLeaves(e)[..|Leaves(e.readings, "")|] == KeyedLeaves(e)
  {
    assert (before + [e])[..|before|] == before;
  }

  lemma KeyedOneMore(start: Trace, e: Event, j: nat)
    requires e.SampleGroup? && j < |Leaves(e.readings, "")|
    ensures var (name, leaf) := Leaves(e.readings, "")[j];
            start + KeyedLeaves(e)[..j] + [(RowKey(e.tag, e.source, name), leaf)] == start + KeyedLeaves(e)[..j + 1]
  {
  }

  lemma RowsOneMore(metrics: map<RowKey, Row>, trace: Trace, key: RowKey, leaf: Leaf)
    requires RowsOf(metrics, trace)
    ensures RowsOf(Recorded(metrics, key, leaf), trace + [(key, leaf)])
  {
    forall k ensures RowOf(Recorded(metrics, key, leaf), trace + [(key, leaf)], k) {
      assert RowOf(metrics, trace, k);
      ReadingsOneMore(trace, key, leaf, k);
      if k == key {
        RowOneMore(metrics, trace, key, leaf);
      }
    }
  }

  lemma RowOneMore(metrics: map<RowKey, Row>, trace: Trace, key: RowKey, leaf: Leaf)
    requires RowOf(metrics, trace, key)
    ensures RowOf(Recorded(metrics, key, leaf), trace + [(key, leaf)], key)
  {
    BlankSummarizes(leaf.unit);
    ReadingsOneMore(trace, key, leaf, key);
    StepSummarizes(if key in metrics then metrics[key] else Blank(leaf.unit), ReadingsOf(trace, key), leaf);
  }

  lemma ReadingsOneMore(trace: Trace, key: RowKey, leaf: Leaf, k: RowKey)
    ensures ReadingsOf(trace + [(key, leaf)], k)
            == if k == key then ReadingsOf(trace, k) + [leaf] else ReadingsOf(trace, k)
  {
    assert (trace + [(key, leaf)])[..|trace|] == trace;
  }

  lemma CoverageOneMore(coverage: map<(string, string), Bucket>, events: seq<Event>, trace: Trace, key: RowKey,
      leaf: Leaf)
    requires CoverageOf(coverage, events, trace) && (key.tag, key.source) in coverage
    ensures var source := (key.tag, key.source);
            CoverageOf(coverage[source := Noted(coverage[source], leaf)], events, trace + [(key, leaf)])
  {
    assert (trace + [(key, leaf)])[..|trace|] == trace;
  }

  lemma IndicesOneMore(before: seq<Event>, e: Event, tag: string, source: string)
    ensures Indices(before + [e], tag, source)
            == Indices(before, tag, source)
               + if e.SampleGroup? && e.tag == tag && e.source == source then {e.index} else {}
  {
    assert forall x :: x in before + [e] <==> x in before || x == e;
  }

  lemma OtherEventCovers(coverage: map<(string, string), Bucket>, before: seq<Event>, e: Event, trace: Trace)
    requires CoverageOf(coverage, before, trace) && e.OtherEvent?
    ensures CoverageOf(coverage, before + [e], trace)
  {
    forall tag, source ensures Indices(before + [e], tag, source) == Indices(before, tag, source) {
      IndicesOneMore(before, e, tag, source);
    }
  }

  lemma GroupCovers(coverage: map<(string, string), Bucket>, before: seq<Event>, e: Event, trace: Trace)
    requires CoverageOf(coverage, before, trace) && e.SampleGroup?
    ensures var source := (e.tag, e.source);
            var bucket := if source in coverage then coverage[source] else Bucket({}, 0);
            CoverageOf(coverage[source := bucket.(indices := bucket.indices + {e.index})], before + [e], trace)
  {
    forall tag, source
      ensures Indices(before + [e], tag, source)
              == Indices(before, tag, source) + if e.tag == tag && e.source == source then {e.index} else {}
    {
      IndicesOneMore(before, e, tag, source);
    }
    assert (e.tag, e.source) !in coverage ==> Indices(before, e.tag, e.source) == {};
  }
}