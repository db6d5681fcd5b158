/** `scan_checkout` with its manifest cache in tools/inventory.py. */
module ScanCache {
  import opened Outcomes

  /** The bytes of a file, one character each. */
  type Data = string
  type Generator = string
  type Facts = seq<string>

  const MAX_FILE := 16 * 1024 * 1024
  const MAX_JSON := 128 * 1024 * 1024
  const MAX_TOTAL := 256 * 1024 * 1024
  const MAX_MEMBERS := 20000
  const MAX_FACTS := 250000

  /** A source file as one run reads it; `stable` says that it did not change meanwhile. */
  datatype File = File(name: string, data: Data, stable: bool)

  /** The facts of one text, and the sizes of the records that scanning it charges. */
  datatype Scanned = Scanned(facts: Facts, costs: seq<nat>)

  /** The scanning code of one generator: which data it refuses, which it takes as text, and
      what it finds there. */
  datatype Code = Code(isKey: Data -> bool, text: (string, Data) -> Option<string>,
      scan: (string, string) -> Result<Scanned>)

  datatype Entry = Entry(bytes: nat, digest: string, facts: Facts)

  datatype Manifest = Manifest(generator: Generator, files: map<string, Entry>)

  /** What a generator's code is, what the digest of data is, and how long a manifest is when
      it is written out. */
  datatype World = World(code: Generator -> Code, digest: Data -> string, size: Manifest -> nat)

  ghost predicate CollisionFree(digest: Data -> string) {
    forall a, b :: digest(a) == digest(b) ==> a == b
  }

  // ------------------------------------------------------------------ the budget

  function Sum(costs: seq<nat>): nat {
    if costs == [] then 0 else Sum(costs[..|costs| - 1]) + costs[|costs| - 1]
  }

  predicate Within(costs: seq<nat>) {
    |costs| <= MAX_FACTS && Sum(costs) <= MAX_JSON
  }

  lemma {:induction false} SumJoins(a: seq<nat>, b: seq<nat>)
    ensures Sum(a + b) == Sum(a) + Sum(b)
  {
    if b == [] {
      assert a + b == a;
    } else {
      assert (a + b)[..|a + b| - 1] == a + b[..|b| - 1];
      SumJoins(a, b[..|b| - 1]);
    }
  }

  class DiscoveryBudget {
    var records: nat
    var bytes: nat

    constructor ()
      ensures records == 0 && bytes == 0
    {
      records, bytes := 0, 0;
    }

    method Consume(cost: nat) returns (ok: bool)
      modifies this
      ensures records == old(records) + 1 && bytes == old(bytes) + cost
      ensures ok <==> records <= MAX_FACTS && bytes <= MAX_JSON
    {
      records := records + 1;
      bytes := bytes + cost;
      ok := records <= MAX_FACTS && bytes <= MAX_JSON;
    }

    /** Charging the records of one scan: it stops at the first that goes over, and so fails
        exactly when all of them together do. */
    method Charge(ghost charged: seq<nat>, costs: seq<nat>) returns (ok: bool)
      requires records == |charged| && bytes == Sum(charged) && Within(charged)
      modifies this
      ensures ok <==> Within(charged + costs)
      ensures ok ==> records == |charged + costs| && bytes == Sum(charged + costs)
    {
      assert charged + costs[..0] == charged;
      for k := 0 to |costs|
        invariant records == |charged + costs[..k]| && bytes == Sum(charged + costs[..k])
        invariant Within(charged + costs[..k])
      {
        assert (charged + costs[..k + 1])[..|charged| + k] == charged + costs[..k];
        ok := Consume(costs[k]);
        if !ok {
          assert charged + costs == (charged + costs[..k + 1]) + costs[k + 1..];
          SumJoins(charged + costs[..k + 1], costs[k + 1..]);
          return;
        }
      }
      assert costs[..|costs|] == costs;
      ok := true;
    }
  }

  // -------------------------------------------------------------- what a scan is

  predicate Readable(c: Code, f: File) {
    && f.stable && |f.data| <= MAX_FILE && !c.isKey(f.data)
    && var text := c.text(f.name, f.data);
       text.Some? ==> c.scan(f.name, text.value).Ok?
  }

  function TotalBytes(files: seq<File>): nat {
    if files == [] then 0 else TotalBytes(files[..|files| - 1]) + |files[|files| - 1].data|
  }

  predicate Scannable(c: Code, files: seq<File>) {
    (forall i :: 0 <= i < |files| ==> Readable(c, files[i])) && TotalBytes(files) <= MAX_TOTAL
  }

  /** The facts found in a readable file, if it is taken as text. */
  function Found(c: Code, f: File): Option<Scanned>
    requires Readable(c, f)
  {
    var text := c.text(f.name, f.data);
    if text.Some? then Some(c.scan(f.name, text.value).value) else None
  }

  /** The facts of a checkout: what its code finds in each of its files, and nothing else. */
  function FactsOf(c: Code, files: seq<File>): map<string, Facts>
    requires forall i :: 0 <= i < |files| ==> Readable(c, files[i])
  {
    if files == [] then map[] else
      var front, f := FactsOf(c, files[..|files| - 1]), files[|files| - 1];
      var found := Found(c, f);
      if found.Some? then front[f.name := found.value.facts] else front
  }

  function EntryOf(w: World, f: File, facts: Facts): Entry {
    Entry(|f.data|, w.digest(f.data), facts)
  }

  function EntriesOf(w: World, c: Code, files: seq<File>): map<string, Entry>
    requires forall i :: 0 <= i < |files| ==> Readable(c, files[i])
  {
    if files == [] then map[] else
      var front, f := EntriesOf(w, c, files[..|files| - 1]), files[|files| - 1];
      var found := Found(c, f);
      if found.Some? then front[f.name := EntryOf(w, f, found.value.facts)] else front
  }

  predicate Hit(w: World, cached: map<string, Entry>, f: File) {
    f.name in cached && cached[f.name].bytes == |f.data| && cached[f.name].digest == w.digest(f.data)
  }

  /** What the files charge that the cache does not answer. */
  function Charged(w: World, c: Code, cached: map<string, Entry>, files: seq<File>): seq<nat>
    requires forall i :: 0 <= i < |files| ==> Readable(c, files[i])
  {
    if files == [] then [] else
      var front, f := Charged(w, c, cached, files[..|files| - 1]), files[|files| - 1];
      var found := Found(c, f);
      if found.Some? && !Hit(w, cached, f) then front + found.value.costs else front
  }

  /** An entry that the code of a generator once found. */
  ghost predicate Genuine(w: World, g: Generator, name: string, e: Entry) {
    exists data, text, costs ::
      && w.digest(data) == e.digest && |data| == e.bytes
      && w.code(g).text(name, data) == Some(text)
      && w.code(g).scan(name, text) == Ok(Scanned(e.facts, costs))
  }

  ghost predicate AllGenuine(w: World, g: Generator, entries: map<string, Entry>) {
    forall name :: name in entries ==> Genuine(w, g, name, entries[name])
  }

  /** A genuine entry that fits the data of a readable file holds just what a scan would find. */
  lemma HitIsFound(w: World, g: Generator, cached: map<string, Entry>, f: File)
    requires CollisionFree(w.digest) && AllGenuine(w, g, cached) && Hit(w, cached, f)
    ensures w.code(g).text(f.name, f.data).Some? ==> w.code(g).scan(f.name, w.code(g).text(f.name, f.data).value).Ok?
    ensures Readable(w.code(g), f) ==>
              Found(w.code(g), f).Some? && Found(w.code(g), f).value.facts == cached[f.name].facts
  {
    var e := cached[f.name];
    var data, text, costs :|
      && w.digest(data) == e.digest && |data| == e.bytes
      && w.code(g).text(f.name, data) == Some(text)
      && w.code(g).scan(f.name, text) == Ok(Scanned(e.facts, costs));
    assert data == f.data;
  }

  // -------------------------------------------------------------------- one scan

  datatype Scan = Scan(facts: map<string, Facts>, manifest: Manifest)

  /** When a scan with this cache succeeds. */
  ghost predicate Succeeds(w: World, g: Generator, cached: map<string, Entry>, files: seq<File>) {
    && Scannable(w.code(g), files) && Within(Charged(w, w.code(g), cached, files))
    && FactsOf(w.code(g), files) != map[]
    && w.size(Manifest(g, EntriesOf(w, w.code(g), files))) <= MAX_JSON
  }

  /** The part of it that the loop over the files decides. */
  ghost predicate Passes(w: World, g: Generator, cached: map<string, Entry>, files: seq<File>) {
    Scannable(w.code(g), files) && Within(Charged(w, w.code(g), cached, files))
  }

  lemma OneMore(w: World, g: Generator, cached: map<string, Entry>, files: seq<File>, f: File)
    ensures var c := w.code(g);
            Passes(w, g, cached, files + [f]) ==> Passes(w, g, cached, files) && Readable(c, f)
    ensures var c := w.code(g);
            Passes(w, g, cached, files) && Readable(c, f) ==>
              && TotalBytes(files + [f]) == TotalBytes(files) + |f.data|
              && (forall i :: 0 <= i < |files + [f]| ==> Readable(c, (files + [f])[i]))
              && (Passes(w, g, cached, files + [f]) <==>
                    TotalBytes(files + [f]) <= MAX_TOTAL && Within(Charged(w, c, cached, files + [f])))
  {
    var c, all := w.code(g), files + [f];
    assert all[..|files|] == files && all[|files|] == f;
    if Passes(w, g, cached, all) {
      forall i | 0 <= i < |files| ensures Readable(c, files[i]) {
        assert all[i] == files[i];
      }
      SumJoins(Charged(w, c, cached, files), if Found(c, f).Some? then Found(c, f).value.costs else []);
    }
  }

  lemma {:induction false} Prefix(w: World, g: Generator, cached: map<string, Entry>, files: seq<File>, k: nat)
    requires k <= |files|
    ensures Passes(w, g, cached, files) ==> Passes(w, g, cached, files[..k])
    decreases |files|
  {
    if k == |files| {
      assert files[..k] == files;
    } else {
      var n := |files| - 1;
      assert files == files[..n] + [files[n]] && files[..n][..k] == files[..k];
      OneMore(w, g, cached, files[..n], files[n]);
      Prefix(w, g, cached, files[..n], k);
    }
  }

  /** What the loop over the files has collected. */
  datatype Collected = Collected(facts: map<string, Facts>, entries: map<string, Entry>, total: nat)

  function CollectedOf(w: World, g: Generator, files: seq<File>): Collected
    requires forall i :: 0 <= i < |files| ==> Readable(w.code(g), files[i])
  {
    Collected(FactsOf(w.code(g), files), EntriesOf(w, w.code(g), files), TotalBytes(files))
  }

  /** One file: the loop goes on exactly when the files up to here pass, and what it collects
      does not depend on the cache. */
  method Take(w: World, g: Generator, cached: map<string, Entry>, ghost before: seq<File>, f: File,
              budget: DiscoveryBudget, c: Collected)
    returns (ok: bool, d: Collected)
    requires CollisionFree(w.digest) && AllGenuine(w, g, cached) && Passes(w, g, cached, before)
    requires c == CollectedOf(w, g, before)
    requires var charged := Charged(w, w.code(g), cached, before);
             budget.records == |charged| && budget.bytes == Sum(charged)
    modifies budget
    ensures ok <==> Passes(w, g, cached, before + [f])
    ensures ok ==> d == CollectedOf(w, g, before + [f])
    ensures ok ==> var charged := Charged(w, w.code(g), cached, before + [f]);
                   budget.records == |charged| && budget.bytes == Sum(charged)
  {
    var code := w.code(g);
    d := c;
    OneMore(w, g, cached, before, f);
    assert (before + [f])[..|before|] == before;
    if !f.stable || |f.data| > MAX_FILE {
      return false, d;
    }
    var total := c.total + |f.data|;
    if total > MAX_TOTAL || code.isKey(f.data) {
      return false, d;
    }
    var text := code.text(f.name, f.data);
    if text.None? {
      return true, c.(total := total);
    }
    var facts;
    if Hit(w, cached, f) {
      HitIsFound(w, g, cached, f);
      facts := cached[f.name].facts;
    } else {
      var scanned := code.scan(f.name, text.value);
      if scanned.Raised? {
        return false, d;
      }
      ok := budget.Charge(Charged(w, code, cached, before), scanned.value.costs);
      if !ok {
        return;
      }
      facts := scanned.value.facts;
    }
    ok := true;
    d := Collected(c.facts[f.name := facts], c.entries[f.name := EntryOf(w, f, facts)], total);
  }

  /** A scan succeeds exactly when it can, and then its facts and its new manifest are those of
      the files alone. */
  method ScanCheckout(w: World, g: Generator, cached: map<string, Entry>, files: seq<File>) returns (r: Result<Scan>)
    requires CollisionFree(w.digest) && AllGenuine(w, g, cached)
    ensures r.Ok? <==> Succeeds(w, g, cached, files)
    ensures r.Ok? ==> r.value == Scan(FactsOf(w.code(g), files), Manifest(g, EntriesOf(w, w.code(g), files)))
  {
    var budget := new DiscoveryBudget();
    var c := Collected(map[], map[], 0);
    for k := 0 to |files|
      invariant fresh(budget)
      invariant Passes(w, g, cached, files[..k]) && c == CollectedOf(w, g, files[..k])
      invariant var charged := Charged(w, w.code(g), cached, files[..k]);
                budget.records == |charged| && budget.bytes == Sum(charged)
    {
      assert files[..k + 1] == files[..k] + [files[k]];
      Prefix(w, g, cached, files, k + 1);
      var ok;
      ok, c := Take(w, g, cached, files[..k], files[k], budget, c);
      if !ok {
        return Raised("checkout cannot be scanned");
      }
    }
    assert files[..|files|] == files;
    if c.facts == map[] {
      return Raised("installer source tree is empty");
    }
    var manifest := Manifest(g, c.entries);
    if w.size(manifest) > MAX_JSON {
      return Raised("inventory manifest exceeds byte limit");
    }
    return Ok(Scan(c.facts, manifest));
  }

  // --------------------------------------------------------- the cache over runs

  /** Written manifests hold only what their generator's code found. */
  lemma {:induction false} EntriesAreGenuine(w: World, g: Generator, files: seq<File>)
    requires forall i :: 0 <= i < |files| ==> Readable(w.code(g), files[i])
    ensures AllGenuine(w, g, EntriesOf(w, w.code(g), files))
  {
    if files != [] {
      var n := |files| - 1;
      EntriesAreGenuine(w, g, files[..n]);
      var f, c := files[n], w.code(g);
      if Found(c, f).Some? {
        var text := c.text(f.name, f.data).value;
        var s := Found(c, f).value;
        assert c.scan(f.name, text) == Ok(Scanned(s.facts, s.costs));
        assert w.digest(f.data) == EntryOf(w, f, s.facts).digest;
        assert Genuine(w, g, f.name, EntryOf(w, f, s.facts));
      }
    }
  }

  lemma {:induction false} CacheSaves(w: World, g: Generator, cached: map<string, Entry>, files: seq<File>)
    requires forall i :: 0 <= i < |files| ==> Readable(w.code(g), files[i])
    ensures var warm, cold := Charged(w, w.code(g), cached, files), Charged(w, w.code(g), map[], files);
            |warm| <= |cold| && Sum(warm) <= Sum(cold)
  {
    if files != [] {
      var n := |files| - 1;
      CacheSaves(w, g, cached, files[..n]);
      var c, f := w.code(g), files[n];
      if Found(c, f).Some? {
        SumJoins(Charged(w, c, cached, files[..n]), Found(c, f).value.costs);
        SumJoins(Charged(w, c, map[], files[..n]), Found(c, f).value.costs);
      }
    }
  }

  /** Where a cold scan succeeds, so does a scan with any cache. */
  lemma ColdThenWarm(w: World, g: Generator, cached: map<string, Entry>, files: seq<File>)
    ensures Succeeds(w, g, map[], files) ==> Succeeds(w, g, cached, files)
  {
    if Succeeds(w, g, map[], files) {
      CacheSaves(w, g, cached, files);
    }
  }

  /** A cache makes a scan succeed that fails without it only by keeping it within the budget. */
  lemma OnlyTheBudget(w: World, g: Generator, cached: map<string, Entry>, files: seq<File>)
    requires Succeeds(w, g, cached, files)
    ensures Succeeds(w, g, map[], files) <==> Within(Charged(w, w.code(g), map[], files))
  {
  }

  /** How long a list of facts is when it is written out, at ten bytes of notation each. */
  function FactsSize(facts: Facts): nat {
    if facts == [] then 0 else FactsSize(facts[..|facts| - 1]) + |facts[|facts| - 1]| + 10
  }

  /** How long the entries with these names are, at a thousand bytes of notation each. */
  ghost function EntriesSize(entries: map<string, Entry>, names: set<string>): nat
    requires names <= entries.Keys
  {
    if names == {} then 0 else
      var name :| name in names;
      EntriesSize(entries, names - {name}) + FactsSize(entries[name].facts) + |name| + 1000
  }

  /** A scanner that records each character of a text, at three bytes a record. */
  ghost function CharacterWorld(): World {
    World(_ => Code(_ => false, (_, data) => Some(data),
                    (_, text) =>
                      Ok(Scanned(seq(|text|, i requires 0 <= i < |text| => [text[i]]), seq(|text|, _ => 3)))),
          data => data, (m: Manifest) => 1000 + EntriesSize(m.files, m.files.Keys))
  }

  /** Half of the records that the budget allows, and one more. */
  const HALF: nat := MAX_FACTS / 2 + 1

  function Long(name: string): File {
    File(name, seq(HALF, _ => 'x'), true)
  }

  lemma {:induction false} SumOfThrees(n: nat)
    ensures Sum(seq(n, _ => 3)) == 3 * n
  {
    if n > 0 {
      SumOfThrees(n - 1);
      assert seq(n, _ => 3)[..n - 1] == seq(n - 1, _ => 3);
    }
  }

  lemma {:induction false} ShortFacts(facts: Facts)
    requires forall i :: 0 <= i < |facts| ==> |facts[i]| == 1
    ensures FactsSize(facts) == 11 * |facts|
  {
    if facts != [] {
      ShortFacts(facts[..|facts| - 1]);
    }
  }

  lemma {:induction false} FewEntries(entries: map<string, Entry>, names: set<string>, bound: nat)
    requires names <= entries.Keys && forall n :: n in names ==> FactsSize(entries[n].facts) + |n| + 1000 <= bound
    ensures EntriesSize(entries, names) <= |names| * bound
    decreases names
  {
    if names != {} {
      var name :| name in names && EntriesSize(entries, names)
                  == EntriesSize(entries, names - {name}) + FactsSize(entries[name].facts) + |name| + 1000;
      FewEntries(entries, names - {name}, bound);
      OneMoreTime(|names - {name}|, bound);
    }
  }

  lemma OneMoreTime(n: nat, b: nat)
    ensures (n + 1) * b == n * b + b
  {
  }

  /** What two files that are taken as text give. */
  lemma TwoFiles(w: World, c: Code, cached: map<string, Entry>, a: File, b: File)
    requires Readable(c, a) && Readable(c, b) && Found(c, a).Some? && Found(c, b).Some?
    ensures forall i :: 0 <= i < |[a, b]| ==> Readable(c, [a, b][i])
    ensures Charged(w, c, cached, [a]) == if Hit(w, cached, a) then [] else Found(c, a).value.costs
    ensures Charged(w, c, cached, [a, b])
            == Charged(w, c, cached, [a]) + if Hit(w, cached, b) then [] else Found(c, b).value.costs
    ensures EntriesOf(w, c, [a]) == map[a.name := EntryOf(w, a, Found(c, a).value.facts)]
    ensures EntriesOf(w, c, [a, b]) == EntriesOf(w, c, [a])[b.name := EntryOf(w, b, Found(c, b).value.facts)]
    ensures a.name in FactsOf(c, [a]) && b.name in FactsOf(c, [a, b])
    ensures TotalBytes([a]) == |a.data| && TotalBytes([a, b]) == |a.data| + |b.data|
  {
    assert [a][..0] == [] && [a, b][..1] == [a];
  }

  predicate SmallManifests(w: World, g: Generator, a: File, b: File)
    requires Readable(w.code(g), a) && Readable(w.code(g), b)
  {
    && (forall i :: 0 <= i < |[a, b]| ==> Readable(w.code(g), [a, b][i]))
    && w.size(Manifest(g, EntriesOf(w, w.code(g), [a]))) <= MAX_JSON
    && w.size(Manifest(g, EntriesOf(w, w.code(g), [a, b]))) <= MAX_JSON
  }

  lemma FirstDay(w: World, g: Generator, a: File)
    requires Readable(w.code(g), a) && Found(w.code(g), a).Some? && Within(Found(w.code(g), a).value.costs)
    requires |a.data| <= MAX_TOTAL
    requires (forall i :: 0 <= i < |[a]| ==> Readable(w.code(g), [a][i]))
             && w.size(Manifest(g, EntriesOf(w, w.code(g), [a]))) <= MAX_JSON
    ensures Succeeds(w, g, map[], [a])
  {
    TwoFiles(w, w.code(g), map[], a, a);
    assert FactsOf(w.code(g), [a]) != map[];
  }

  /** Where nothing but the budget is in question, what is charged decides. */
  lemma BudgetDecides(w: World, g: Generator, cached: map<string, Entry>, a: File, b: File)
    requires Readable(w.code(g), a) && Readable(w.code(g), b) && SmallManifests(w, g, a, b)
    requires Found(w.code(g), a).Some? && Found(w.code(g), b).Some? && |a.data| + |b.data| <= MAX_TOTAL
    ensures Succeeds(w, g, cached, [a, b]) <==> Within(Charged(w, w.code(g), cached, [a, b]))
  {
    TwoFiles(w, w.code(g), cached, a, b);
    assert FactsOf(w.code(g), [a, b]) != map[];
  }

  /** The first day's manifest answers for the first file only. */
  lemma WhatIsCharged(w: World, c: Code, a: File, b: File)
    requires Readable(c, a) && Readable(c, b) && Found(c, a).Some? && Found(c, b).Some? && a.name != b.name
    ensures (forall i :: 0 <= i < |[a]| ==> Readable(c, [a][i]))
            && (forall i :: 0 <= i < |[a, b]| ==> Readable(c, [a, b][i]))
    ensures Charged(w, c, EntriesOf(w, c, [a]), [a, b]) == Found(c, b).value.costs
    ensures Charged(w, c, map[], [a, b]) == Found(c, a).value.costs + Found(c, b).value.costs
  {
    TwoFiles(w, c, map[], a, b);
    var first := EntriesOf(w, c, [a]);
    assert Hit(w, first, a) && !Hit(w, first, b);
    TwoFiles(w, c, first, a, b);
  }

  lemma TwoSmallManifests(w: World, g: Generator, a: File, b: File)
    requires Readable(w.code(g), a) && Readable(w.code(g), b) && Found(w.code(g), a).Some? && Found(w.code(g), b).Some?
    requires var first := map[a.name := EntryOf(w, a, Found(w.code(g), a).value.facts)];
             && w.size(Manifest(g, first)) <= MAX_JSON
             && w.size(Manifest(g, first[b.name := EntryOf(w, b, Found(w.code(g), b).value.facts)])) <= MAX_JSON
    ensures SmallManifests(w, g, a, b)
  {
    TwoFiles(w, w.code(g), map[], a, b);
  }

  /** Files that fit the budget one by one but not together: the second day's scan succeeds on
      the first day's manifest, and fails without it. */
  lemma SecondDay(w: World, g: Generator, a: File, b: File)
    requires Readable(w.code(g), a) && Readable(w.code(g), b) && SmallManifests(w, g, a, b)
    requires Found(w.code(g), a).Some? && Found(w.code(g), b).Some?
    requires Within(Found(w.code(g), b).value.costs)
    requires |Found(w.code(g), a).value.costs| + |Found(w.code(g), b).value.costs| > MAX_FACTS
    requires a.name != b.name && |a.data| + |b.data| <= MAX_TOTAL
    ensures Succeeds(w, g, EntriesOf(w, w.code(g), [a]), [a, b]) && !Succeeds(w, g, map[], [a, b])
  {
    WhatIsCharged(w, w.code(g), a, b);
    BudgetDecides(w, g, map[], a, b);
    BudgetDecides(w, g, EntriesOf(w, w.code(g), [a]), a, b);
  }

  /** One long file in this world. */
  lemma LongFile(name: string)
    ensures var c, f := CharacterWorld().code("g"), Long(name);
            && Readable(c, f) && Found(c, f).Some?
            && |Found(c, f).value.costs| == HALF && Sum(Found(c, f).value.costs) == 3 * HALF
            && FactsSize(Found(c, f).value.facts) == 11 * HALF
  {
    SumOfThrees(HALF);
    ShortFacts(Found(CharacterWorld().code("g"), Long(name)).value.facts);
  }

  lemma SmallManifest(entries: map<string, Entry>)
    requires |entries| <= 2 && forall n :: n in entries ==> |n| == 1 && FactsSize(entries[n].facts) == 11 * HALF
    ensures CharacterWorld().size(Manifest("g", entries)) <= MAX_JSON
  {
    FewEntries(entries, entries.Keys, 11 * HALF + 1001);
    assert |entries.Keys| == |entries|;
    assert EntriesSize(entries, entries.Keys) <= 2 * (11 * HALF + 1001);
  }

  lemma LongFilesAreSmall()
    ensures var c := CharacterWorld().code("g"); Readable(c, Long("a")) && Readable(c, Long("b"))
    ensures SmallManifests(CharacterWorld(), "g", Long("a"), Long("b"))
  {
    LongFile("a");
    LongFile("b");
    var w := CharacterWorld();
    var first := map["a" := EntryOf(w, Long("a"), Found(w.code("g"), Long("a")).value.facts)];
    SmallManifest(first);
    SmallManifest(first["b" := EntryOf(w, Long("b"), Found(w.code("g"), Long("b")).value.facts)]);
    TwoSmallManifests(w, "g", Long("a"), Long("b"));
  }

  /** Two files that together have more records than the budget allows: with the manifest of the
      first one their scan succeeds, without it it fails. */
  lemma WarmBeyondCold()
    ensures var w, a, b := CharacterWorld(), Long("a"), Long("b");
            && Succeeds(w, "g", map[], [a])
            && Succeeds(w, "g", EntriesOf(w, w.code("g"), [a]), [a, b])
            && !Succeeds(w, "g", map[], [a, b])
  {
    LongFile("a");
    LongFile("b");
    LongFilesAreSmall();
    FirstDay(CharacterWorld(), "g", Long("a"));
    SecondDay(CharacterWorld(), "g", Long("a"), Long("b"));
  }

  /** The manifest file as a run finds it. */
  datatype Stored = Missing | Unreadable | Malformed | Written(manifest: Manifest)

  /** `cached_manifest`: what is malformed or of another generator answers nothing. */
  function CachedManifest(s: Stored, g: Generator): Result<map<string, Entry>> {
    match s
    case Unreadable => Raised("unsafe or oversized manifest")
    case Written(m) =>
      if && m.generator == g && |m.files| <= MAX_MEMBERS
         && forall name :: name in m.files ==> m.files[name].bytes <= MAX_FILE
      then Ok(m.files) else Ok(map[])
    case _ => Ok(map[])
  }

  /** What happens at one run: the files and the generator of the day, whether the run's
      manifest is written back, and whether the file is damaged or removed afterwards. */
  datatype Day = Day(files: seq<File>, generator: Generator, kept: bool, damage: Option<Damage>)

  datatype Damage = Removed | Replaced | Garbled

  class Checkout {
    var stored: Stored

    constructor ()
      ensures stored == Missing
    {
      stored := Missing;
    }

    ghost predicate Valid(w: World)
      reads this
    {
      stored.Written? ==> AllGenuine(w, stored.manifest.generator, stored.manifest.files)
    }

    /** One run. Its facts are those of a cold scan whenever there is one; otherwise they are
        still those of the files, or it raises. */
    method Run(w: World, d: Day) returns (r: Result<map<string, Facts>>)
      requires CollisionFree(w.digest) && Valid(w)
      modifies this
      ensures Valid(w)
      ensures r.Ok? ==> Scannable(w.code(d.generator), d.files) && r.value == FactsOf(w.code(d.generator), d.files)
      ensures !old(stored).Unreadable? && Succeeds(w, d.generator, map[], d.files) ==> r.Ok?
      ensures stored.Unreadable? ==> old(stored).Unreadable? || d.damage == Some(Replaced)
      ensures r.Ok? && d.kept && d.damage.None? ==>
                stored == Written(Manifest(d.generator, EntriesOf(w, w.code(d.generator), d.files)))
    {
      var cached := CachedManifest(stored, d.generator);
      if cached.Ok? {
        ColdThenWarm(w, d.generator, cached.value, d.files);
        var scan := ScanCheckout(w, d.generator, cached.value, d.files);
        if scan.Ok? {
          EntriesAreGenuine(w, d.generator, d.files);
          if d.kept {
            stored := Written(scan.value.manifest);
          }
          r := Ok(scan.value.facts);
        } else {
          r := Raised(scan.reason);
        }
      } else {
        r := Raised(cached.reason);
      }
      match d.damage {
        case None =>
        case Some(Removed) => stored := Missing;
        case Some(Replaced) => stored := Unreadable;
        case Some(Garbled) => stored := Malformed;
      }
    }

    /** Any sequence of runs, with any edits and generators between them. */
    method Runs(w: World, days: seq<Day>) returns (rs: seq<Result<map<string, Facts>>>)
      requires CollisionFree(w.digest) && Valid(w)
      modifies this
      ensures Valid(w) && |rs| == |days|
      ensures forall i :: 0 <= i < |days| && rs[i].Ok? ==>
                Scannable(w.code(days[i].generator), days[i].files)
                && rs[i].value == FactsOf(w.code(days[i].generator), days[i].files)
      ensures !old(stored).Unreadable? && (forall d :: d in days ==> d.damage != Some(Replaced)) ==>
                forall i :: 0 <= i < |days| && Succeeds(w, days[i].generator, map[], days[i].files) ==> rs[i].Ok?
    {
      rs := [];
      ghost var intact := !stored.Unreadable? && forall d :: d in days ==> d.damage != Some(Replaced);
      for k := 0 to |days|
        invariant Valid(w) && |rs| == k
        invariant forall i :: 0 <= i < k && rs[i].Ok? ==>
                    Scannable(w.code(days[i].generator), days[i].files)
                    && rs[i].value == FactsOf(w.code(days[i].generator), days[i].files)
        invariant intact ==> !stored.Unreadable?
        invariant intact ==>
                    forall i :: 0 <= i < k && Succeeds(w, days[i].generator, map[], days[i].files) ==> rs[i].Ok?
      {
        var r := Run(w, days[k]);
        rs := rs + [r];
      }
    }
  }
}