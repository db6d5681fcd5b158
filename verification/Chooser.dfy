/** `choose` of `resolve_catalog` in tools/inventory.py: one candidate for a name, or none. */
module Chooser {
  import opened Outcomes
  import opened CatalogChoice
  import opened Orders
  import DV = DebianVersion

  const MOST_ROWS := 4096

  datatype Choice = Nothing | Ambiguous | Chosen(candidate: Candidate)

  type Planned = map<string, Candidate>

  type Installed = map<(string, string), Candidate>

  // ------------------------------------------------------- grouping by version

  /** The distinct identities of the rows, in the order of their first rows. */
  function Identities(rows: seq<Row>): seq<Identity> {
    if rows == [] then [] else
      var n := |rows| - 1;
      var ids := Identities(rows[..n]);
      if IdentityOf(rows[n]) in ids then ids else ids + [IdentityOf(rows[n])]
  }

  function CopiesOf(rows: seq<Row>, id: Identity): seq<Row> {
    if rows == [] then [] else
      var n := |rows| - 1;
      CopiesOf(rows[..n], id) + if IdentityOf(rows[n]) == id then [rows[n]] else []
  }

  lemma {:induction false} InCopies(rows: seq<Row>, id: Identity, r: Row)
    ensures r in CopiesOf(rows, id) <==> r in rows && IdentityOf(r) == id
  {
    if rows != [] {
      InCopies(rows[..|rows| - 1], id, r);
      assert r in rows <==> r in rows[..|rows| - 1] || r == rows[|rows| - 1];
    }
  }

  lemma {:induction false} HasCopies(rows: seq<Row>, id: Identity)
    ensures id in Identities(rows) <==> CopiesOf(rows, id) != []
  {
    if rows != [] {
      HasCopies(rows[..|rows| - 1], id);
    }
  }

  method Enter(order: seq<Identity>, table: map<Identity, seq<Row>>, row: Row, ghost rows: seq<Row>)
    returns (order': seq<Identity>, table': map<Identity, seq<Row>>)
    requires order == Identities(rows) && IsTable(table, rows)
    ensures order' == Identities(rows + [row]) && IsTable(table', rows + [row])
  {
    TableOneMore(table, rows, row);
    order' := if IdentityOf(row) in table then order else order + [IdentityOf(row)];
    table' := Entered(table, row);
  }

  lemma KeptOneMore(ctx: Context, q: Query, found: seq<Found>, k: nat)
    requires k < |found|
    ensures Kept(ctx, q, found[..k + 1])
            == if Eligible(ctx, q, found[k])
               then Kept(ctx, q, found[..k]) + [found[k].row] else Kept(ctx, q, found[..k])
  {
    assert found[..k + 1][..k] == found[..k];
  }

  /** The loop over the query's rows: it drops what is not eligible and groups the rest. */
  method Collect(ctx: Context, q: Query, found: seq<Found>)
      returns (order: seq<Identity>, table: map<Identity, seq<Row>>)
    ensures order == Identities(Kept(ctx, q, found)) && IsTable(table, Kept(ctx, q, found))
  {
    order, table := [], map[];
    for k := 0 to |found|
      invariant order == Identities(Kept(ctx, q, found[..k])) && IsTable(table, Kept(ctx, q, found[..k]))
    {
      KeptOneMore(ctx, q, found, k);
      if Eligible(ctx, q, found[k]) {
        order, table := Enter(order, table, found[k].row, Kept(ctx, q, found[..k]));
      }
    }
    assert found[..|found|] == found;
  }

  lemma GroupOneMore(rows: seq<Row>, row: Row, id: Identity)
    ensures CopiesOf(rows + [row], id)
            == if id == IdentityOf(row) then CopiesOf(rows, id) + [row] else CopiesOf(rows, id)
    ensures Identities(rows + [row])
            == if IdentityOf(row) in Identities(rows)
               then Identities(rows) else Identities(rows) + [IdentityOf(row)]
    ensures id !in Identities(rows) ==> CopiesOf(rows, id) == []
  {
    assert (rows + [row])[..|rows|] == rows;
    HasCopies(rows, id);
  }

  /** The table of the groups, keyed by what the rows have in common. */
  ghost predicate IsTable(table: map<Identity, seq<Row>>, rows: seq<Row>) {
    forall id :: (id in table <==> id in Identities(rows)) && (id in table ==> table[id] == CopiesOf(rows, id))
  }

  function Entered(table: map<Identity, seq<Row>>, row: Row): map<Identity, seq<Row>> {
    var id := IdentityOf(row);
    table[id := (if id in table then table[id] else []) + [row]]
  }

  lemma TableOneMore(table: map<Identity, seq<Row>>, rows: seq<Row>, row: Row)
    requires IsTable(table, rows)
    ensures IsTable(Entered(table, row), rows + [row])
    ensures var id := IdentityOf(row);
            Identities(rows + [row]) == if id in table then Identities(rows) else Identities(rows) + [id]
  {
    forall id
      ensures id in Entered(table, row) <==> id in Identities(rows + [row])
      ensures id in Entered(table, row) ==> Entered(table, row)[id] == CopiesOf(rows + [row], id)
    {
      GroupOneMore(rows, row, id);
    }
    GroupOneMore(rows, row, IdentityOf(row));
  }

  // -------------------------------------------------------------------- choices

  predicate SuiteAllows(ctx: Context, q: Query, copies: seq<Row>)
    requires AllKnown(ctx, copies)
  {
    q.suite.None? || exists i :: 0 <= i < |copies| && InSuite(ctx, copies[i], q.suite.value)
  }

  /** The choice that all copies of one version make, if their priority is positive. */
  function ChoiceOf(ctx: Context, q: Query, copies: seq<Row>): Option<Candidate>
    requires copies != [] && AllKnown(ctx, copies)
  {
    if !SuiteAllows(ctx, q, copies) || PriorityOf(ctx, q, copies) <= 0 then None
    else Some(Candidate(Best(ByCopy(ctx), copies), PriorityOf(ctx, q, copies)))
  }

  ghost predicate Grouped(ctx: Context, rows: seq<Row>, ids: seq<Identity>) {
    forall i :: 0 <= i < |ids| ==> CopiesOf(rows, ids[i]) != [] && AllKnown(ctx, CopiesOf(rows, ids[i]))
  }

  ghost function ChoicesOf(ctx: Context, q: Query, rows: seq<Row>, ids: seq<Identity>): seq<Candidate>
    requires Grouped(ctx, rows, ids)
  {
    if ids == [] then [] else
      var n := |ids| - 1;
      var c := ChoiceOf(ctx, q, CopiesOf(rows, ids[n]));
      FrontIsGrouped(ctx, rows, ids);
      ChoicesOf(ctx, q, rows, ids[..n]) + if c.Some? then [c.value] else []
  }

  function Real(name: string, cs: seq<Candidate>): (r: seq<Candidate>)
    ensures forall c :: c in r <==> c in cs && c.row.package == name
  {
    if cs == [] then [] else
      var n := |cs| - 1;
      assert forall c :: c in cs <==> c in cs[..n] || c == cs[n];
      Real(name, cs[..n]) + if cs[n].row.package == name then [cs[n]] else []
  }

  predicate IsPlanned(planned: Planned, c: Candidate) {
    c.row.package in planned && planned[c.row.package].row.version == c.row.version
  }

  function Present(planned: Planned, cs: seq<Candidate>): (r: seq<Candidate>)
    ensures forall c :: c in r <==> c in cs && IsPlanned(planned, c)
  {
    if cs == [] then [] else
      var n := |cs| - 1;
      assert forall c :: c in cs <==> c in cs[..n] || c == cs[n];
      Present(planned, cs[..n]) + if IsPlanned(planned, cs[n]) then [cs[n]] else []
  }

  /** The candidates that compete, unless several packages provide the name and none is planned. */
  function Finals(name: string, planned: Planned, cs: seq<Candidate>): Option<seq<Candidate>> {
    if Real(name, cs) != [] then Some(Real(name, cs))
    else if Present(planned, cs) != [] then Some(Present(planned, cs))
    else if exists i, j :: 0 <= i < |cs| && 0 <= j < |cs| && cs[i].row.package != cs[j].row.package then None
    else Some(cs)
  }

  /** The downgrade rule: the installed version stays in place of a lower candidate, unless it may not. */
  predicate KeepsInstalled(q: Query, best: Candidate, installed: Installed) {
    var key := (best.row.package, q.kind);
    && key in installed && !q.downgrade && best.pin <= 1000
    && DV.Compare(best.row.version, installed[key].row.version) < 0
    && Satisfies(installed[key].row.version, q.relation)
  }

  function Settled(q: Query, best: Candidate, installed: Installed): Candidate {
    if KeepsInstalled(q, best, installed) then installed[(best.row.package, q.kind)] else best
  }

  function ChosenOf(ctx: Context, q: Query, cs: seq<Candidate>, planned: Planned, installed: Installed): Choice {
    if cs == [] then Nothing
    else
      var finals := Finals(q.name, planned, cs);
      if finals.None? then Ambiguous
      else Chosen(Settled(q, Best(ByCandidate(ctx, q.name), finals.value), installed))
  }

  // ------------------------------------------------------------------ the method

  function Returned(ctx: Context, q: Query): seq<Found> {
    ctx.catalog(q.name, q.kind, q.architecture)
  }

  /** What the query returns and the filters keep. */
  function Competing(ctx: Context, q: Query): seq<Row> {
    Kept(ctx, q, Returned(ctx, q))
  }

  lemma CompetingIsGrouped(ctx: Context, q: Query)
    requires Sound(ctx)
    ensures Grouped(ctx, Competing(ctx, q), Identities(Competing(ctx, q)))
  {
    var rows := Competing(ctx, q);
    var ids := Identities(rows);
    forall i | 0 <= i < |ids| ensures CopiesOf(rows, ids[i]) != [] && AllKnown(ctx, CopiesOf(rows, ids[i])) {
      HasCopies(rows, ids[i]);
      var copies := CopiesOf(rows, ids[i]);
      forall j | 0 <= j < |copies| ensures copies[j].repository in ctx.repos {
        assert copies[j] in copies;
        InCopies(rows, ids[i], copies[j]);
        KeptAreEligible(ctx, q, Returned(ctx, q), copies[j]);
      }
    }
  }

  ghost function AllChoices(ctx: Context, q: Query): seq<Candidate>
    requires Sound(ctx)
  {
    CompetingIsGrouped(ctx, q);
    ChoicesOf(ctx, q, Competing(ctx, q), Identities(Competing(ctx, q)))
  }

  ghost function Outcome(ctx: Context, q: Query, planned: Planned, installed: Installed): Choice
    requires Sound(ctx)
  {
    if q.name in ctx.excluded then Nothing else ChosenOf(ctx, q, AllChoices(ctx, q), planned, installed)
  }

  /** One group: its priority, and the copy that it would be downloaded from. */
  method OneChoice(ctx: Context, q: Query, copies: seq<Row>) returns (c: Option<Candidate>)
    requires copies != [] && AllKnown(ctx, copies)
    ensures c == ChoiceOf(ctx, q, copies)
  {
    if !SuiteAllows(ctx, q, copies) {
      return None;
    }
    var priority := CopiesPriority(ctx, q, copies);
    c := if priority > 0 then Some(Candidate(Best(ByCopy(ctx), copies), priority)) else None;
  }

  /** The loop over the groups. */
  method Choices(ctx: Context, q: Query, order: seq<Identity>, table: map<Identity, seq<Row>>, ghost rows: seq<Row>)
    returns (choices: seq<Candidate>)
    requires order == Identities(rows) && IsTable(table, rows) && Grouped(ctx, rows, order)
    ensures choices == ChoicesOf(ctx, q, rows, order)
  {
    choices := [];
    PrefixesAreGrouped(ctx, rows, order);
    for k := 0 to |order|
      invariant choices == ChoicesOf(ctx, q, rows, order[..k])
    {
      ChoicesOneMore(ctx, q, rows, order, k);
      assert order[k] in order;
      var c := OneChoice(ctx, q, table[order[k]]);
      choices := choices + if c.Some? then [c.value] else [];
    }
    assert order[..|order|] == order;
  }

  method Choose(ctx: Context, q: Query, planned: Planned, installed: Installed) returns (r: Result<Choice>)
    requires Sound(ctx)
    ensures r.Ok? <==> q.name in ctx.excluded || |Returned(ctx, q)| <= MOST_ROWS
    ensures r.Ok? ==> r.value == Outcome(ctx, q, planned, installed)
  {
    if q.name in ctx.excluded {
      return Ok(Nothing);
    }
    if |Returned(ctx, q)| > MOST_ROWS {
      return Raised("per-package APT candidate limit exceeded");
    }
    var order, table := Collect(ctx, q, Returned(ctx, q));
    CompetingIsGrouped(ctx, q);
    var choices := Choices(ctx, q, order, table, Competing(ctx, q));
    var c := Pick(ctx, q, choices, planned, installed);
    r := Ok(c);
  }

  method Pick(ctx: Context, q: Query, choices: seq<Candidate>, planned: Planned, installed: Installed)
      returns (c: Choice)
    ensures c == ChosenOf(ctx, q, choices, planned, installed)
  {
    if choices == [] {
      return Nothing;
    }
    var finals := Finals(q.name, planned, choices);
    if finals.None? {
      return Ambiguous;
    }
    var candidate := Best(ByCandidate(ctx, q.name), finals.value);
    var key := (candidate.row.package, q.kind);
    if key in installed && !q.downgrade && candidate.pin <= 1000 {
      var order := DV.VersionCompare(candidate.row.version, installed[key].row.version);
      if order.value < 0 && Satisfies(installed[key].row.version, q.relation) {
        return Chosen(installed[key]);
      }
    }
    return Chosen(candidate);
  }

  // --------------------------------------------------------- what a choice means

  lemma PrefixesAreGrouped(ctx: Context, rows: seq<Row>, ids: seq<Identity>)
    requires Grouped(ctx, rows, ids)
    ensures forall k :: 0 <= k <= |ids| ==> Grouped(ctx, rows, ids[..k])
  {
    forall k | 0 <= k <= |ids| ensures Grouped(ctx, rows, ids[..k]) {
      assert forall i :: 0 <= i < k ==> ids[..k][i] == ids[i];
    }
  }

  lemma ChoicesOneMore(ctx: Context, q: Query, rows: seq<Row>, ids: seq<Identity>, k: nat)
    requires Grouped(ctx, rows, ids) && k < |ids| && Grouped(ctx, rows, ids[..k]) && Grouped(ctx, rows, ids[..k + 1])
    ensures var c := ChoiceOf(ctx, q, CopiesOf(rows, ids[k]));
            ChoicesOf(ctx, q, rows, ids[..k + 1])
            == ChoicesOf(ctx, q, rows, ids[..k]) + if c.Some? then [c.value] else []
  {
    assert ids[..k + 1][..k] == ids[..k];
  }

  lemma FrontIsGrouped(ctx: Context, rows: seq<Row>, ids: seq<Identity>)
    requires ids != [] && Grouped(ctx, rows, ids)
    ensures Grouped(ctx, rows, ids[..|ids| - 1])
  {
    assert forall i :: 0 <= i < |ids| - 1 ==> ids[..|ids| - 1][i] == ids[i];
  }

  lemma {:induction false} ChoiceHasGroup(ctx: Context, q: Query, rows: seq<Row>, ids: seq<Identity>, c: Candidate)
    returns (i: nat)
    requires Grouped(ctx, rows, ids) && c in ChoicesOf(ctx, q, rows, ids)
    ensures i < |ids| && ChoiceOf(ctx, q, CopiesOf(rows, ids[i])) == Some(c)
  {
    i := |ids| - 1;
    FrontIsGrouped(ctx, rows, ids);
    if ChoiceOf(ctx, q, CopiesOf(rows, ids[i])) != Some(c) {
      i := ChoiceHasGroup(ctx, q, rows, ids[..i], c);
    }
  }

  lemma {:induction false} GroupHasChoice(ctx: Context, q: Query, rows: seq<Row>, ids: seq<Identity>, i: nat)
    requires Grouped(ctx, rows, ids) && i < |ids| && ChoiceOf(ctx, q, CopiesOf(rows, ids[i])).Some?
    ensures ChoiceOf(ctx, q, CopiesOf(rows, ids[i])).value in ChoicesOf(ctx, q, rows, ids)
  {
    if i < |ids| - 1 {
      FrontIsGrouped(ctx, rows, ids);
      GroupHasChoice(ctx, q, rows, ids[..|ids| - 1], i);
    }
  }

  /** The copies of one version that compete. */
  function CompetingCopies(ctx: Context, q: Query, id: Identity): seq<Row> {
    CopiesOf(Competing(ctx, q), id)
  }

  /** A choice stands for all eligible copies of its version: it has their priority, which is
      positive, and is the copy that no other comes before. */
  lemma ChoiceStandsForCopies(ctx: Context, q: Query, c: Candidate)
    requires Sound(ctx) && c in AllChoices(ctx, q)
    ensures var copies := CompetingCopies(ctx, q, IdentityOf(c.row));
            && c.row in copies && AllKnown(ctx, copies) && c.pin == PriorityOf(ctx, q, copies) > 0
            && SuiteAllows(ctx, q, copies)
            && forall r :: r in copies ==> ByCopy(ctx)(r, c.row) <= 0
    ensures exists i ::
              0 <= i < |Returned(ctx, q)| && Returned(ctx, q)[i].row == c.row && Eligible(ctx, q, Returned(ctx, q)[i])
  {
    var id := ChoiceGroup(ctx, q, c);
    GroupChoice(ctx, q, CompetingCopies(ctx, q, id), c);
    InCopies(Competing(ctx, q), id, c.row);
    KeptAreEligible(ctx, q, Returned(ctx, q), c.row);
  }

  lemma ChoiceGroup(ctx: Context, q: Query, c: Candidate) returns (id: Identity)
    requires Sound(ctx) && c in AllChoices(ctx, q)
    ensures var copies := CompetingCopies(ctx, q, id);
            copies != [] && AllKnown(ctx, copies) && ChoiceOf(ctx, q, copies) == Some(c)
  {
    var rows := Competing(ctx, q);
    var ids := Identities(rows);
    CompetingIsGrouped(ctx, q);
    var i := ChoiceHasGroup(ctx, q, rows, ids, c);
    id := ids[i];
  }

  lemma GroupChoice(ctx: Context, q: Query, copies: seq<Row>, c: Candidate)
    requires copies != [] && AllKnown(ctx, copies) && ChoiceOf(ctx, q, copies) == Some(c)
    ensures c.row in copies && c.pin == PriorityOf(ctx, q, copies) > 0 && SuiteAllows(ctx, q, copies)
    ensures forall r :: r in copies ==> ByCopy(ctx)(r, c.row) <= 0
  {
    CopiesArePreordered(ctx);
    BestIsAboveAll(ByCopy(ctx), copies);
  }

  /** Every eligible row whose version has a positive priority is stood for. */
  lemma EligibleIsStoodFor(ctx: Context, q: Query, i: nat)
    requires Sound(ctx) && i < |Returned(ctx, q)| && Eligible(ctx, q, Returned(ctx, q)[i])
    ensures var copies := CompetingCopies(ctx, q, IdentityOf(Returned(ctx, q)[i].row));
            && copies != [] && AllKnown(ctx, copies)
            && (SuiteAllows(ctx, q, copies) && PriorityOf(ctx, q, copies) > 0 ==>
                  exists c :: c in AllChoices(ctx, q) && IdentityOf(c.row) == IdentityOf(Returned(ctx, q)[i].row))
  {
    var rows, row := Competing(ctx, q), Returned(ctx, q)[i].row;
    var ids, id := Identities(rows), IdentityOf(row);
    KeptAreEligible(ctx, q, Returned(ctx, q), row);
    InCopies(rows, id, row);
    HasCopies(rows, id);
    CompetingIsGrouped(ctx, q);
    var k :| 0 <= k < |ids| && ids[k] == id;
    var copies := CopiesOf(rows, id);
    if SuiteAllows(ctx, q, copies) && PriorityOf(ctx, q, copies) > 0 {
      var c := ChoiceOf(ctx, q, CopiesOf(rows, ids[k])).value;
      GroupHasChoice(ctx, q, rows, ids, k);
      InCopies(rows, id, c.row);
      assert c in AllChoices(ctx, q);
    }
  }

  /** The best of the candidates that compete, before the downgrade rule. */
  ghost predicate IsBest(ctx: Context, q: Query, planned: Planned, best: Candidate)
    requires Sound(ctx)
  {
    var cs := AllChoices(ctx, q);
    var finals := Finals(q.name, planned, cs);
    && finals.Some? && best in finals.value && best in cs
    && forall d :: d in finals.value ==> ByCandidate(ctx, q.name)(d, best) <= 0
  }

  lemma FinalsAreChoices(name: string, planned: Planned, cs: seq<Candidate>)
    requires Finals(name, planned, cs).Some?
    ensures forall c :: c in Finals(name, planned, cs).value ==> c in cs
    ensures cs != [] ==> Finals(name, planned, cs).value != []
  {
  }

  /** What `choose` returns is the maximum of the competing candidates, or the installed
      version in its place. */
  lemma ChosenIsBest(ctx: Context, q: Query, planned: Planned, installed: Installed) returns (best: Candidate)
    requires Sound(ctx) && Outcome(ctx, q, planned, installed).Chosen?
    ensures IsBest(ctx, q, planned, best)
    ensures Outcome(ctx, q, planned, installed).candidate == Settled(q, best, installed)
  {
    var finals := Finals(q.name, planned, AllChoices(ctx, q)).value;
    FinalsAreChoices(q.name, planned, AllChoices(ctx, q));
    best := Best(ByCandidate(ctx, q.name), finals);
    CandidatesArePreordered(ctx, q.name);
    BestIsAboveAll(ByCandidate(ctx, q.name), finals);
  }

  ghost predicate Keyed(installed: Installed) {
    forall k :: k in installed ==> installed[k].row.package == k.0 && installed[k].row.kind == k.1
  }

  /** The query returns the row, and it is eligible: it has the name or provides it, in a version
      that satisfies the relationship. */
  ghost predicate Lists(ctx: Context, q: Query, c: Candidate) {
    exists i :: 0 <= i < |Returned(ctx, q)| && Returned(ctx, q)[i].row == c.row && Eligible(ctx, q, Returned(ctx, q)[i])
  }

  /** An installed version in place of a lower one that the query lists. Its own version satisfies
      the relationship; whether it still provides the name is not looked at. */
  ghost predicate StandsIn(ctx: Context, q: Query, c: Candidate) {
    && Satisfies(c.row.version, q.relation)
    && exists best :: && Lists(ctx, q, best) && best.row.package == c.row.package
                      && DV.Compare(best.row.version, c.row.version) < 0
  }

  /** The candidate is what the query asks for: the named package in a satisfying version, or a
      listed provider of the name, or the installed version of such a provider. */
  ghost predicate Serves(ctx: Context, q: Query, c: Candidate) {
    if c.row.package == q.name then Satisfies(c.row.version, q.relation) else Lists(ctx, q, c) || StandsIn(ctx, q, c)
  }

  /** A chosen row is of the kind asked for and serves the query. */
  lemma ChosenSatisfies(ctx: Context, q: Query, planned: Planned, installed: Installed)
    requires Sound(ctx) && Keyed(installed) && Outcome(ctx, q, planned, installed).Chosen?
    ensures var c := Outcome(ctx, q, planned, installed).candidate;
            c.row.kind == q.kind && Serves(ctx, q, c)
  {
    var best := ChosenIsBest(ctx, q, planned, installed);
    BestIsListed(ctx, q, best);
    SettledServes(ctx, q, best, installed);
  }

  /** The rows that the queries of this context return. */
  ghost function CatalogRows(ctx: Context): iset<Row> {
    iset name: string, kind: string, architecture: string, i: nat
      | i < |ctx.catalog(name, kind, architecture)| :: ctx.catalog(name, kind, architecture)[i].row
  }

  /** A chosen row comes from the catalog or is installed. */
  lemma ChosenIsDrawn(ctx: Context, q: Query, planned: Planned, installed: Installed)
    requires Sound(ctx) && Outcome(ctx, q, planned, installed).Chosen?
    ensures var c := Outcome(ctx, q, planned, installed).candidate;
            c.row in CatalogRows(ctx) || exists k :: k in installed && installed[k] == c
  {
    var best := ChosenIsBest(ctx, q, planned, installed);
    BestIsListed(ctx, q, best);
    var i :| 0 <= i < |Returned(ctx, q)| && Returned(ctx, q)[i].row == best.row;
    assert ctx.catalog(q.name, q.kind, q.architecture)[i].row in CatalogRows(ctx);
  }

  lemma BestIsListed(ctx: Context, q: Query, best: Candidate)
    requires Sound(ctx) && best in AllChoices(ctx, q)
    ensures Lists(ctx, q, best) && best.row.kind == q.kind
  {
    ChoiceStandsForCopies(ctx, q, best);
  }

  lemma SettledServes(ctx: Context, q: Query, best: Candidate, installed: Installed)
    requires Keyed(installed) && Lists(ctx, q, best) && best.row.kind == q.kind
    ensures var c := Settled(q, best, installed); c.row.kind == q.kind && Serves(ctx, q, c)
  {
    var c := Settled(q, best, installed);
    if c == best {
      var i :| 0 <= i < |Returned(ctx, q)| && Returned(ctx, q)[i].row == best.row
          && Eligible(ctx, q, Returned(ctx, q)[i]);
    } else {
      assert c == installed[(best.row.package, q.kind)] && StandsIn(ctx, q, c);
    }
  }

  /** The result is listed for the name, unless the rule keeps an installed row that is not. */
  lemma ListedUnlessKept(ctx: Context, q: Query, planned: Planned, installed: Installed) returns (best: Candidate)
    requires Sound(ctx) && Keyed(installed) && Outcome(ctx, q, planned, installed).Chosen?
    ensures IsBest(ctx, q, planned, best)
    ensures Lists(ctx, q, Outcome(ctx, q, planned, installed).candidate) <==>
            !KeepsInstalled(q, best, installed) || Lists(ctx, q, installed[(best.row.package, q.kind)])
  {
    best := ChosenIsBest(ctx, q, planned, installed);
    BestIsListed(ctx, q, best);
  }

  /** A version below the installed one comes out only if downgrades are allowed, the pin
      priority exceeds 1000, or the installed version fails the relationship. */
  lemma OnlyAllowedDowngrades(ctx: Context, q: Query, planned: Planned, installed: Installed, c: Candidate)
    requires Sound(ctx) && Keyed(installed) && Outcome(ctx, q, planned, installed) == Chosen(c)
    ensures IsDowngrade(q, c, installed) ==>
              q.downgrade || c.pin > 1000 || !Satisfies(installed[(c.row.package, q.kind)].row.version, q.relation)
  {
    var best := ChosenIsBest(ctx, q, planned, installed);
    SettledDowngrades(q, best, installed);
  }

  predicate IsDowngrade(q: Query, c: Candidate, installed: Installed) {
    var key := (c.row.package, q.kind);
    key in installed && DV.Compare(c.row.version, installed[key].row.version) < 0
  }

  lemma SettledDowngrades(q: Query, best: Candidate, installed: Installed)
    requires Keyed(installed)
    ensures var c := Settled(q, best, installed);
            IsDowngrade(q, c, installed) ==>
              c == best && (q.downgrade || c.pin > 1000
                            || !Satisfies(installed[(c.row.package, q.kind)].row.version, q.relation))
  {
    var key := (best.row.package, q.kind);
    if key in installed {
      DV.CompareAntisymmetric(installed[key].row.version, installed[key].row.version);
    }
  }

  /** Nothing comes out exactly when the name is excluded, or when no eligible row's version passes
      the suite filter with a positive priority. */
  lemma NothingMeans(ctx: Context, q: Query, planned: Planned, installed: Installed)
    requires Sound(ctx)
    ensures Outcome(ctx, q, planned, installed) == Nothing <==>
            || q.name in ctx.excluded
            || forall i :: 0 <= i < |Returned(ctx, q)| ==> !Available(ctx, q, Returned(ctx, q)[i])
  {
    var cs := AllChoices(ctx, q);
    if cs != [] {
      assert cs[0] in cs;
      ChoiceIsAvailable(ctx, q, cs[0]);
    }
    forall i | 0 <= i < |Returned(ctx, q)| && Available(ctx, q, Returned(ctx, q)[i]) ensures cs != [] {
      EligibleIsStoodFor(ctx, q, i);
    }
  }

  lemma ChoiceIsAvailable(ctx: Context, q: Query, c: Candidate)
    requires Sound(ctx) && c in AllChoices(ctx, q)
    ensures exists i :: 0 <= i < |Returned(ctx, q)| && Available(ctx, q, Returned(ctx, q)[i])
  {
    ChoiceStandsForCopies(ctx, q, c);
    var i :| 0 <= i < |Returned(ctx, q)| && Returned(ctx, q)[i].row == c.row && Eligible(ctx, q, Returned(ctx, q)[i]);
    assert Available(ctx, q, Returned(ctx, q)[i]);
  }

  /** An eligible row whose version may be chosen. */
  predicate Available(ctx: Context, q: Query, f: Found) {
    Eligible(ctx, q, f) &&
    var copies := CompetingCopies(ctx, q, IdentityOf(f.row));
    copies != [] && AllKnown(ctx, copies) && SuiteAllows(ctx, q, copies) && PriorityOf(ctx, q, copies) > 0
  }
}
