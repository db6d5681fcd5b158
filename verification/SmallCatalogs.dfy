/** Choices in catalogs of one repository, without pin rules, that offer one version. */
module SmallCatalogs {
  import opened Outcomes
  import opened CatalogChoice
  import opened Chooser
  import opened Orders

  const MIRROR := Repo(0, "base_mirror", false, false, "stable", [""])

  const STABLE := Release(None, None, false, false)

  /** The context of that repository, with these answers to queries. */
  function OnlyMirror(catalog: (string, string, string) -> seq<Found>): Context {
    Context("pkgsel", {}, {}, map["main" := MIRROR], map["main" := STABLE], [], catalog)
  }

  lemma KeptOfOne(ctx: Context, q: Query, a: Found)
    requires Eligible(ctx, q, a)
    ensures Kept(ctx, q, [a]) == [a.row]
  {
    KeptOneMore(ctx, q, [a], 0);
    assert [a][..1] == [a] && [a][..0] == [];
  }

  lemma KeptOfTwo(ctx: Context, q: Query, a: Found, b: Found)
    requires Eligible(ctx, q, a)
    ensures Kept(ctx, q, [a, b]) == if Eligible(ctx, q, b) then [a.row, b.row] else [a.row]
  {
    var found := [a, b];
    KeptOneMore(ctx, q, found, 0);
    KeptOneMore(ctx, q, found, 1);
    assert found[..2] == found && found[..0] == [];
  }

  lemma {:induction false} OneIdentity(rows: seq<Row>, id: Identity)
    requires rows != [] && forall i :: 0 <= i < |rows| ==> IdentityOf(rows[i]) == id
    ensures Identities(rows) == [id]
  {
    var front := rows[..|rows| - 1];
    if front != [] {
      OneIdentity(front, id);
    }
  }

  lemma {:induction false} AllCopies(rows: seq<Row>, id: Identity)
    requires forall i :: 0 <= i < |rows| ==> IdentityOf(rows[i]) == id
    ensures CopiesOf(rows, id) == rows
  {
    if rows != [] {
      var n := |rows| - 1;
      AllCopies(rows[..n], id);
      assert rows == rows[..n] + [rows[n]];
    }
  }

  lemma OnlyDefault(ctx: Context, q: Query, copies: seq<Row>)
    requires copies != [] && AllKnown(ctx, copies) && ctx.rules == [] && q.kind != "udeb" && q.suite == q.target == None
    requires forall i :: 0 <= i < |copies| ==> ctx.releases[copies[i].repository] == STABLE
    ensures ChoiceOf(ctx, q, copies) == Some(Candidate(Best(ByCopy(ctx), copies), 500))
  {
    var pins := PinsOf(ctx, copies, q.target);
    assert forall i :: 0 <= i < |pins| ==> pins[i] == 500;
    GreatestOfSame(pins, 500);
  }

  lemma {:induction false} GreatestOfSame(xs: seq<int>, x: int)
    requires xs != [] && forall i :: 0 <= i < |xs| ==> xs[i] == x
    ensures Greatest(xs) == x
  {
    if |xs| > 1 {
      GreatestOfSame(xs[..|xs| - 1], x);
    }
  }

  lemma OneGroupIsTheChoice(ctx: Context, q: Query, rows: seq<Row>, c: Candidate)
    requires Sound(ctx) && Competing(ctx, q) == rows != []
    requires forall i :: 0 <= i < |rows| ==> IdentityOf(rows[i]) == IdentityOf(rows[0])
    requires AllKnown(ctx, rows) && ChoiceOf(ctx, q, rows) == Some(c)
    ensures AllChoices(ctx, q) == [c]
  {
    var id := IdentityOf(rows[0]);
    OneIdentity(rows, id);
    AllCopies(rows, id);
    CompetingIsGrouped(ctx, q);
    OneGroupChooses(ctx, q, rows, id, rows, c);
  }

  lemma OneGroupChooses(ctx: Context, q: Query, rows: seq<Row>, id: Identity, copies: seq<Row>, c: Candidate)
    requires Grouped(ctx, rows, [id]) && CopiesOf(rows, id) == copies != [] && AllKnown(ctx, copies)
    requires ChoiceOf(ctx, q, copies) == Some(c)
    ensures ChoicesOf(ctx, q, rows, [id]) == [c]
  {
    var ids := [id];
    assert ids[..0] == [] && ids[..1] == ids;
    ChoicesOneMore(ctx, q, rows, ids, 0);
  }

  lemma RealOfOne(name: string, c: Candidate)
    ensures Real(name, [c]) == if c.row.package == name then [c] else []
  {
    assert [c][..0] == [] && Real(name, []) == [];
  }

  lemma PresentOfOne(planned: Planned, c: Candidate)
    ensures Present(planned, [c]) == if IsPlanned(planned, c) then [c] else []
  {
    assert [c][..0] == [] && Present(planned, []) == [];
  }

  lemma OneChoiceIsFinal(name: string, planned: Planned, best: Candidate)
    ensures Finals(name, planned, [best]) == Some([best])
  {
    RealOfOne(name, best);
    PresentOfOne(planned, best);
  }

  lemma OneChoiceIsTaken(ctx: Context, q: Query, best: Candidate, planned: Planned, installed: Installed)
    requires Sound(ctx) && AllChoices(ctx, q) == [best] && q.name !in ctx.excluded
    ensures Outcome(ctx, q, planned, installed) == Chosen(Settled(q, best, installed))
  {
    OneChoiceIsFinal(q.name, planned, best);
    assert Best(ByCandidate(ctx, q.name), [best]) == best;
  }

  /** The outcome where only copies of one version compete. */
  lemma OneVersionIsChosen(catalog: (string, string, string) -> seq<Found>, q: Query, rows: seq<Row>, best: Row,
                           planned: Planned, installed: Installed)
    requires var ctx := OnlyMirror(catalog);
             Sound(ctx) && Competing(ctx, q) == rows != [] && Best(ByCopy(ctx), rows) == best
    requires forall i :: 0 <= i < |rows| ==> IdentityOf(rows[i]) == IdentityOf(rows[0]) && rows[i].repository == "main"
    requires q.kind != "udeb" && q.suite == q.target == None
    ensures Outcome(OnlyMirror(catalog), q, planned, installed) == Chosen(Settled(q, Candidate(best, 500), installed))
  {
    var ctx := OnlyMirror(catalog);
    OnlyDefault(ctx, q, rows);
    OneGroupIsTheChoice(ctx, q, rows, Candidate(best, 500));
    OneChoiceIsTaken(ctx, q, Candidate(best, 500), planned, installed);
  }
}
