/** Two rows of one identity: the dependencies of the second one are not followed. */
module RepeatedIdentity {
  import opened Outcomes
  import opened CatalogChoice
  import opened Chooser
  import opened Orders
  import opened Resolver
  import opened SmallCatalogs
  import opened Texts

  const NEEDS := Group("helper", [Alternative("helper", None, Any)])

  /** One file in the indexes of two components. */
  function Tool(version: Version, component: int, depends: seq<Group>): Row {
    Row("tool", "deb", version, "amd64", None, "main", component, "", "pool/tool.deb", "tool.deb",
        map["depends" := depends])
  }

  function First(version: Version): Row { Tool(version, 0, []) }

  function Second(version: Version): Row { Tool(version, 1, [NEEDS]) }

  /** Only the second entry provides the gadget. */
  function Listing(version: Version): (string, string, string) -> seq<Found> {
    (name, kind, architecture) =>
      if kind == "deb" && name == "tool" then [Found(First(version), None), Found(Second(version), None)]
      else if kind == "deb" && name == "gadget" then [Found(Second(version), None)] else []
  }

  function Catalog(version: Version): Setting { Setting(OnlyMirror(Listing(version)), "amd64") }

  function Asked(name: string): Query {
    Query(name, "deb", "amd64", Any, None, None, None, false)
  }

  lemma BothAreEligible(version: Version)
    ensures var ctx := Catalog(version).ctx;
            && Sound(ctx) && Eligible(ctx, Asked("tool"), Found(First(version), None))
            && Eligible(ctx, Asked("tool"), Found(Second(version), None))
            && Eligible(ctx, Asked("gadget"), Found(Second(version), None))
  {
    assert MIRROR.classes[0] == "";
  }

  lemma LowerComponentFirst(ctx: Context, a: Row, b: Row)
    requires a.repository == b.repository && a.component < b.component
    ensures ByCopy(ctx)(b, a) == -1
  {
    assert OrderOf(ctx, a.repository) == OrderOf(ctx, b.repository);
    assert Sign(OrderOf(ctx, a.repository), OrderOf(ctx, b.repository)) == 0 && Sign(a.component, b.component) == -1;
  }

  /** The copy of the first component is preferred. */
  lemma FirstIsPreferred(ctx: Context, version: Version)
    ensures Best(ByCopy(ctx), [First(version), Second(version)]) == First(version)
  {
    var copies := [First(version), Second(version)];
    assert copies[..1] == [First(version)];
    LowerComponentFirst(ctx, First(version), Second(version));
  }

  lemma WhatCompetes(version: Version)
    ensures Competing(Catalog(version).ctx, Asked("tool")) == [First(version), Second(version)]
    ensures Competing(Catalog(version).ctx, Asked("gadget")) == [Second(version)]
  {
    var ctx := Catalog(version).ctx;
    BothAreEligible(version);
    KeptOfTwo(ctx, Asked("tool"), Found(First(version), None), Found(Second(version), None));
    KeptOfOne(ctx, Asked("gadget"), Found(Second(version), None));
  }

  /** By its name the tool is chosen from the first index, */
  lemma FirstIsChosen(version: Version)
    ensures Sound(Catalog(version).ctx)
    ensures Outcome(Catalog(version).ctx, Asked("tool"), map[], map[]) == Chosen(Candidate(First(version), 500))
  {
    BothAreEligible(version);
    WhatCompetes(version);
    FirstOfCopies(version, [First(version), Second(version)]);
  }

  lemma FirstOfCopies(version: Version, copies: seq<Row>)
    requires Sound(Catalog(version).ctx) && Competing(Catalog(version).ctx, Asked("tool")) == copies
    requires copies == [First(version), Second(version)]
    ensures Outcome(Catalog(version).ctx, Asked("tool"), map[], map[]) == Chosen(Candidate(First(version), 500))
  {
    FirstIsPreferred(Catalog(version).ctx, version);
    OneVersionIsChosen(Listing(version), Asked("tool"), copies, First(version), map[], map[]);
  }

  /** and then as the gadget from the second. */
  lemma SecondIsChosen(version: Version)
    ensures Sound(Catalog(version).ctx)
    ensures Outcome(Catalog(version).ctx, Asked("gadget"), map["tool" := Candidate(First(version), 500)], map[])
            == Chosen(Candidate(Second(version), 500))
  {
    var planned := map["tool" := Candidate(First(version), 500)];
    BothAreEligible(version);
    WhatCompetes(version);
    OneVersionIsChosen(Listing(version), Asked("gadget"), [Second(version)], Second(version), planned, map[]);
  }

  /** The seeds of those two requests. */
  function Seeds(version: Version): seq<Task> {
    var use := Use(Install, false, false, false, None);
    [Task(Candidate(First(version), 500), use), Task(Candidate(Second(version), 500), use)]
  }

  function Start(version: Version): View {
    View(Seeds(version), {}, map[], map[], map[], [], set t | t in Seeds(version), map[], map[])
  }

  function End(version: Version): View {
    Taken(Taken(Start(version)))
  }

  lemma FirstTask(version: Version)
    ensures var v := Start(version);
            && v.todo[0] == Seeds(version)[0] && NoGroups(v.todo[0]) && TakeCost(v) == 2 && SameFile(v)
            && |v.todo| == 2 && |v.visited| == |v.selected| == 0
  {
  }

  lemma SecondTask(version: Version)
    ensures var v := Taken(Start(version));
            && v.todo == [Seeds(version)[1]] && ModeOf(v.todo[0]) in v.visited && TakeCost(v) == 1 && SameFile(v)
            && |v.visited| == |v.selected| == 1
  {
  }

  lemma OneMode(version: Version)
    ensures var a, b := Seeds(version)[0], Seeds(version)[1];
            && ModeOf(a) == ModeOf(b) && End(version).visited == {ModeOf(a)} && End(version).todo == []
            && End(version).row == map[ModeOf(a) := a.candidate] && End(version).issues == []
            && End(version).selected.Keys == {KeyOf(a.candidate)}
  {
  }

  /** The phase takes both tasks and stops. */
  method RunBoth(version: Version) returns (phase: Phase)
    ensures phase.Now() == End(version) && phase.todo == []
    ensures Closed(End(version), Catalog(version)) && Handled(End(version), Seeds(version)[1])
  {
    FirstTask(version);
    phase := RunFirst(version);
    SecondTask(version);
    var second := phase.Round();
    OneMode(version);
    EmptyQueueIsClosed(phase.Now(), phase.planned, phase.env, phase.given);
  }

  function Plan(version: Version): Planned { map["tool" := Candidate(Second(version), 500)] }

  ghost function GivenHere(version: Version): Given {
    GivenOf(Catalog(version), Seeds(version), Plan(version), map[], map[])
  }

  lemma StartIsGood(version: Version)
    ensures Sound(Catalog(version).ctx)
    ensures (Start(version), Plan(version)) in States(Catalog(version), GivenHere(version), {})
  {
    BothAreEligible(version);
    SeedsAreCoherent(Start(version), Catalog(version));
    SeedsAccount(Start(version), Plan(version), Catalog(version), Seeds(version));
  }

  method Begin(version: Version) returns (phase: Phase)
    ensures fresh(phase) && phase.env == Catalog(version) && phase.Now() == Start(version) && phase.budget == 3
    ensures phase.Good({}) && phase.Plain()
  {
    StartIsGood(version);
    FirstTask(version);
    phase := new Phase(Catalog(version), Seeds(version), Plan(version), map[], map[], 3);
  }

  method RunFirst(version: Version) returns (phase: Phase)
    ensures fresh(phase) && phase.env == Catalog(version) && Sound(phase.env.ctx)
    ensures phase.Now() == Taken(Start(version)) && phase.budget == 3 - TakeCost(Start(version)) && phase.Good({})
  {
    BothAreEligible(version);
    phase := Begin(version);
    var first := phase.Round();
  }

  lemma EmptyQueueIsClosed(v: View, planned: Planned, env: Setting, given: Given)
    requires (v, planned) in States(env, given, {}) && v.todo == []
    ensures Closed(v, env) && forall t :: t in v.owed ==> Handled(v, t)
  {
    AccountsMean(v, planned, env, given);
    EmptyQueueCloses(v, env);
  }

  /** Nobody offers the helper. */
  lemma NothingHelps(version: Version, c: Candidate)
    requires c.row.package != "helper"
    ensures !Answers(Catalog(version), c, NEEDS, "deb", None)
  {
    var q := AskFor(NEEDS.alternatives[0], "deb", "amd64", None);
    assert Returned(Catalog(version).ctx, q) == [];
  }

  /** Then nothing takes care of what the second row depends on. */
  lemma SecondRowIsNotFollowed(version: Version)
    ensures var t := Seeds(version)[1];
            && GroupsOf(t.candidate, "depends") == [NEEDS] && t.use.operation == Install
            && !GroupDone(End(version), ModeOf(t), t.candidate, "depends", NEEDS, Catalog(version))
  {
    var t, v := Seeds(version)[1], End(version);
    OneMode(version);
    forall d | InPlace(v, ModeOf(t), d) ensures !Answers(Catalog(version), d, NEEDS, "deb", None) {
      assert KeyOf(d) in v.selected;
      NothingHelps(version, d);
    }
  }
}
