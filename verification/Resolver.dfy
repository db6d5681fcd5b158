/** The worklist of one phase of `resolve_catalog` in tools/inventory.py. */
module Resolver {
  import opened Outcomes
  import opened CatalogChoice
  import opened Chooser

  const MOST_PENDING := 10000
  const MOST_VISITED := 10000
  const MOST_SELECTED := 50000

  datatype Operation = Install | Download

  datatype Use = Use(operation: Operation, downloadOnly: bool, recommends: bool, suggests: bool, target: Option<string>)

  datatype Task = Task(candidate: Candidate, use: Use)

  datatype RowKey = RowKey(repository: string, package: string, kind: string, version: Version, architecture: string)

  function KeyOf(c: Candidate): RowKey {
    RowKey(c.row.repository, c.row.package, c.row.kind, c.row.version, c.row.architecture)
  }

  /** A row and the way in which its dependencies are followed. */
  datatype Mode = Mode(row: RowKey, target: Option<string>, downloadOnly: bool, recommends: bool, suggests: bool)

  function ModeOf(t: Task): Mode {
    Mode(KeyOf(t.candidate), t.use.target, t.use.downloadOnly, t.use.recommends, t.use.suggests)
  }

  /** The use that a mode's dependencies inherit. */
  function UseOf(m: Mode): Use {
    Use(Install, m.downloadOnly, m.recommends, m.suggests, m.target)
  }

  predicate Mutates(u: Use) {
    u.operation == Install && !u.downloadOnly
  }

  datatype Issue = UnsupportedExpression(package: string, field: string)
                 | Unsatisfied(package: string, field: string, group: string)
                 | MultipleVersions(package: string, first: Version, other: Version)

  /** Several versions of this package are reported. */
  predicate Mixed(issues: seq<Issue>, package: string) {
    exists i :: 0 <= i < |issues| && issues[i].MultipleVersions? && issues[i].package == package
  }

  function FieldsOf(m: Mode): seq<string> {
    ["pre_depends", "depends"] + (if m.recommends then ["recommends"] else [])
        + (if m.suggests then ["suggests"] else [])
  }

  predicate Optional(field: string) {
    field == "recommends" || field == "suggests"
  }

  function GroupsOf(c: Candidate, field: string): seq<Group> {
    if field in c.row.fields then c.row.fields[field] else []
  }

  // ------------------------------------------------------------------- one group

  /** The circumstances in which a mode's groups are resolved. */
  datatype Setting = Setting(ctx: Context, architecture: string)

  predicate QualifierFits(a: Alternative, architecture: string) {
    a.Alternative? && (a.qualifier.Some? ==>
        a.qualifier.value == "any" || a.qualifier.value == "native" || a.qualifier.value == architecture)
  }

  /** What one alternative offers, and whether that ends the search. */
  datatype Offer = NoOffer | Offer(candidate: Candidate, final: bool)

  function AskFor(a: Alternative, kind: string, architecture: string, target: Option<string>): Query
    requires a.Alternative?
  {
    Query(a.name, kind, architecture, a.relation, None, None, target, false)
  }

  ghost function OfferOf(env: Setting, a: Alternative, kind: string, target: Option<string>,
                         planned: Planned, installed: Installed): Offer
    requires Sound(env.ctx)
  {
    if !QualifierFits(a, env.architecture) then NoOffer
    else if a.name in planned && Satisfies(planned[a.name].row.version, a.relation) then Offer(planned[a.name], true)
    else
      var choice := Outcome(env.ctx, AskFor(a, kind, env.architecture, target), planned, installed);
      if choice.Chosen? then Offer(choice.candidate, IsPlanned(planned, choice.candidate)) else NoOffer
  }

  /** The first final offer, or else the first offer. */
  function Decide(offers: seq<Offer>): Option<Candidate> {
    var final := FirstFinal(offers);
    if final.Some? then final else FirstOffer(offers)
  }

  function FirstFinal(offers: seq<Offer>): Option<Candidate> {
    if offers == [] then None
    else if offers[0].Offer? && offers[0].final then Some(offers[0].candidate)
    else FirstFinal(offers[1..])
  }

  /** How many offers there are before the first final one. */
  function Tried(offers: seq<Offer>): (n: nat)
    ensures n <= |offers|
  {
    if offers == [] || (offers[0].Offer? && offers[0].final) then 0 else 1 + Tried(offers[1..])
  }

  function FirstOffer(offers: seq<Offer>): Option<Candidate> {
    if offers == [] then None
    else if offers[0].Offer? then Some(offers[0].candidate)
    else FirstOffer(offers[1..])
  }

  ghost function Offers(env: Setting, g: Group, kind: string, target: Option<string>,
                        planned: Planned, installed: Installed): seq<Offer>
    requires Sound(env.ctx)
  {
    seq(|g.alternatives|, i requires 0 <= i < |g.alternatives| =>
      OfferOf(env, g.alternatives[i], kind, target, planned, installed))
  }

  /** The candidate is what one of the alternatives asks for: the package that it names, in a
      version that satisfies its relationship, or a listed provider of that name, or the installed
      version of such a provider. */
  ghost predicate Answers(env: Setting, c: Candidate, g: Group, kind: string, target: Option<string>) {
    exists i :: 0 <= i < |g.alternatives| && AnswersAlternative(env, c, g.alternatives[i], kind, target)
  }

  ghost predicate AnswersAlternative(env: Setting, c: Candidate, a: Alternative, kind: string, target: Option<string>) {
    QualifierFits(a, env.architecture) && Serves(env.ctx, AskFor(a, kind, env.architecture, target), c)
  }

  ghost predicate KeyedByName(planned: Planned) {
    forall name :: name in planned ==> planned[name].row.package == name
  }

  lemma OfferAnswers(env: Setting, a: Alternative, kind: string, target: Option<string>,
                     planned: Planned, installed: Installed)
    requires Sound(env.ctx) && KeyedByName(planned) && Keyed(installed)
    ensures var o := OfferOf(env, a, kind, target, planned, installed);
            o.Offer? ==> AnswersAlternative(env, o.candidate, a, kind, target)
  {
    if QualifierFits(a, env.architecture) {
      var q := AskFor(a, kind, env.architecture, target);
      if Outcome(env.ctx, q, planned, installed).Chosen? {
        ChosenSatisfies(env.ctx, q, planned, installed);
      }
    }
  }

  lemma {:induction false} DecidedIsOffered(offers: seq<Offer>)
    ensures Decide(offers).Some? ==>
              exists i :: 0 <= i < |offers| && offers[i].Offer? && Some(offers[i].candidate) == Decide(offers)
    ensures Decide(offers).None? <==> forall i :: 0 <= i < |offers| ==> offers[i].NoOffer?
    ensures FirstFinal(offers).Some? ==>
              exists i :: 0 <= i < |offers| && offers[i].Offer? && Some(offers[i].candidate) == FirstFinal(offers)
    ensures FirstOffer(offers).Some? ==>
              exists i :: 0 <= i < |offers| && offers[i].Offer? && Some(offers[i].candidate) == FirstOffer(offers)
  {
    if offers != [] {
      DecidedIsOffered(offers[1..]);
      assert forall i :: 1 <= i < |offers| ==> offers[1..][i - 1] == offers[i];
    }
  }

  lemma DecidedAnswers(env: Setting, g: Group, kind: string, target: Option<string>,
                       planned: Planned, installed: Installed)
    requires Sound(env.ctx) && KeyedByName(planned) && Keyed(installed)
    ensures var c := Decide(Offers(env, g, kind, target, planned, installed));
            c.Some? ==> Answers(env, c.value, g, kind, target)
  {
    var offers := Offers(env, g, kind, target, planned, installed);
    DecidedIsOffered(offers);
    if Decide(offers).Some? {
      var i :| 0 <= i < |offers| && offers[i].Offer? && Some(offers[i].candidate) == Decide(offers);
      OfferAnswers(env, g.alternatives[i], kind, target, planned, installed);
    }
  }

  /** What is planned and installed comes from these rows. */
  ghost predicate Stocked(planned: Planned, installed: Installed, rows: iset<Row>) {
    && (forall name :: name in planned ==> planned[name].row in rows)
    && forall n :: n in installed ==> installed[n].row in rows
  }

  /** Then so does what is decided. */
  lemma DecidedIsDrawn(env: Setting, g: Group, kind: string, target: Option<string>,
                       planned: Planned, installed: Installed, rows: iset<Row>)
    requires Sound(env.ctx) && CatalogRows(env.ctx) <= rows && Stocked(planned, installed, rows)
    ensures var c := Decide(Offers(env, g, kind, target, planned, installed));
            c.Some? ==> c.value.row in rows
  {
    var offers := Offers(env, g, kind, target, planned, installed);
    DecidedIsOffered(offers);
    if Decide(offers).Some? {
      var i :| 0 <= i < |offers| && offers[i].Offer? && Some(offers[i].candidate) == Decide(offers);
      OfferIsDrawn(env, g.alternatives[i], kind, target, planned, installed, rows);
    }
  }

  lemma OfferIsDrawn(env: Setting, a: Alternative, kind: string, target: Option<string>,
                     planned: Planned, installed: Installed, rows: iset<Row>)
    requires Sound(env.ctx) && CatalogRows(env.ctx) <= rows && Stocked(planned, installed, rows)
    ensures var o := OfferOf(env, a, kind, target, planned, installed);
            o.Offer? ==> o.candidate.row in rows
  {
    if QualifierFits(a, env.architecture) {
      var q := AskFor(a, kind, env.architecture, target);
      if Outcome(env.ctx, q, planned, installed).Chosen? {
        ChosenIsDrawn(env.ctx, q, planned, installed);
      }
    }
  }

  method MakeOffer(env: Setting, a: Alternative, kind: string, target: Option<string>,
                   planned: Planned, installed: Installed)
    returns (r: Result<Offer>)
    requires Sound(env.ctx)
    ensures r.Ok? ==> r.value == OfferOf(env, a, kind, target, planned, installed)
  {
    if !QualifierFits(a, env.architecture) {
      return Ok(NoOffer);
    }
    if a.name in planned && Satisfies(planned[a.name].row.version, a.relation) {
      return Ok(Offer(planned[a.name], true));
    }
    var choice := Choose(env.ctx, AskFor(a, kind, env.architecture, target), planned, installed);
    if choice.Raised? {
      return Raised(choice.reason);
    }
    match choice.value {
      case Chosen(c) => r := Ok(Offer(c, IsPlanned(planned, c)));
      case _ => r := Ok(NoOffer);
    }
  }

  function UnsupportedCount(alternatives: seq<Alternative>): nat {
    if alternatives == [] then 0
    else
      UnsupportedCount(alternatives[..|alternatives| - 1])
      + if alternatives[|alternatives| - 1].Unsupported? then 1 else 0
  }

  /** The loop over the alternatives of one group. It reports each expression that it cannot
      read until it finds a final offer. */
  method ResolveGroup(env: Setting, g: Group, kind: string, target: Option<string>,
                      planned: Planned, installed: Installed)
    returns (r: Result<Option<Candidate>>, unread: nat)
    requires Sound(env.ctx)
    ensures r.Ok? ==> r.value == Decide(Offers(env, g, kind, target, planned, installed))
    ensures r.Ok? ==>
              unread == UnsupportedCount(g.alternatives[..Tried(Offers(env, g, kind, target, planned, installed))])
  {
    ghost var offers := Offers(env, g, kind, target, planned, installed);
    var first: Option<Candidate> := None;
    unread := 0;
    for i := 0 to |g.alternatives|
      invariant FirstFinal(offers) == FirstFinal(offers[i..]) && Tried(offers) == i + Tried(offers[i..])
      invariant FirstOffer(offers) == if first.Some? then first else FirstOffer(offers[i..])
      invariant unread == UnsupportedCount(g.alternatives[..i])
    {
      assert g.alternatives[..i + 1][..i] == g.alternatives[..i];
      assert offers[i..][0] == offers[i] && offers[i..][1..] == offers[i + 1..];
      if g.alternatives[i].Unsupported? {
        unread := unread + 1;
      }
      var o := MakeOffer(env, g.alternatives[i], kind, target, planned, installed);
      if o.Raised? {
        return Raised(o.reason), unread;
      }
      if o.value.Offer? {
        if o.value.final {
          return Ok(Some(o.value.candidate)), unread;
        }
        if first.None? {
          first := Some(o.value.candidate);
        }
      }
    }
    assert g.alternatives[..|g.alternatives|] == g.alternatives;
    r := Ok(first);
  }

  // ------------------------------------------------------- the state of a phase

  /** A dependency group of a mode. */
  datatype Slot = Slot(mode: Mode, field: string, place: nat)

  /** The state that the closure speaks of. `owed` are all tasks ever put in the queue, `row`
      the row that brought each visited mode, and `answers` what its groups got. */
  datatype View = View(todo: seq<Task>, visited: set<Mode>, versions: map<(string, string), Version>,
                       installed: Installed, selected: map<RowKey, Candidate>, issues: seq<Issue>,
                       owed: set<Task>, row: map<Mode, Candidate>, answers: map<Slot, Option<Candidate>>)

  function NameOf(c: Candidate): (string, string) {
    (c.row.package, c.row.kind)
  }

  /** The version of this candidate is the only one of its package, unless several are reported of it. */
  predicate Recorded(v: View, c: Candidate) {
    NameOf(c) in v.versions && (Mixed(v.issues, c.row.package) || v.versions[NameOf(c)] == c.row.version)
  }

  predicate Handled(v: View, t: Task) {
    && KeyOf(t.candidate) in v.selected
    && (t.use.operation == Install ==> ModeOf(t) in v.visited)
    && (Mutates(t.use) ==> Recorded(v, t.candidate))
  }

  ghost predicate Owing(v: View) {
    forall t :: t in v.owed ==> t in v.todo || Handled(v, t)
  }

  ghost predicate VersionsInstalled(v: View) {
    forall n :: n in v.versions ==>
      n in v.installed && (Mixed(v.issues, n.0) || v.installed[n].row.version == v.versions[n])
  }

  ghost predicate SlotRight(v: View, s: Slot, env: Setting)
    requires s in v.answers
  {
    && s.mode in v.row && s.place < |GroupsOf(v.row[s.mode], s.field)|
    && var g := GroupsOf(v.row[s.mode], s.field)[s.place];
       match v.answers[s]
       case Some(c) => Answers(env, c, g, v.row[s.mode].row.kind, s.mode.target) && Task(c, UseOf(s.mode)) in v.owed
       case None => Optional(s.field) || Unsatisfied(v.row[s.mode].row.package, s.field, g.text) in v.issues
  }

  ghost predicate AnswersRight(v: View, env: Setting) {
    forall s :: s in v.answers ==> SlotRight(v, s, env)
  }

  /** Every group of the fields that the mode follows has an answer. */
  ghost predicate Complete(v: View, m: Mode) {
    && m in v.row && KeyOf(v.row[m]) == m.row
    && forall f, k :: 0 <= f < |FieldsOf(m)| && 0 <= k < |GroupsOf(v.row[m], FieldsOf(m)[f])| ==>
         Slot(m, FieldsOf(m)[f], k) in v.answers
  }

  ghost predicate AllComplete(v: View, except: set<Mode>) {
    && v.row.Keys == v.visited
    && forall m :: m in v.visited && m !in except ==> Complete(v, m)
  }

  ghost predicate Invariant(v: View, env: Setting, except: set<Mode>) {
    Owing(v) && VersionsInstalled(v) && AnswersRight(v, env) && AllComplete(v, except) && Keyed(v.installed)
  }

  /** The states that keep the invariant. */
  ghost function Coherent(env: Setting, except: set<Mode>): iset<View> {
    iset v | Invariant(v, env, except)
  }

  lemma SeedsAreCoherent(v: View, env: Setting)
    requires v.visited == {} && v.versions == map[] && v.row == map[] && v.answers == map[] && Keyed(v.installed)
    requires v.owed == set t | t in v.todo
    ensures v in Coherent(env, {})
  {
  }

  /** What a mutating task records: its version, unless another came first, and its installation. */
  function Installing(v: View, t: Task): View {
    var c, n := t.candidate, NameOf(t.candidate);
    if !Mutates(t.use) then v
    else v.(versions := if n in v.versions then v.versions else v.versions[n := c.row.version],
            issues := if n in v.versions && v.versions[n] != c.row.version
                      then v.issues + [MultipleVersions(c.row.package, v.versions[n], c.row.version)] else v.issues,
            installed := v.installed[n := c])
  }

  function Selecting(v: View, c: Candidate): View {
    if KeyOf(c) in v.selected then v else v.(selected := v.selected[KeyOf(c) := c])
  }

  function Visiting(v: View, t: Task): View {
    if t.use.operation == Install && ModeOf(t) !in v.visited
    then v.(visited := v.visited + {ModeOf(t)}, row := v.row[ModeOf(t) := t.candidate]) else v
  }

  /** Taking the first task from the queue: what it installs, what it selects, what it visits. */
  function Taken(v: View): View
    requires v.todo != []
  {
    var t := v.todo[0];
    var c, n, m := t.candidate, NameOf(t.candidate), ModeOf(t);
    var mixed := Mutates(t.use) && n in v.versions && v.versions[n] != c.row.version;
    var first := t.use.operation == Install && m !in v.visited;
    v.(todo := v.todo[1..],
       versions := if Mutates(t.use) && n !in v.versions then v.versions[n := c.row.version] else v.versions,
       issues := if mixed then v.issues + [MultipleVersions(c.row.package, v.versions[n], c.row.version)] else v.issues,
       installed := if Mutates(t.use) then v.installed[n := c] else v.installed,
       selected := if KeyOf(c) in v.selected then v.selected else v.selected[KeyOf(c) := c],
       visited := if first then v.visited + {m} else v.visited,
       row := if first then v.row[m := c] else v.row)
  }

  lemma TakenInSteps(v: View)
    requires v.todo != []
    ensures var t := v.todo[0];
            Taken(v) == Visiting(Selecting(Installing(v.(todo := v.todo[1..]), t), t.candidate), t)
  {
    var t, w := v.todo[0], Taken(v);
    var a := v.(todo := v.todo[1..]);
    var b := a.(versions := w.versions, issues := w.issues, installed := w.installed);
    assert Installing(a, t) == b;
    assert Selecting(b, t.candidate) == b.(selected := w.selected);
    assert Visiting(b.(selected := w.selected), t) == w;
  }

  /** The dependencies of the first task are not to be followed, or have been. */
  predicate Seen(v: View)
    requires v.todo != []
  {
    v.todo[0].use.operation == Download || ModeOf(v.todo[0]) in v.visited
  }

  /** The records that taking the first task keeps: its use, a new row, an issue. */
  function TakeCost(v: View): nat
    requires v.todo != []
  {
    |Installing(v, v.todo[0]).issues| - |v.issues| + if KeyOf(v.todo[0].candidate) in v.selected then 1 else 2
  }

  /** A row selected before under the same key is the same file. */
  predicate SameFile(v: View)
    requires v.todo != []
  {
    var c := v.todo[0].candidate;
    KeyOf(c) in v.selected ==> v.selected[KeyOf(c)].row.url == c.row.url && v.selected[KeyOf(c)].row.file == c.row.file
  }

  /** A group's answer: a task for its candidate, or an issue. */
  function Answered(v: View, s: Slot, c: Option<Candidate>, unread: seq<Issue>): View
    requires s.mode in v.row && s.place < |GroupsOf(v.row[s.mode], s.field)|
  {
    var g := GroupsOf(v.row[s.mode], s.field)[s.place];
    var missing :=
      if c.Some? || Optional(s.field) then [] else [Unsatisfied(v.row[s.mode].row.package, s.field, g.text)];
    v.(todo := if c.Some? then v.todo + [Task(c.value, UseOf(s.mode))] else v.todo,
       owed := if c.Some? then v.owed + {Task(c.value, UseOf(s.mode))} else v.owed,
       answers := v.answers[s := c],
       issues := v.issues + unread + missing)
  }

  // -------------------------------------------------------------- what steps keep

  lemma MixedStays(issues: seq<Issue>, more: seq<Issue>)
    ensures forall p :: Mixed(issues, p) ==> Mixed(issues + more, p)
    ensures forall p :: Mixed(issues + more, p) ==> Mixed(issues, p) || Mixed(more, p)
  {
    forall p | Mixed(issues, p) ensures Mixed(issues + more, p) {
      var i :| 0 <= i < |issues| && issues[i].MultipleVersions? && issues[i].package == p;
      assert (issues + more)[i] == issues[i];
    }
    forall p | Mixed(issues + more, p) ensures Mixed(issues, p) || Mixed(more, p) {
      var i :| 0 <= i < |issues + more| && (issues + more)[i].MultipleVersions? && (issues + more)[i].package == p;
      assert i < |issues| || more[i - |issues|] == (issues + more)[i];
    }
  }

  /** What only grows in a phase. */
  ghost predicate Grows(v: View, w: View) {
    && v.selected.Keys <= w.selected.Keys && v.visited <= w.visited
    && (forall n :: n in v.versions ==> n in w.versions && w.versions[n] == v.versions[n])
    && v.issues <= w.issues
  }

  lemma HandledStays(v: View, w: View, t: Task)
    requires Grows(v, w) && Handled(v, t)
    ensures Handled(w, t)
  {
    assert w.issues == v.issues + w.issues[|v.issues|..];
    MixedStays(v.issues, w.issues[|v.issues|..]);
  }

  lemma TakenGrows(v: View)
    requires v.todo != []
    ensures Grows(v, Taken(v)) && Handled(Taken(v), v.todo[0])
  {
    var t, w := v.todo[0], Taken(v);
    var n := NameOf(t.candidate);
    if Mutates(t.use) && n in v.versions && v.versions[n] != t.candidate.row.version {
      assert w.issues[|v.issues|] == MultipleVersions(n.0, v.versions[n], t.candidate.row.version);
    }
  }

  lemma TakenOwes(v: View)
    requires v.todo != [] && Owing(v)
    ensures Owing(Taken(v))
  {
    var w := Taken(v);
    TakenGrows(v);
    forall t | t in w.owed ensures t in w.todo || Handled(w, t) {
      if t !in v.todo {
        HandledStays(v, w, t);
      } else if t != v.todo[0] {
        assert v.todo == [v.todo[0]] + w.todo;
      }
    }
  }

  lemma TakenInstalls(v: View)
    requires v.todo != [] && VersionsInstalled(v) && Keyed(v.installed)
    ensures VersionsInstalled(Taken(v)) && Keyed(Taken(v).installed)
  {
    var w := Taken(v);
    TakenGrows(v);
    assert w.issues == v.issues + w.issues[|v.issues|..];
    MixedStays(v.issues, w.issues[|v.issues|..]);
    forall n | n in w.versions
      ensures n in w.installed && (Mixed(w.issues, n.0) || w.installed[n].row.version == w.versions[n])
    {
      assert n in v.versions || n == NameOf(v.todo[0].candidate);
    }
  }

  lemma SlotStays(v: View, w: View, s: Slot, env: Setting)
    requires s in v.answers && SlotRight(v, s, env) && s in w.answers && w.answers[s] == v.answers[s]
    requires s.mode in w.row && w.row[s.mode] == v.row[s.mode] && v.owed <= w.owed && v.issues <= w.issues
    ensures SlotRight(w, s, env)
  {
  }

  lemma TakenAnswers(v: View, env: Setting)
    requires v.todo != [] && AnswersRight(v, env) && AllComplete(v, {})
    ensures AnswersRight(Taken(v), env)
  {
    var w := Taken(v);
    forall s | s in w.answers ensures SlotRight(w, s, env) {
      SlotStays(v, w, s, env);
    }
  }

  lemma TakenCompletes(v: View)
    requires v.todo != [] && AllComplete(v, {})
    ensures AllComplete(Taken(v), Taken(v).visited - v.visited)
  {
    var w := Taken(v);
    forall m | m in w.visited && m in v.visited ensures Complete(w, m) {
      assert Complete(v, m);
    }
  }

  /** Taking a task keeps the invariant, but for the groups of a mode it visits for the first time. */
  lemma TakenKeeps(v: View, env: Setting)
    requires v.todo != [] && v in Coherent(env, {})
    ensures Taken(v) in Coherent(env, Taken(v).visited - v.visited)
  {
    TakenOwes(v);
    TakenInstalls(v);
    TakenAnswers(v, env);
    TakenCompletes(v);
  }

  ghost predicate Unread(issues: seq<Issue>) {
    forall i :: 0 <= i < |issues| ==> issues[i].UnsupportedExpression?
  }

  lemma AnsweredGrows(v: View, s: Slot, c: Option<Candidate>, unread: seq<Issue>)
    requires s.mode in v.row && s.place < |GroupsOf(v.row[s.mode], s.field)| && Unread(unread)
    ensures Grows(v, Answered(v, s, c, unread))
    ensures forall p :: Mixed(Answered(v, s, c, unread).issues, p) <==> Mixed(v.issues, p)
  {
    var text := GroupsOf(v.row[s.mode], s.field)[s.place].text;
    var last := if c.Some? || Optional(s.field) then [] else [Unsatisfied(v.row[s.mode].row.package, s.field, text)];
    assert Answered(v, s, c, unread).issues == v.issues + (unread + last);
    MixedStays(v.issues, unread + last);
  }

  lemma AnsweredOwes(v: View, s: Slot, c: Option<Candidate>, unread: seq<Issue>)
    requires s.mode in v.row && s.place < |GroupsOf(v.row[s.mode], s.field)| && Unread(unread) && Owing(v)
    ensures Owing(Answered(v, s, c, unread))
  {
    var w := Answered(v, s, c, unread);
    AnsweredGrows(v, s, c, unread);
    forall t | t in w.owed ensures t in w.todo || Handled(w, t) {
      if t in v.owed && t !in v.todo {
        HandledStays(v, w, t);
      }
    }
  }

  lemma AnsweredIsRight(v: View, s: Slot, c: Option<Candidate>, unread: seq<Issue>, env: Setting)
    requires s.mode in v.row && s.place < |GroupsOf(v.row[s.mode], s.field)| && AnswersRight(v, env)
    requires c.Some? ==>
               Answers(env, c.value, GroupsOf(v.row[s.mode], s.field)[s.place], v.row[s.mode].row.kind, s.mode.target)
    ensures AnswersRight(Answered(v, s, c, unread), env)
  {
    SlotAnswered(v, s, c, unread, env);
    forall x | x in Answered(v, s, c, unread).answers ensures SlotRight(Answered(v, s, c, unread), x, env) {
      if x != s {
        SlotKept(v, s, c, unread, x, env);
      }
    }
  }

  lemma SlotKept(v: View, s: Slot, c: Option<Candidate>, unread: seq<Issue>, x: Slot, env: Setting)
    requires s.mode in v.row && s.place < |GroupsOf(v.row[s.mode], s.field)|
    requires x in v.answers && x != s && SlotRight(v, x, env)
    ensures x in Answered(v, s, c, unread).answers && SlotRight(Answered(v, s, c, unread), x, env)
  {
    SlotStays(v, Answered(v, s, c, unread), x, env);
  }

  lemma SlotAnswered(v: View, s: Slot, c: Option<Candidate>, unread: seq<Issue>, env: Setting)
    requires s.mode in v.row && s.place < |GroupsOf(v.row[s.mode], s.field)|
    requires c.Some? ==>
               Answers(env, c.value, GroupsOf(v.row[s.mode], s.field)[s.place], v.row[s.mode].row.kind, s.mode.target)
    ensures SlotRight(Answered(v, s, c, unread), s, env)
  {
  }

  lemma AnsweredCompletes(v: View, s: Slot, c: Option<Candidate>, unread: seq<Issue>, except: set<Mode>)
    requires s.mode in v.row && s.place < |GroupsOf(v.row[s.mode], s.field)| && Unread(unread)
    requires AllComplete(v, except) && VersionsInstalled(v)
    ensures AllComplete(Answered(v, s, c, unread), except) && VersionsInstalled(Answered(v, s, c, unread))
  {
    var w := Answered(v, s, c, unread);
    AnsweredGrows(v, s, c, unread);
    forall m | m in w.visited && m !in except ensures Complete(w, m) {
      assert Complete(v, m);
    }
  }

  /** Answering a group keeps the invariant. */
  lemma AnsweredKeeps(v: View, s: Slot, c: Option<Candidate>, unread: seq<Issue>, env: Setting, except: set<Mode>)
    requires s.mode in v.row && s.place < |GroupsOf(v.row[s.mode], s.field)| && Unread(unread)
    requires c.Some? ==>
               Answers(env, c.value, GroupsOf(v.row[s.mode], s.field)[s.place], v.row[s.mode].row.kind, s.mode.target)
    requires v in Coherent(env, except)
    ensures Answered(v, s, c, unread) in Coherent(env, except)
  {
    AnsweredOwes(v, s, c, unread);
    AnsweredIsRight(v, s, c, unread, env);
    AnsweredCompletes(v, s, c, unread, except);
  }

  // ------------------------------------------------------- where tasks come from

  /** What a phase is given: the rows of its seeds, plan, installation and catalog, its seeds, and
      what was selected before. */
  datatype Given = Given(rows: iset<Row>, seeds: set<Task>, selected: set<RowKey>)

  /** The task is for what a group of a visited mode asks for. */
  ghost predicate Wanted(v: View, t: Task, env: Setting) {
    exists m, f, k ::
      && m in v.visited && m in v.row && 0 <= f < |FieldsOf(m)| && 0 <= k < |GroupsOf(v.row[m], FieldsOf(m)[f])|
      && t.use == UseOf(m)
      && Answers(env, t.candidate, GroupsOf(v.row[m], FieldsOf(m)[f])[k], v.row[m].row.kind, m.target)
  }

  ghost predicate Queued(v: View, key: RowKey) {
    exists t :: t in v.owed && KeyOf(t.candidate) == key
  }

  /** Every task is a seed or wanted, every new selection has a task, and all rows are given. */
  ghost predicate Accounted(v: View, planned: Planned, env: Setting, given: Given) {
    && CatalogRows(env.ctx) <= given.rows && Stocked(planned, v.installed, given.rows)
    && (forall t :: t in v.todo ==> t in v.owed)
    && (forall t :: t in v.owed ==> t.candidate.row in given.rows)
    && (forall t :: t in v.owed ==> t in given.seeds || Wanted(v, t, env))
    && (forall key :: key in v.selected ==> key in given.selected || Queued(v, key))
    && (forall m :: m in v.row ==> v.row[m].row in given.rows)
  }

  /** What these arguments give a phase. */
  ghost function GivenOf(env: Setting, seeds: seq<Task>, planned: Planned, installed: Installed,
                         selected: map<RowKey, Candidate>): Given
  {
    Given((iset t: Task | t in seeds :: t.candidate.row) + (iset name: string | name in planned :: planned[name].row)
          + (iset n: (string, string) | n in installed :: installed[n].row) + CatalogRows(env.ctx),
          (set t | t in seeds), selected.Keys)
  }

  ghost function Accounts(env: Setting, given: Given): iset<(View, Planned)> {
    iset p: (View, Planned) | Accounted(p.0, p.1, env, given)
  }

  lemma SeedsAccount(v: View, planned: Planned, env: Setting, seeds: seq<Task>)
    requires v.todo == seeds && v.owed == (set t | t in seeds) && v.row == map[]
    ensures (v, planned) in Accounts(env, GivenOf(env, seeds, planned, v.installed, v.selected))
  {
    var given := GivenOf(env, seeds, planned, v.installed, v.selected);
    forall t | t in v.owed ensures t.candidate.row in given.rows {
      assert t in seeds;
    }
    forall name | name in planned ensures planned[name].row in given.rows {
    }
    forall n | n in v.installed ensures v.installed[n].row in given.rows {
    }
  }

  lemma WantedStays(v: View, w: View, t: Task, env: Setting)
    requires Wanted(v, t, env) && v.visited <= w.visited
    requires forall m :: m in v.visited && m in v.row ==> m in w.row && w.row[m] == v.row[m]
    ensures Wanted(w, t, env)
  {
    var m, f, k :|
      && m in v.visited && m in v.row && 0 <= f < |FieldsOf(m)| && 0 <= k < |GroupsOf(v.row[m], FieldsOf(m)[f])|
      && t.use == UseOf(m)
      && Answers(env, t.candidate, GroupsOf(v.row[m], FieldsOf(m)[f])[k], v.row[m].row.kind, m.target);
    assert w.row[m] == v.row[m];
  }

  lemma QueuedStays(v: View, w: View, key: RowKey)
    requires Queued(v, key) && v.owed <= w.owed
    ensures Queued(w, key)
  {
  }

  /** Taking a task loses no account. */
  lemma TakenAccounts(v: View, planned: Planned, env: Setting, given: Given)
    requires v.todo != [] && (v, planned) in Accounts(env, given)
    ensures (Taken(v), planned) in Accounts(env, given)
  {
    var w := Taken(v);
    assert v.todo[0] in v.todo;
    forall t | t in w.owed ensures t in given.seeds || Wanted(w, t, env) {
      if t !in given.seeds {
        WantedStays(v, w, t, env);
      }
    }
    forall key | key in w.selected ensures key in given.selected || Queued(w, key) {
      if key in v.selected && key !in given.selected {
        QueuedStays(v, w, key);
      }
    }
  }

  /** Nor does answering a group, with what it asks for. */
  lemma AnsweredAccounts(v: View, m: Mode, f: nat, k: nat, c: Option<Candidate>, unread: seq<Issue>,
                         planned: Planned, after: Planned, env: Setting, given: Given)
    requires m in v.visited && m in v.row && f < |FieldsOf(m)| && k < |GroupsOf(v.row[m], FieldsOf(m)[f])|
    requires c.Some? ==> c.value.row in given.rows
                         && Answers(env, c.value, GroupsOf(v.row[m], FieldsOf(m)[f])[k], v.row[m].row.kind, m.target)
    requires after == planned || (c.Some? && after == planned[c.value.row.package := c.value])
    requires (v, planned) in Accounts(env, given)
    ensures (Answered(v, Slot(m, FieldsOf(m)[f], k), c, unread), after) in Accounts(env, given)
  {
    var w := Answered(v, Slot(m, FieldsOf(m)[f], k), c, unread);
    AnsweredTasks(v, Slot(m, FieldsOf(m)[f], k), c, unread);
    if c.Some? {
      AnswerIsWanted(w, m, f, k, c.value, env);
    }
    OneTaskMore(v, w, if c.Some? then {Task(c.value, UseOf(m))} else {}, planned, after, env, given);
  }

  lemma AnsweredTasks(v: View, s: Slot, c: Option<Candidate>, unread: seq<Issue>)
    requires s.mode in v.row && s.place < |GroupsOf(v.row[s.mode], s.field)|
    ensures var w, tasks := Answered(v, s, c, unread), if c.Some? then {Task(c.value, UseOf(s.mode))} else {};
            && w.visited == v.visited && w.row == v.row && w.selected == v.selected && w.installed == v.installed
            && w.owed == v.owed + tasks && forall t :: t in w.todo ==> t in v.todo || t in tasks
  {
  }

  lemma OneTaskMore(v: View, w: View, tasks: set<Task>, planned: Planned, after: Planned, env: Setting, given: Given)
    requires (v, planned) in Accounts(env, given)
    requires w.visited == v.visited && w.row == v.row && w.selected == v.selected && w.installed == v.installed
    requires w.owed == v.owed + tasks
    requires forall t :: t in w.todo ==> t in v.todo || t in tasks
    requires forall t :: t in tasks ==> t.candidate.row in given.rows && Wanted(w, t, env)
    requires Stocked(after, v.installed, given.rows)
    ensures (w, after) in Accounts(env, given)
  {
    forall t | t in w.owed ensures t in given.seeds || Wanted(w, t, env) {
      if t in v.owed && t !in given.seeds {
        WantedStays(v, w, t, env);
      }
    }
    forall key | key in w.selected ensures key in given.selected || Queued(w, key) {
      if key !in given.selected {
        QueuedStays(v, w, key);
      }
    }
  }

  lemma AnswerIsWanted(v: View, m: Mode, f: nat, k: nat, c: Candidate, env: Setting)
    requires m in v.visited && m in v.row && f < |FieldsOf(m)| && k < |GroupsOf(v.row[m], FieldsOf(m)[f])|
    requires Answers(env, c, GroupsOf(v.row[m], FieldsOf(m)[f])[k], v.row[m].row.kind, m.target)
    ensures Wanted(v, Task(c, UseOf(m)), env)
  {
  }

  /** The states of the loop: coherent and accounted for, with the plan keyed by name. */
  ghost function States(env: Setting, given: Given, except: set<Mode>): iset<(View, Planned)> {
    iset p: (View, Planned) | p.0 in Coherent(env, except) && p in Accounts(env, given) && KeyedByName(p.1)
  }

  lemma StatesMean(v: View, planned: Planned, env: Setting, given: Given, except: set<Mode>)
    requires (v, planned) in States(env, given, except)
    ensures KeyedByName(planned) && Keyed(v.installed) && CatalogRows(env.ctx) <= given.rows
    ensures Stocked(planned, v.installed, given.rows) && v.row.Keys == v.visited
  {
  }

  /** The plan after an answer. */
  function PlannedAfter(planned: Planned, m: Mode, c: Option<Candidate>): Planned {
    if c.Some? && !m.downloadOnly then planned[c.value.row.package := c.value] else planned
  }

  lemma StateAnswered(v: View, planned: Planned, m: Mode, f: nat, k: nat, c: Option<Candidate>, unread: seq<Issue>,
                      env: Setting, given: Given, except: set<Mode>)
    requires m in v.row && f < |FieldsOf(m)| && k < |GroupsOf(v.row[m], FieldsOf(m)[f])| && Unread(unread)
    requires c.Some? ==> c.value.row in given.rows
                         && Answers(env, c.value, GroupsOf(v.row[m], FieldsOf(m)[f])[k], v.row[m].row.kind, m.target)
    requires (v, planned) in States(env, given, except)
    ensures (Answered(v, Slot(m, FieldsOf(m)[f], k), c, unread), PlannedAfter(planned, m, c))
            in States(env, given, except)
  {
    StatesMean(v, planned, env, given, except);
    AnsweredKeeps(v, Slot(m, FieldsOf(m)[f], k), c, unread, env, except);
    AnsweredAccounts(v, m, f, k, c, unread, planned, PlannedAfter(planned, m, c), env, given);
  }

  lemma StateTaken(v: View, planned: Planned, env: Setting, given: Given)
    requires v.todo != [] && (v, planned) in States(env, given, {})
    ensures (Taken(v), planned) in States(env, given, Taken(v).visited - v.visited)
  {
    TakenKeeps(v, env);
    TakenAccounts(v, planned, env, given);
  }

  // ------------------------------------------------------- the groups of a mode

  function SlotsOf(m: Mode, field: string, n: nat): set<Slot> {
    if n == 0 then {} else SlotsOf(m, field, n - 1) + {Slot(m, field, n - 1)}
  }

  /** The groups of the first `f` fields that a mode follows. */
  function ModeSlots(m: Mode, c: Candidate, f: nat): set<Slot>
    requires f <= |FieldsOf(m)|
  {
    if f == 0 then {} else
      var field := FieldsOf(m)[f - 1];
      ModeSlots(m, c, f - 1) + SlotsOf(m, field, |GroupsOf(c, field)|)
  }

  lemma SlotsOneMore(before: set<Slot>, m: Mode, field: string, n: nat)
    ensures before + SlotsOf(m, field, n) + {Slot(m, field, n)} == before + SlotsOf(m, field, n + 1)
  {
  }

  lemma {:induction false} InSlots(m: Mode, field: string, n: nat, k: nat)
    requires k < n
    ensures Slot(m, field, k) in SlotsOf(m, field, n)
  {
    if k < n - 1 {
      InSlots(m, field, n - 1, k);
    }
  }

  lemma {:induction false} InModeSlots(m: Mode, c: Candidate, f: nat, e: nat, k: nat)
    requires e < f <= |FieldsOf(m)| && k < |GroupsOf(c, FieldsOf(m)[e])|
    ensures Slot(m, FieldsOf(m)[e], k) in ModeSlots(m, c, f)
  {
    if e < f - 1 {
      InModeSlots(m, c, f - 1, e, k);
    } else {
      InSlots(m, FieldsOf(m)[e], |GroupsOf(c, FieldsOf(m)[e])|, k);
    }
  }

  lemma AllSlotsComplete(v: View, m: Mode, env: Setting)
    requires m in v.row && KeyOf(v.row[m]) == m.row && ModeSlots(m, v.row[m], |FieldsOf(m)|) <= v.answers.Keys
    requires v in Coherent(env, {m})
    ensures v in Coherent(env, {})
  {
    forall f, k | 0 <= f < |FieldsOf(m)| && 0 <= k < |GroupsOf(v.row[m], FieldsOf(m)[f])|
      ensures Slot(m, FieldsOf(m)[f], k) in v.answers
    {
      InModeSlots(m, v.row[m], |FieldsOf(m)|, f, k);
    }
    assert Complete(v, m);
  }

  lemma StateComplete(v: View, planned: Planned, m: Mode, env: Setting, given: Given)
    requires m in v.row && KeyOf(v.row[m]) == m.row && ModeSlots(m, v.row[m], |FieldsOf(m)|) <= v.answers.Keys
    requires (v, planned) in States(env, given, {m})
    ensures (v, planned) in States(env, given, {})
  {
    AllSlotsComplete(v, m, env);
  }

  /** The views that answering the first groups of a field may reach. */
  ghost function FieldAnswered(v: View, m: Mode, field: string, n: nat): iset<View> {
    iset w: View | w.row == v.row && w.visited == v.visited && v.owed <= w.owed
                   && v.answers.Keys + SlotsOf(m, field, n) <= w.answers.Keys
  }

  lemma NothingAnswered(v: View, m: Mode, field: string)
    ensures v in FieldAnswered(v, m, field, 0)
  {
  }

  lemma OneGroupMore(u: View, v: View, w: View, m: Mode, field: string, n: nat)
    requires v in FieldAnswered(u, m, field, n)
    requires w.row == v.row && w.visited == v.visited && v.owed <= w.owed
    requires v.answers.Keys + {Slot(m, field, n)} <= w.answers.Keys
    ensures w in FieldAnswered(u, m, field, n + 1)
  {
    SlotsOneMore(u.answers.Keys, m, field, n);
  }

  /** And those that answering the first fields of a mode may reach. */
  ghost function FieldsAnswered(v: View, m: Mode, c: Candidate, n: nat): iset<View>
    requires n <= |FieldsOf(m)|
  {
    iset w: View | w.row == v.row && w.visited == v.visited && v.owed <= w.owed && ModeSlots(m, c, n) <= w.answers.Keys
  }

  lemma NoFieldAnswered(v: View, m: Mode, c: Candidate)
    ensures v in FieldsAnswered(v, m, c, 0)
  {
  }

  lemma OneFieldMore(u: View, v: View, w: View, m: Mode, c: Candidate, f: nat)
    requires f < |FieldsOf(m)| && v in FieldsAnswered(u, m, c, f)
    requires w in FieldAnswered(v, m, FieldsOf(m)[f], |GroupsOf(c, FieldsOf(m)[f])|)
    ensures w in FieldsAnswered(u, m, c, f + 1)
  {
  }

  lemma FieldsMean(u: View, v: View, m: Mode, c: Candidate)
    requires v in FieldsAnswered(u, m, c, |FieldsOf(m)|)
    ensures v.row == u.row && v.visited == u.visited && u.owed <= v.owed
    ensures ModeSlots(m, c, |FieldsOf(m)|) <= v.answers.Keys
  {
  }

  /** The row of this task has no dependencies that its mode follows. */
  predicate NoGroups(t: Task) {
    forall f :: 0 <= f < |FieldsOf(ModeOf(t))| ==> GroupsOf(t.candidate, FieldsOf(ModeOf(t))[f]) == []
  }

  // -------------------------------------------------------------- the worklist

  /** The local state of the loop over one phase. `budget` counts the records that may still be kept. */
  class Phase {
    const env: Setting
    var todo: seq<Task>
    var visited: set<Mode>
    var versions: map<(string, string), Version>
    var planned: Planned
    var installed: Installed
    var selected: map<RowKey, Candidate>
    var issues: seq<Issue>
    var budget: nat
    ghost var owed: set<Task>
    ghost var row: map<Mode, Candidate>
    ghost var answers: map<Slot, Option<Candidate>>
    ghost const given: Given

    constructor (env: Setting, todo: seq<Task>, planned: Planned, installed: Installed,
                 selected: map<RowKey, Candidate>, budget: nat)
      ensures this.env == env && this.planned == planned && this.budget == budget
      ensures given == GivenOf(env, todo, planned, installed, selected)
      ensures Now() == View(todo, {}, map[], installed, selected, [], set t | t in todo, map[], map[])
    {
      this.env, this.todo, this.planned, this.installed := env, todo, planned, installed;
      this.selected, this.budget, this.visited, this.versions, this.issues := selected, budget, {}, map[], [];
      this.owed, this.row, this.answers := set t | t in todo, map[], map[];
      this.given := GivenOf(env, todo, planned, installed, selected);
    }

    /** The loop invariant, but for the groups of these modes. */
    ghost predicate Good(except: set<Mode>)
      reads this
    {
      (Now(), planned) in States(env, given, except)
    }

    ghost function Now(): View
      reads this
    {
      View(todo, visited, versions, installed, selected, issues, owed, row, answers)
    }

    method Consume(n: nat) returns (ok: bool)
      modifies this`budget
      ensures ok <==> n <= old(budget)
      ensures budget == if ok then old(budget) - n else 0
    {
      ok := n <= budget;
      budget := if ok then budget - n else 0;
    }

    method Apply(t: Task)
      modifies `versions, `issues, `installed
      ensures Now() == Installing(old(Now()), t) && |issues| >= |old(issues)|
    {
      var n, version := NameOf(t.candidate), t.candidate.row.version;
      if Mutates(t.use) {
        if n !in versions {
          versions := versions[n := version];
        } else if versions[n] != version {
          issues := issues + [MultipleVersions(t.candidate.row.package, versions[n], version)];
        }
        installed := installed[n := t.candidate];
      }
    }

    /** Records what a task installs, and charges for it. */
    method Keep(t: Task, ghost v: View) returns (kept: bool)
      requires v.todo != [] && t == v.todo[0] && Now() == v.(todo := v.todo[1..])
      modifies `versions, `issues, `installed, `budget
      ensures Now() == Installing(v.(todo := v.todo[1..]), t)
      ensures kept <==> TakeCost(v) <= old(budget)
      ensures kept ==> budget == old(budget) - TakeCost(v)
    {
      var reported := |issues|;
      Apply(t);
      kept := Consume(|issues| - reported + if KeyOf(t.candidate) in selected then 1 else 2);
    }

    method Select(c: Candidate) returns (ok: bool)
      modifies `selected
      ensures Now() == Selecting(old(Now()), c)
      ensures ok <==> KeyOf(c) in old(selected) ==>
                old(selected)[KeyOf(c)].row.url == c.row.url && old(selected)[KeyOf(c)].row.file == c.row.file
    {
      ok := true;
      if KeyOf(c) !in selected {
        selected := selected[KeyOf(c) := c];
      } else {
        ok := selected[KeyOf(c)].row.url == c.row.url && selected[KeyOf(c)].row.file == c.row.file;
      }
    }

    method Visit(t: Task)
      modifies `visited, `row
      ensures Now() == Visiting(old(Now()), t)
    {
      if t.use.operation == Install && ModeOf(t) !in visited {
        visited := visited + {ModeOf(t)};
        row := row[ModeOf(t) := t.candidate];
      }
    }

    /** The head of the loop: the first task is taken, recorded, selected and visited. */
    method Take() returns (r: Result<Task>)
      requires todo != []
      modifies `todo, `versions, `issues, `installed, `budget, `selected, `visited, `row
      ensures r.Ok? <==> TakeCost(old(Now())) <= old(budget) && SameFile(old(Now()))
      ensures r.Ok? ==> r.value == old(todo)[0] && Now() == Taken(old(Now()))
      ensures r.Ok? ==> budget == old(budget) - TakeCost(old(Now()))
    {
      var t := todo[0];
      TakenInSteps(Now());
      ghost var v := Now();
      todo := todo[1..];
      var kept := Keep(t, v);
      if !kept {
        return Raised("aggregate source discovery limit exceeded");
      }
      var same := Select(t.candidate);
      if !same {
        return Raised("selected binary identity conflicts across repository indexes");
      }
      Visit(t);
      r := Ok(t);
    }

    /** What a group's answer puts into the queue, the plan and the issues. */
    method Record(m: Mode, from: Candidate, field: string, place: nat, c: Option<Candidate>, reports: seq<Issue>)
      requires m in row && row[m] == from
      requires place < |GroupsOf(from, field)|
      modifies `todo, `planned, `issues, `owed, `answers
      ensures Now() == Answered(old(Now()), Slot(m, field, place), c, reports)
      ensures planned == PlannedAfter(old(planned), m, c)
    {
      issues := issues + reports;
      answers := answers[Slot(m, field, place) := c];
      if c.Some? {
        if !m.downloadOnly {
          planned := planned[c.value.row.package := c.value];
        }
        todo := todo + [Task(c.value, UseOf(m))];
        owed := owed + {Task(c.value, UseOf(m))};
      } else if !Optional(field) {
        issues := issues + [Unsatisfied(from.row.package, field, GroupsOf(from, field)[place].text)];
      }
    }

    /** The decision about a group, under what is planned and installed now. */
    method Decision(g: Group, kind: string, target: Option<string>, ghost except: set<Mode>)
        returns (r: Result<Option<Candidate>>, unread: nat)
      requires Sound(env.ctx) && Good(except)
      ensures r.Ok? ==> r.value == Decide(Offers(env, g, kind, target, planned, installed))
      ensures r.Ok? && r.value.Some? ==> Answers(env, r.value.value, g, kind, target) && r.value.value.row in given.rows
    {
      StatesMean(Now(), planned, env, given, except);
      r, unread := ResolveGroup(env, g, kind, target, planned, installed);
      DecidedAnswers(env, g, kind, target, planned, installed);
      DecidedIsDrawn(env, g, kind, target, planned, installed, given.rows);
    }

    /** One dependency group. */
    method Answer(m: Mode, from: Candidate, f: nat, place: nat, ghost except: set<Mode>) returns (r: Result<()>)
      requires Sound(env.ctx) && Good(except)
      requires m in row && row[m] == from
      requires f < |FieldsOf(m)| && place < |GroupsOf(from, FieldsOf(m)[f])|
      modifies this
      ensures r.Ok? ==> Good(except) && row == old(row) && visited == old(visited) && old(owed) <= owed
      ensures r.Ok? ==> old(answers).Keys + {Slot(m, FieldsOf(m)[f], place)} <= answers.Keys
    {
      var field := FieldsOf(m)[f];
      var g := GroupsOf(from, field)[place];
      var c, unread := Decision(g, from.row.kind, m.target, except);
      if c.Raised? {
        return Raised(c.reason);
      }
      var kept := Consume(unread + if c.value.None? && !Optional(field) then 1 else 0);
      if !kept {
        return Raised("aggregate source discovery limit exceeded");
      }
      var reports := seq(unread, _ => UnsupportedExpression(from.row.package, field));
      StateAnswered(Now(), planned, m, f, place, c.value, reports, env, given, except);
      Record(m, from, field, place, c.value, reports);
      r := Ok(());
    }

    /** The groups of one dependency field. */
    method AnswerField(m: Mode, from: Candidate, f: nat, ghost except: set<Mode>) returns (r: Result<()>)
      requires Sound(env.ctx) && Good(except)
      requires m in row && row[m] == from && f < |FieldsOf(m)|
      modifies this
      ensures r.Ok? ==> Good(except)
      ensures r.Ok? ==> Now() in FieldAnswered(old(Now()), m, FieldsOf(m)[f], |GroupsOf(from, FieldsOf(m)[f])|)
      ensures GroupsOf(from, FieldsOf(m)[f]) == [] ==> r.Ok? && unchanged(this)
    {
      var field := FieldsOf(m)[f];
      r := Ok(());
      NothingAnswered(Now(), m, field);
      for place := 0 to |GroupsOf(from, field)|
        invariant r.Ok? && Good(except) && m in row && row[m] == from
        invariant Now() in FieldAnswered(old(Now()), m, field, place)
        invariant place == 0 ==> unchanged(this)
      {
        ghost var before := Now();
        r := Answer(m, from, f, place, except);
        if r.Raised? {
          return;
        }
        OneGroupMore(old(Now()), before, Now(), m, field, place);
      }
    }

    /** The dependencies of a mode that is visited for the first time. */
    method Follow(t: Task) returns (r: Result<()>)
      requires Sound(env.ctx) && Good({ModeOf(t)})
      requires ModeOf(t) in row && row[ModeOf(t)] == t.candidate
      modifies this
      ensures r.Ok? ==> Good({}) && row == old(row) && visited == old(visited) && old(owed) <= owed
      ensures NoGroups(t) ==> r.Ok? && unchanged(this)
    {
      var m := ModeOf(t);
      NoFieldAnswered(Now(), m, t.candidate);
      for f := 0 to |FieldsOf(m)|
        invariant Good({m}) && Now() in FieldsAnswered(old(Now()), m, t.candidate, f)
        invariant NoGroups(t) ==> unchanged(this)
      {
        r := FollowField(m, t.candidate, f, old(Now()));
        if r.Raised? {
          return;
        }
      }
      FieldsMean(old(Now()), Now(), m, t.candidate);
      StateComplete(Now(), planned, m, env, given);
      r := Ok(());
    }

    /** Its turn for one field. */
    method FollowField(m: Mode, from: Candidate, f: nat, ghost start: View) returns (r: Result<()>)
      requires Sound(env.ctx) && Good({m}) && f < |FieldsOf(m)|
      requires m in start.row && start.row[m] == from && Now() in FieldsAnswered(start, m, from, f)
      modifies this
      ensures r.Ok? ==> Good({m}) && Now() in FieldsAnswered(start, m, from, f + 1)
      ensures GroupsOf(from, FieldsOf(m)[f]) == [] ==> r.Ok? && unchanged(this)
    {
      ghost var before := Now();
      r := AnswerField(m, from, f, {m});
      if r.Ok? {
        OneFieldMore(start, before, Now(), m, from, f);
      }
    }

    /** Nothing is in the way of the first task, and it has no dependencies or they are followed. */
    ghost predicate Plain()
      reads this
    {
      && todo != [] && |todo| <= MOST_PENDING && TakeCost(Now()) <= budget && SameFile(Now())
      && |visited| < MOST_VISITED && |selected| < MOST_SELECTED
      && (NoGroups(todo[0]) || todo[0].use.operation == Download || ModeOf(todo[0]) in visited)
    }

    /** One round: it visits a new mode, or shortens the queue. */
    method Round() returns (r: Result<()>)
      requires Sound(env.ctx) && Good({}) && todo != []
      modifies this
      ensures r.Ok? ==> Good({}) && old(owed) <= owed
      ensures r.Ok? && |old(visited)| <= MOST_VISITED ==> |visited| <= MOST_VISITED
      ensures r.Ok? ==> |visited| > |old(visited)| || (visited == old(visited) && |todo| < |old(todo)|)
      ensures old(Plain()) ==> r.Ok? && Now() == Taken(old(Now())) && budget == old(budget) - TakeCost(old(Now()))
    {
      StateTaken(Now(), planned, env, given);
      SeenMode(Now());
      if !Seen(Now()) {
        NewMode(Now());
      }
      var taken := TakeFirst();
      if taken.Raised? {
        return Raised(taken.reason);
      }
      r := Ok(());
      if taken.value.Some? {
        r := Follow(taken.value.value);
      }
    }

    /** Its part before the dependencies; there is a task only if they are to be followed. */
    method TakeFirst() returns (r: Result<Option<Task>>)
      requires todo != []
      modifies this
      ensures old(Plain()) ==> r.Ok?
      ensures r.Ok? ==> Now() == Taken(old(Now())) && budget == old(budget) - TakeCost(old(Now()))
      ensures planned == old(planned)
      ensures r.Ok? ==> r.value == if Seen(old(Now())) then None else Some(old(todo)[0])
      ensures r.Ok? && r.value.Some? ==> |visited| <= MOST_VISITED
    {
      r := Raised("pending installation dependency limit exceeded");
      if |todo| <= MOST_PENDING {
        var seen := todo[0].use.operation == Download || ModeOf(todo[0]) in visited;
        if !seen {
          NewMode(Now());
        }
        var taken := Take();
        if taken.Raised? {
          r := Raised(taken.reason);
        } else if seen {
          r := Ok(None);
        } else if |visited| > MOST_VISITED || |selected| > MOST_SELECTED {
          r := Raised("selected installation package limit exceeded");
        } else {
          r := Ok(Some(taken.value));
        }
      }
    }

    /** The loop over the queue. */
    method Run() returns (r: Result<()>)
      requires Sound(env.ctx) && Good({}) && visited == {}
      modifies this
      ensures r.Ok? ==> todo == [] && Good({}) && old(owed) <= owed
    {
      while todo != []
        invariant Good({}) && old(owed) <= owed
        invariant |visited| <= MOST_VISITED
        decreases MOST_VISITED - |visited|, |todo|
      {
        r := Round();
        if r.Raised? {
          return;
        }
      }
      r := Ok(());
    }
  }

  /** A mode visited for the first time is the one exception to completeness, and counts. */
  lemma SeenMode(v: View)
    requires v.todo != []
    ensures |Taken(v).todo| < |v.todo| && Taken(v).owed == v.owed
    ensures Seen(v) ==> Taken(v).visited == v.visited && Taken(v).visited - v.visited == {}
  {
  }

  lemma NewMode(v: View)
    requires v.todo != [] && v.todo[0].use.operation == Install && ModeOf(v.todo[0]) !in v.visited
    ensures var m := ModeOf(v.todo[0]);
            && Taken(v).visited - v.visited == {m} && |Taken(v).visited| == |v.visited| + 1
            && |Taken(v).selected| <= |v.selected| + 1
            && m in Taken(v).row && Taken(v).row[m] == v.todo[0].candidate && v.todo[0].use == UseOf(m)
  {
  }

  // ------------------------------------------------------------------ the closure

  /** A dependency of this mode was handled in its turn and, unless several versions of this very
      package are reported or the mode only downloads, is what is installed in the end. */
  predicate InPlace(v: View, m: Mode, d: Candidate) {
    && Handled(v, Task(d, UseOf(m)))
    && (m.downloadOnly || Mixed(v.issues, d.row.package) ||
        (NameOf(d) in v.installed && v.installed[NameOf(d)].row.version == d.row.version))
  }

  /** A group of a visited mode is taken care of: what one of its alternatives asks for is in
      place, or there is an issue. */
  ghost predicate GroupDone(v: View, m: Mode, c: Candidate, field: string, g: Group, env: Setting) {
    || (exists d :: Answers(env, d, g, c.row.kind, m.target) && InPlace(v, m, d))
    || Optional(field)
    || Unsatisfied(c.row.package, field, g.text) in v.issues
  }

  ghost predicate Closed(v: View, env: Setting) {
    && v.row.Keys == v.visited && (forall m :: m in v.visited ==> KeyOf(v.row[m]) == m.row)
    && (forall t :: t in v.owed ==> Handled(v, t))
    && forall m, f, k :: m in v.visited && 0 <= f < |FieldsOf(m)| && 0 <= k < |GroupsOf(v.row[m], FieldsOf(m)[f])| ==>
         GroupDone(v, m, v.row[m], FieldsOf(m)[f], GroupsOf(v.row[m], FieldsOf(m)[f])[k], env)
  }

  /** When the queue is empty, the selection is closed under dependencies. */
  lemma EmptyQueueCloses(v: View, env: Setting)
    requires v in Coherent(env, {}) && v.todo == []
    ensures Closed(v, env)
  {
    forall m | m in v.visited ensures KeyOf(v.row[m]) == m.row {
      assert Complete(v, m);
    }
    forall m, f, k | m in v.visited && 0 <= f < |FieldsOf(m)| && 0 <= k < |GroupsOf(v.row[m], FieldsOf(m)[f])|
      ensures GroupDone(v, m, v.row[m], FieldsOf(m)[f], GroupsOf(v.row[m], FieldsOf(m)[f])[k], env)
    {
      assert Complete(v, m);
      var s := Slot(m, FieldsOf(m)[f], k);
      assert SlotRight(v, s, env);
      if v.answers[s].Some? {
        assert InPlace(v, m, v.answers[s].value);
      }
    }
  }

  /** Where the queries list no package but the named one, a closed group has in place a package
      that one of its alternatives names, in a version that satisfies the relationship. */
  lemma NamedPackageInPlace(v: View, m: Mode, c: Candidate, field: string, g: Group, env: Setting)
    requires GroupDone(v, m, c, field, g, env)
    requires forall i :: 0 <= i < |g.alternatives| && g.alternatives[i].Alternative? ==>
               OnlyNamed(env.ctx, AskFor(g.alternatives[i], c.row.kind, env.architecture, m.target))
    ensures || (exists d, i :: && 0 <= i < |g.alternatives| && g.alternatives[i].Alternative? && InPlace(v, m, d)
                               && d.row.package == g.alternatives[i].name
                               && Satisfies(d.row.version, g.alternatives[i].relation))
            || Optional(field) || Unsatisfied(c.row.package, field, g.text) in v.issues
  {
    if d :| Answers(env, d, g, c.row.kind, m.target) && InPlace(v, m, d) {
      var i :| 0 <= i < |g.alternatives| && AnswersAlternative(env, d, g.alternatives[i], c.row.kind, m.target);
      var q := AskFor(g.alternatives[i], c.row.kind, env.architecture, m.target);
      assert OnlyNamed(env.ctx, q);
      assert d.row.package == q.name;
    }
  }

  ghost predicate OnlyNamed(ctx: Context, q: Query) {
    forall i :: 0 <= i < |Returned(ctx, q)| ==> Returned(ctx, q)[i].row.package == q.name
  }

  /** A handled row has its groups taken care of where it has the dependency fields of the row
      that its mode was visited with. */
  lemma HandledRowCloses(v: View, env: Setting, t: Task, f: nat, k: nat)
    requires Closed(v, env) && t in v.owed && t.use.operation == Install
    requires f < |FieldsOf(ModeOf(t))| && k < |GroupsOf(t.candidate, FieldsOf(ModeOf(t))[f])|
    requires var field := FieldsOf(ModeOf(t))[f]; GroupsOf(v.row[ModeOf(t)], field) == GroupsOf(t.candidate, field)
    ensures var field := FieldsOf(ModeOf(t))[f];
            GroupDone(v, ModeOf(t), t.candidate, field, GroupsOf(t.candidate, field)[k], env)
  {
    var field := FieldsOf(ModeOf(t))[f];
    assert GroupDone(v, ModeOf(t), v.row[ModeOf(t)], field, GroupsOf(v.row[ModeOf(t)], field)[k], env);
  }

  /** Rows of one identity have the same dependency fields. */
  ghost predicate Uniform(rows: iset<Row>) {
    forall r, s :: r in rows && s in rows && SameIdentity(r, s) ==> r.fields == s.fields
  }

  predicate SameIdentity(r: Row, s: Row) {
    r.repository == s.repository && r.package == s.package && r.kind == s.kind && r.version == s.version
    && r.architecture == s.architecture
  }

  /** The groups of every row that was queued for installation are taken care of. */
  ghost predicate AllRowsClosed(v: View, env: Setting) {
    forall t, f, k :: t in v.owed && t.use.operation == Install && 0 <= f < |FieldsOf(ModeOf(t))|
                      && 0 <= k < |GroupsOf(t.candidate, FieldsOf(ModeOf(t))[f])| ==>
      GroupDone(v, ModeOf(t), t.candidate, FieldsOf(ModeOf(t))[f],
                GroupsOf(t.candidate, FieldsOf(ModeOf(t))[f])[k], env)
  }

  /** Where the rows that a phase is given are uniform, no dependency of any row is lost. */
  lemma UniformRowsClose(v: View, planned: Planned, env: Setting, given: Given)
    requires Closed(v, env) && (v, planned) in Accounts(env, given) && Uniform(given.rows)
    ensures AllRowsClosed(v, env)
  {
    forall t, f, k | t in v.owed && t.use.operation == Install && 0 <= f < |FieldsOf(ModeOf(t))|
                     && 0 <= k < |GroupsOf(t.candidate, FieldsOf(ModeOf(t))[f])|
      ensures GroupDone(v, ModeOf(t), t.candidate, FieldsOf(ModeOf(t))[f],
                        GroupsOf(t.candidate, FieldsOf(ModeOf(t))[f])[k], env)
    {
      assert Handled(v, t) && ModeOf(t) in v.visited;
      assert SameIdentity(v.row[ModeOf(t)].row, t.candidate.row);
      HandledRowCloses(v, env, t, f, k);
    }
  }

  /** Nothing is queued or newly selected but seeds and what groups of visited modes ask for. */
  ghost predicate NothingUnasked(v: View, env: Setting, given: Given) {
    && (forall t :: t in v.owed ==> t in given.seeds || Wanted(v, t, env))
    && (forall key :: key in v.selected ==> key in given.selected || Queued(v, key))
  }

  lemma AccountsMean(v: View, planned: Planned, env: Setting, given: Given)
    requires (v, planned) in States(env, given, {})
    ensures v in Coherent(env, {}) && (v, planned) in Accounts(env, given) && NothingUnasked(v, env, given)
  {
  }

  /** One phase, from its seeds: unless it raises, every seed is handled and the selection is
      closed under dependencies. */
  method ResolvePhase(env: Setting, seeds: seq<Task>, planned: Planned, installed: Installed,
                      selected: map<RowKey, Candidate>, budget: nat)
    returns (r: Result<()>, phase: Phase)
    requires Sound(env.ctx) && KeyedByName(planned) && Keyed(installed)
    ensures fresh(phase)
    ensures r.Ok? ==> Closed(phase.Now(), env) && forall i :: 0 <= i < |seeds| ==> Handled(phase.Now(), seeds[i])
    ensures var given := GivenOf(env, seeds, planned, installed, selected);
            r.Ok? ==>
              NothingUnasked(phase.Now(), env, given) && (Uniform(given.rows) ==> AllRowsClosed(phase.Now(), env))
  {
    phase := new Phase(env, seeds, planned, installed, selected, budget);
    SeedsAreCoherent(phase.Now(), env);
    SeedsAccount(phase.Now(), planned, env, seeds);
    r := phase.Run();
    if r.Ok? {
      AccountsMean(phase.Now(), phase.planned, env, phase.given);
      EmptyQueueCloses(phase.Now(), env);
      if Uniform(phase.given.rows) {
        UniformRowsClose(phase.Now(), phase.planned, env, phase.given);
      }
    }
  }
}
