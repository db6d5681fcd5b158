/** The candidate chooser of `resolve_catalog` in tools/inventory.py, with its pin priorities. */
module CatalogChoice {
  import opened Outcomes
  import opened Orders
  import DV = DebianVersion

  type Version = DV.Version

  // --------------------------------------------------------------------- catalog

  datatype Operator = Below | AtMost | Equal | AtLeast | Above

  /** A relationship as it follows a package name. */
  datatype Relation = Any | Versioned(operator: Operator, version: Version)

  predicate Satisfies(version: Version, r: Relation) {
    r.Any? ||
    var order := DV.Compare(version, r.version);
    match r.operator
    case Below => order < 0
    case AtMost => order <= 0
    case Equal => order == 0
    case AtLeast => order >= 0
    case Above => order > 0
  }

  datatype Alternative = Unsupported(text: string)
                       | Alternative(name: string, qualifier: Option<string>, relation: Relation)

  /** One comma-separated group of a dependency field. */
  datatype Group = Group(text: string, alternatives: seq<Alternative>)

  /** An index row; `component` is the place of its component in its repository, or -1, and
      `file` stands for its file name, size, checksum and source. */
  datatype Row = Row(package: string, kind: string, version: Version, architecture: string,
                     indexed: Option<string>, repository: string, component: int, indexUrl: string, url: string,
                     file: string, fields: map<string, seq<Group>>)

  datatype Identity = Identity(package: string, version: Version, architecture: string)

  function IdentityOf(r: Row): Identity {
    Identity(r.package, r.version, r.architecture)
  }

  /** A row as the query returns it, with the version under which it provides the name. */
  datatype Found = Found(row: Row, provided: Option<Version>)

  datatype Candidate = Candidate(row: Row, pin: int)

  datatype Repo = Repo(order: int, role: string, fromPrePkgsel: bool, temporary: bool, suite: string,
      classes: seq<string>)

  datatype Release = Release(suite: Option<string>, codename: Option<string>, notAutomatic: bool, butAutomatic: bool)

  /** A pin rule, in the order in which rules apply. */
  datatype Rule = Rule(priority: int, specific: bool, preferred: bool, matches: Row -> bool)

  /** Everything a choice reads that does not change during a phase. */
  datatype Context = Context(phase: string, enabled: set<string>, excluded: set<string>,
                             repos: map<string, Repo>, releases: map<string, Release>, rules: seq<Rule>,
                             catalog: (string, string, string) -> seq<Found>)

  datatype Query = Query(name: string, kind: string, architecture: string, relation: Relation,
                         suite: Option<string>, repository: Option<string>, target: Option<string>, downgrade: bool)

  /** Rows name known repositories, and a query returns rows of its kind. */
  ghost predicate Sound(ctx: Context) {
    && ctx.repos.Keys <= ctx.releases.Keys
    && forall name, kind, architecture, i :: 0 <= i < |ctx.catalog(name, kind, architecture)| ==>
         var row := ctx.catalog(name, kind, architecture)[i].row;
         row.repository in ctx.repos && row.kind == kind
  }

  // ---------------------------------------------------------------- eligible rows

  predicate PhaseAllows(phase: string, repo: Repo) {
    && (phase == "base_system" || phase == "installer_udeb" ==> repo.role == "base_mirror")
    && (phase == "base_upgrade" ==> !repo.fromPrePkgsel)
    && (phase == "first_boot" || phase == "installed_capability" ==> !repo.temporary)
  }

  predicate ClassAllows(enabled: set<string>, repo: Repo) {
    exists i :: 0 <= i < |repo.classes| && (repo.classes[i] == "" || repo.classes[i] in enabled)
  }

  predicate Eligible(ctx: Context, q: Query, f: Found) {
    f.row.repository in ctx.repos &&
    var repo := ctx.repos[f.row.repository];
    && (f.row.indexed.Some? ==> f.row.indexed.value == q.architecture)
    && (q.repository.Some? ==> f.row.repository == q.repository.value)
    && PhaseAllows(ctx.phase, repo) && ClassAllows(ctx.enabled, repo)
    && f.row.package !in ctx.excluded
    && (q.relation.Any? ||
        if f.row.package == q.name then Satisfies(f.row.version, q.relation)
        else f.provided.Some? && Satisfies(f.provided.value, q.relation))
  }

  predicate AllKnown(ctx: Context, rows: seq<Row>) {
    forall i :: 0 <= i < |rows| ==> rows[i].repository in ctx.repos && rows[i].repository in ctx.releases
  }

  function Kept(ctx: Context, q: Query, found: seq<Found>): seq<Row> {
    if found == [] then [] else
      var rows, f := Kept(ctx, q, found[..|found| - 1]), found[|found| - 1];
      if Eligible(ctx, q, f) then rows + [f.row] else rows
  }

  lemma {:induction false} KeptAreEligible(ctx: Context, q: Query, found: seq<Found>, row: Row)
    ensures row in Kept(ctx, q, found)
            <==> exists i :: 0 <= i < |found| && found[i].row == row && Eligible(ctx, q, found[i])
  {
    if found != [] {
      var n := |found| - 1;
      KeptAreEligible(ctx, q, found[..n], row);
      assert forall i :: 0 <= i < n ==> found[..n][i] == found[i];
    }
  }

  // ----------------------------------------------------------------- pin priority

  /** The priority of the first specific active rule that matches one of the rows. */
  function FirstSpecific(rules: seq<Rule>, rows: seq<Row>): Option<int> {
    if rules == [] then None
    else if rules[0].specific && Applies(rules[0], rows) then Some(rules[0].priority)
    else FirstSpecific(rules[1..], rows)
  }

  predicate Applies(rule: Rule, rows: seq<Row>) {
    rule.preferred && exists i :: 0 <= i < |rows| && rule.matches(rows[i])
  }

  /** It is the priority of the first specific rule that applies, and there is none otherwise. */
  lemma {:induction false} FirstSpecificMeans(rules: seq<Rule>, rows: seq<Row>)
    ensures FirstSpecific(rules, rows).None? ==>
              forall i :: 0 <= i < |rules| ==> !(rules[i].specific && Applies(rules[i], rows))
    ensures FirstSpecific(rules, rows).Some? ==>
              exists i :: && 0 <= i < |rules| && rules[i].specific && Applies(rules[i], rows)
                          && rules[i].priority == FirstSpecific(rules, rows).value
                          && forall j :: 0 <= j < i ==> !(rules[j].specific && Applies(rules[j], rows))
  {
    if rules != [] && !(rules[0].specific && Applies(rules[0], rows)) {
      FirstSpecificMeans(rules[1..], rows);
      assert forall i :: 1 <= i < |rules| ==> rules[1..][i - 1] == rules[i];
      if FirstSpecific(rules[1..], rows).Some? {
        var k :| && 0 <= k < |rules| - 1 && rules[1..][k].specific && Applies(rules[1..][k], rows)
                 && rules[1..][k].priority == FirstSpecific(rules[1..], rows).value
                 && forall j :: 0 <= j < k ==> !(rules[1..][j].specific && Applies(rules[1..][j], rows));
        assert rules[k + 1] == rules[1..][k];
        assert forall j :: 1 <= j < k + 1 ==> rules[j] == rules[1..][j - 1];
      }
    }
  }

  /** The priorities of the active general rules that match the row. */
  function Generals(rules: seq<Rule>, row: Row): seq<int> {
    if rules == [] then [] else
      var rule, front := rules[|rules| - 1], Generals(rules[..|rules| - 1], row);
      if !rule.specific && rule.preferred && rule.matches(row) then front + [rule.priority] else front
  }

  function Greatest(xs: seq<int>): (r: int)
    requires xs != []
    ensures r in xs && forall i :: 0 <= i < |xs| ==> xs[i] <= r
  {
    var n := |xs| - 1;
    if n == 0 then xs[0] else
      var r := Greatest(xs[..n]);
      assert forall i :: 0 <= i < n ==> xs[..n][i] == xs[i];
      if xs[n] > r then xs[n] else r
  }

  function DefaultPriority(r: Release): int {
    if !r.notAutomatic then 500 else if r.butAutomatic then 100 else 1
  }

  predicate InSuite(ctx: Context, row: Row, suite: string)
    requires row.repository in ctx.repos && row.repository in ctx.releases
  {
    var release := ctx.releases[row.repository];
    suite == ctx.repos[row.repository].suite || Some(suite) == release.suite || Some(suite) == release.codename
  }

  function PinOf(ctx: Context, row: Row, target: Option<string>): int
    requires row.repository in ctx.repos && row.repository in ctx.releases
  {
    var specific, generals := FirstSpecific(ctx.rules, [row]), Generals(ctx.rules, row);
    if specific.Some? then specific.value
    else if target.Some? && target.value != "" && InSuite(ctx, row, target.value) then 990
    else if generals != [] then Greatest(generals)
    else DefaultPriority(ctx.releases[row.repository])
  }

  function PinsOf(ctx: Context, rows: seq<Row>, target: Option<string>): seq<int>
    requires AllKnown(ctx, rows)
  {
    seq(|rows|, i requires 0 <= i < |rows| => PinOf(ctx, rows[i], target))
  }

  /** The priority of all copies of one version. */
  function PriorityOf(ctx: Context, q: Query, copies: seq<Row>): int
    requires copies != [] && AllKnown(ctx, copies)
  {
    var specific := FirstSpecific(ctx.rules, copies);
    if q.kind == "udeb" then 500
    else if specific.Some? then specific.value
    else Greatest(PinsOf(ctx, copies, q.target))
  }

  method PinPriority(ctx: Context, row: Row, target: Option<string>) returns (r: int)
    requires row.repository in ctx.repos && row.repository in ctx.releases
    ensures r == PinOf(ctx, row, target)
  {
    var general: seq<int> := [];
    for k := 0 to |ctx.rules|
      invariant general == Generals(ctx.rules[..k], row)
      invariant FirstSpecific(ctx.rules, [row]) == FirstSpecific(ctx.rules[k..], [row])
    {
      assert ctx.rules[..k + 1][..k] == ctx.rules[..k];
      var rule := ctx.rules[k];
      assert ctx.rules[k..][0] == rule && ctx.rules[k..][1..] == ctx.rules[k + 1..];
      assert [row][0] == row;
      if rule.preferred && rule.matches(row) {
        if rule.specific {
          return rule.priority;
        }
        general := general + [rule.priority];
      }
    }
    assert ctx.rules[..|ctx.rules|] == ctx.rules;
    if target.Some? && target.value != "" && InSuite(ctx, row, target.value) {
      return 990;
    }
    if general != [] {
      return Greatest(general);
    }
    r := DefaultPriority(ctx.releases[row.repository]);
  }

  method CopiesPriority(ctx: Context, q: Query, copies: seq<Row>) returns (priority: int)
    requires copies != [] && AllKnown(ctx, copies)
    ensures priority == PriorityOf(ctx, q, copies)
  {
    if q.kind == "udeb" {
      return 500;
    }
    var k := 0;
    while k < |ctx.rules|
      invariant 0 <= k <= |ctx.rules|
      invariant FirstSpecific(ctx.rules, copies) == FirstSpecific(ctx.rules[k..], copies)
    {
      var rule := ctx.rules[k];
      assert ctx.rules[k..][0] == rule && ctx.rules[k..][1..] == ctx.rules[k + 1..];
      if rule.specific && Applies(rule, copies) {
        return rule.priority;
      }
      k := k + 1;
    }
    var pins: seq<int> := [];
    for i := 0 to |copies|
      invariant pins == PinsOf(ctx, copies, q.target)[..i]
    {
      var pin := PinPriority(ctx, copies[i], q.target);
      pins := pins + [pin];
    }
    assert pins == PinsOf(ctx, copies, q.target);
    priority := Greatest(pins);
  }

  // ------------------------------------------------------------------ preferences

  function OrderOf(ctx: Context, repository: string): int {
    if repository in ctx.repos then ctx.repos[repository].order else 0
  }

  function ByVersion(): Comparison<Candidate> {
    (a: Candidate, b: Candidate) => DV.Compare(a.row.version, b.row.version)
  }

  /** Candidates by pin priority, version, repository order, real name and URL. */
  function ByCandidate(ctx: Context, name: string): Comparison<Candidate> {
    Or(ByNumber((a: Candidate) => a.pin),
    Or(ByVersion(),
    Or(Reversed(ByNumber((a: Candidate) => OrderOf(ctx, a.row.repository))),
    Or(ByNumber((a: Candidate) => if a.row.package == name then 1 else 0),
       Reversed(ByText((a: Candidate) => a.row.url))))))
  }

  /** One version's copies, best download first: by repository order, component and URLs. */
  function ByCopy(ctx: Context): Comparison<Row> {
    Reversed(
    Or(ByNumber((r: Row) => OrderOf(ctx, r.repository)),
    Or(ByNumber((r: Row) => r.component),
    Or(ByText((r: Row) => r.indexUrl),
       ByText((r: Row) => r.url)))))
  }

  lemma VersionsArePreordered()
    ensures TotalPreorder(ByVersion())
  {
    forall a: Candidate, b: Candidate, c: Candidate
      ensures DV.Compare(a.row.version, b.row.version) == -DV.Compare(b.row.version, a.row.version)
      ensures Ordered(DV.Compare(a.row.version, b.row.version), DV.Compare(b.row.version, c.row.version),
              DV.Compare(a.row.version, c.row.version))
    {
      VersionOrder(a.row.version, b.row.version, c.row.version);
    }
  }

  lemma VersionOrder(a: Version, b: Version, c: Version)
    ensures DV.Compare(a, b) == -DV.Compare(b, a)
    ensures Ordered(DV.Compare(a, b), DV.Compare(b, c), DV.Compare(a, c))
  {
    DV.CompareAntisymmetric(a, b);
    if DV.Compare(a, b) <= 0 && DV.Compare(b, c) <= 0 {
      DV.CompareTransitive(a, b, c);
    }
  }

  /** The order of the candidates is a total preorder: it rests on the version order and on text order. */
  lemma CandidatesArePreordered(ctx: Context, name: string)
    ensures TotalPreorder(ByCandidate(ctx, name))
  {
    var pin, order := ByNumber((a: Candidate) => a.pin), ByNumber((a: Candidate) => OrderOf(ctx, a.row.repository));
    var named, url := ByNumber((a: Candidate) => if a.row.package == name then 1 else 0),
        ByText((a: Candidate) => a.row.url);
    NumberIsPreorder((a: Candidate) => a.pin);
    NumberIsPreorder((a: Candidate) => OrderOf(ctx, a.row.repository));
    NumberIsPreorder((a: Candidate) => if a.row.package == name then 1 else 0);
    TextIsPreorder((a: Candidate) => a.row.url);
    VersionsArePreordered();
    ReversedIsPreorder(order);
    ReversedIsPreorder(url);
    OrIsPreorder(named, Reversed(url));
    OrIsPreorder(Reversed(order), Or(named, Reversed(url)));
    OrIsPreorder(ByVersion(), Or(Reversed(order), Or(named, Reversed(url))));
    OrIsPreorder(pin, Or(ByVersion(), Or(Reversed(order), Or(named, Reversed(url)))));
  }

  lemma CopiesArePreordered(ctx: Context)
    ensures TotalPreorder(ByCopy(ctx))
  {
    var order, component := ByNumber((r: Row) => OrderOf(ctx, r.repository)), ByNumber((r: Row) => r.component);
    var index, url := ByText((r: Row) => r.indexUrl), ByText((r: Row) => r.url);
    NumberIsPreorder((r: Row) => OrderOf(ctx, r.repository));
    NumberIsPreorder((r: Row) => r.component);
    TextIsPreorder((r: Row) => r.indexUrl);
    TextIsPreorder((r: Row) => r.url);
    OrIsPreorder(index, url);
    OrIsPreorder(component, Or(index, url));
    OrIsPreorder(order, Or(component, Or(index, url)));
    ReversedIsPreorder(Or(order, Or(component, Or(index, url))));
  }
}
