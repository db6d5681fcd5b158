/** The Python wheel resolver: `python_requirements` and `python_wheel_graph` of
    tools/inventory_apt.py. Distributions, index rows and marker evaluation are given data. */
module WheelGraph {
  import opened Outcomes

  /** For which values of `extra` a marker holds; no marker always holds. */
  type Marker = Option<set<string>>

  /** One declaration of a distribution: its extra section, the markers, and the requirement. */
  datatype Requirement = Requirement(section: Option<string>, sectionMarker: Marker, marker: Marker,
                                     name: string, specifier: string, extras: set<string>, directUrl: bool)

  datatype Distribution = Distribution(name: string, version: string, offered: set<string>,
                                       requirements: seq<Requirement>, supportsPython: bool)

  datatype Wheel = Wheel(distribution: Distribution, yanked: bool)

  /** What is given: the root, the system copies, the ranked wheels of every project, which
      versions a specifier accepts, and which specifiers pin a version exactly. */
  datatype World = World(root: Distribution, system: seq<Distribution>, index: map<string, seq<Wheel>>,
                         accepts: set<(string, string)>, pins: set<string>) {
    /** The index lists wheels under their own project. */
    ghost predicate Valid() {
      forall n, i :: n in index && 0 <= i < |index[n]| ==> index[n][i].distribution.name == n
    }
  }

  const MAX_ENTRIES := 4096

  // -------------------------------------------------------------- requirements

  predicate MarkerHolds(m: Marker, extras: set<string>) {
    m.Some? ==> exists e :: e in extras + {""} && e in m.value
  }

  predicate Active(r: Requirement, extras: set<string>) {
    && (r.section.Some? ==> r.section.value in extras)
    && (r.sectionMarker.Some? ==> MarkerHolds(r.sectionMarker, extras))
    && MarkerHolds(r.marker, extras)
  }

  lemma ActiveIsMonotone(r: Requirement, a: set<string>, b: set<string>)
    requires a <= b && Active(r, a)
    ensures Active(r, b)
  {
  }

  /** `python_requirements`. */
  method ActiveRequirements(d: Distribution, extras: set<string>) returns (r: Result<seq<Requirement>>)
    ensures r.Ok? ==> forall q :: q in r.value <==> q in d.requirements && Active(q, extras)
  {
    var active: seq<Requirement> := [];
    for i := 0 to |d.requirements|
      invariant forall q :: q in active <==> q in d.requirements[..i] && Active(q, extras)
    {
      var q := d.requirements[i];
      assert d.requirements[..i + 1] == d.requirements[..i] + [q];
      if q.section.Some? && q.section.value !in extras {
        continue;
      }
      if q.directUrl {
        return Raised("Python direct-URL requirements need an explicit download adapter");
      }
      if Active(q, extras) {
        active := active + [q];
      }
    }
    assert d.requirements[..|d.requirements|] == d.requirements;
    return Ok(active);
  }

  // --------------------------------------------------------------- constraints

  predicate Accepts(w: World, specifier: string, version: string) {
    specifier == "" || (specifier, version) in w.accepts
  }

  /** The combined specifier set contains a version. */
  predicate Satisfies(w: World, version: string, specifiers: seq<string>) {
    forall i :: 0 <= i < |specifiers| ==> Accepts(w, specifiers[i], version)
  }

  /** `candidate`: the first ranked wheel that satisfies the constraints and supports the target. */
  method Candidate(w: World, name: string, specifiers: seq<string>) returns (found: Option<Distribution>)
    requires w.Valid()
    ensures found.Some? ==> found.value in Distributions(w) && found.value.name == name
                            && Satisfies(w, found.value.version, specifiers) && found.value.supportsPython
    ensures found.Some? ==> name in w.index && IsFirstEligible(w, w.index[name], specifiers, found.value)
    ensures found == None && name in w.index ==>
              forall i :: 0 <= i < |w.index[name]| ==> !Eligible(w, w.index[name][i], specifiers)
  {
    if name !in w.index {
      return None;
    }
    var wheels := w.index[name];
    for i := 0 to |wheels|
      invariant forall j :: 0 <= j < i ==> !Eligible(w, wheels[j], specifiers)
    {
      if Eligible(w, wheels[i], specifiers) {
        assert wheels[i] in w.index[name];
        return Some(wheels[i].distribution);
      }
    }
    return None;
  }

  /** No wheel that ranks before it is eligible. */
  ghost predicate IsFirstEligible(w: World, wheels: seq<Wheel>, specifiers: seq<string>, d: Distribution) {
    exists i :: && 0 <= i < |wheels| && wheels[i].distribution == d && Eligible(w, wheels[i], specifiers)
                && forall j :: 0 <= j < i ==> !Eligible(w, wheels[j], specifiers)
  }

  predicate Eligible(w: World, wheel: Wheel, specifiers: seq<string>) {
    && Satisfies(w, wheel.distribution.version, specifiers)
    && (wheel.yanked ==> exists i :: 0 <= i < |specifiers| && specifiers[i] in w.pins)
    && wheel.distribution.supportsPython
  }

  /** Every distribution there is. */
  function Distributions(w: World): set<Distribution> {
    {w.root} + (set d | d in w.system)
    + (set n, wheel | n in w.index && wheel in w.index[n] :: wheel.distribution)
  }

  /** The system copies of one name, in order. */
  function Installed(system: seq<Distribution>, name: string): (r: seq<Distribution>)
    ensures forall i :: 0 <= i < |r| ==> r[i] in system && r[i].name == name
  {
    if system == [] then []
    else if system[0].name == name then [system[0]] + Installed(system[1..], name)
    else Installed(system[1..], name)
  }

  // -------------------------------------------------------------------- state

  datatype Origin = System | PyPI

  datatype Choice = Choice(distribution: Distribution, origin: Origin, extras: set<string>)

  datatype Edge = Edge(parent: string, requirement: Requirement, version: string)

  datatype Problem =
    | RootConflict(requirement: Requirement)
    | NeedsBacktracking(requirement: Requirement)
    | SeveralSystemCopies(requirement: Requirement)
    | NoWheel(requirement: Requirement)

  type Visit = (string, string, set<string>)

  /** The variables of the search. */
  datatype Search = Search(
    chosen: map<string, Choice>,
    constraints: map<string, seq<string>>,
    edges: seq<Edge>,
    problems: seq<Problem>,
    omitted: seq<(Requirement, set<string>)>,
    visited: set<Visit>,
    rootExtras: set<string>,
    todo: seq<(Distribution, set<string>)>)

  predicate Known(w: World, s: Search, name: string) { name == w.root.name || name in s.chosen }

  function DistributionOf(w: World, s: Search, name: string): Distribution
    requires Known(w, s, name)
  {
    if name == w.root.name then w.root else s.chosen[name].distribution
  }

  /** The extras requested of a distribution so far. */
  function ExtrasOf(w: World, s: Search, name: string): set<string>
    requires Known(w, s, name)
  {
    if name == w.root.name then s.rootExtras else s.chosen[name].extras
  }

  // --------------------------------------------------------------- invariants

  ghost predicate ChoicesProper(w: World, s: Search) {
    && s.rootExtras <= w.root.offered
    && forall n :: n in s.chosen ==>
         && n != w.root.name && s.chosen[n].distribution.name == n
         && s.chosen[n].distribution in Distributions(w)
         && s.chosen[n].extras <= s.chosen[n].distribution.offered
         && n in s.constraints
  }

  /** A fitting system copy stays installed; the index is used only when there is none. */
  ghost predicate OriginProper(w: World, c: Choice, constraints: seq<string>) {
    var installed := Installed(w.system, c.distribution.name);
    match c.origin
    case System => installed == [c.distribution]
    case PyPI =>
      |installed| <= 1 && forall i :: 0 <= i < |installed| ==> !Satisfies(w, installed[i].version, constraints)
  }

  ghost predicate OriginsProper(w: World, s: Search) {
    forall n :: n in s.chosen && n in s.constraints ==> OriginProper(w, s.chosen[n], s.constraints[n])
  }

  ghost predicate EdgeProper(w: World, s: Search, e: Edge) {
    && Known(w, s, e.parent) && Known(w, s, e.requirement.name)
    && e.requirement in DistributionOf(w, s, e.parent).requirements
    && Active(e.requirement, ExtrasOf(w, s, e.parent))
    && e.version == DistributionOf(w, s, e.requirement.name).version
    && e.requirement.name in s.constraints && e.requirement.specifier in s.constraints[e.requirement.name]
    && e.requirement.extras * DistributionOf(w, s, e.requirement.name).offered <= ExtrasOf(w, s, e.requirement.name)
  }

  /** Edges come only from active requirements, and point to the chosen version. */
  ghost predicate EdgesProper(w: World, s: Search) { forall e :: e in s.edges ==> EdgeProper(w, s, e) }

  /** The requirement of this distribution has its edge, unless a problem was recorded. */
  ghost predicate Covered(s: Search, parent: string, r: Requirement) {
    s.problems != [] || exists e :: e in s.edges && e.parent == parent && e.requirement == r
  }

  ghost predicate VisitCovered(w: World, s: Search, v: Visit) {
    && Known(w, s, v.0) && v.1 == DistributionOf(w, s, v.0).version && v.2 <= ExtrasOf(w, s, v.0)
    && DistributionOf(w, s, v.0).supportsPython
    && forall r :: r in DistributionOf(w, s, v.0).requirements && Active(r, v.2) ==> Covered(s, v.0, r)
  }

  /** Every visit but the open one has all its edges. */
  ghost predicate VisitsCovered(w: World, s: Search, open: set<Visit>) {
    forall v :: v in s.visited - open ==> VisitCovered(w, s, v)
  }

  ghost predicate TaskProper(w: World, s: Search, t: (Distribution, set<string>)) {
    Known(w, s, t.0.name) && t.0 == DistributionOf(w, s, t.0.name) && t.1 <= ExtrasOf(w, s, t.0.name)
  }

  ghost predicate TasksProper(w: World, s: Search) { forall t :: t in s.todo ==> TaskProper(w, s, t) }

  /** The final extras of every known distribution but one have been, or will be, visited. */
  ghost predicate PendingExcept(w: World, s: Search, except: set<string>) {
    forall n :: Known(w, s, n) && n !in except ==>
      var d := DistributionOf(w, s, n);
      (n, d.version, ExtrasOf(w, s, n)) in s.visited || (d, ExtrasOf(w, s, n)) in s.todo
  }

  ghost predicate ConsistentExcept(w: World, s: Search, except: set<string>) {
    forall n :: n in s.constraints && n !in except ==>
      Known(w, s, n) && Satisfies(w, DistributionOf(w, s, n).version, s.constraints[n])
  }

  /** A recorded problem is real, and stays real as constraints are added. */
  ghost predicate ProblemProper(w: World, s: Search, p: Problem) {
    var n := p.requirement.name;
    n in s.constraints &&
    match p
    case RootConflict(_) => n == w.root.name && !Satisfies(w, w.root.version, s.constraints[n])
    case NeedsBacktracking(_) => n in s.chosen && !Satisfies(w, s.chosen[n].distribution.version, s.constraints[n])
    case SeveralSystemCopies(_) => |Installed(w.system, n)| > 1
    case NoWheel(_) =>
      n in w.index ==>
        forall i :: 0 <= i < |w.index[n]| && !w.index[n][i].yanked ==> !Eligible(w, w.index[n][i], s.constraints[n])
  }

  ghost predicate ProblemsProper(w: World, s: Search) { forall p :: p in s.problems ==> ProblemProper(w, s, p) }

  ghost predicate Requested(s: Search, name: string, extra: string) {
    exists e :: e in s.edges && e.requirement.name == name && extra in e.requirement.extras
  }

  /** The names that the edges reach from this one, each edge from what those before it reached. */
  function Reached(from: string, edges: seq<Edge>): set<string> {
    if edges == [] then {from} else
      var front, e := Reached(from, edges[..|edges| - 1]), edges[|edges| - 1];
      if e.parent in front then front + {e.requirement.name} else front
  }

  /** A path along these edges. */
  ghost predicate Leads(path: seq<Edge>, edges: seq<Edge>, from: string, to: string) {
    if path == [] then from == to else
      var e := path[|path| - 1];
      e in edges && e.requirement.name == to && Leads(path[..|path| - 1], edges, from, e.parent)
  }

  ghost predicate Reachable(edges: seq<Edge>, from: string, to: string) {
    exists path :: Leads(path, edges, from, to)
  }

  lemma {:induction false} MoreEdgesLead(path: seq<Edge>, edges: seq<Edge>, more: seq<Edge>, from: string, to: string)
    requires Leads(path, edges, from, to) && edges <= more
    ensures Leads(path, more, from, to)
  {
    if path != [] {
      var e := path[|path| - 1];
      assert e in more;
      MoreEdgesLead(path[..|path| - 1], edges, more, from, e.parent);
    }
  }

  /** What is reached is reachable. */
  lemma {:induction false} ReachedByPath(edges: seq<Edge>, from: string, to: string)
    requires to in Reached(from, edges)
    ensures Reachable(edges, from, to)
  {
    if edges == [] {
      assert Leads([], edges, from, to);
    } else {
      var front, e := edges[..|edges| - 1], edges[|edges| - 1];
      if to in Reached(from, front) {
        ReachedByPath(front, from, to);
        var path :| Leads(path, front, from, to);
        MoreEdgesLead(path, front, edges, from, to);
      } else {
        ReachedByPath(front, from, e.parent);
        var path :| Leads(path, front, from, e.parent);
        MoreEdgesLead(path, front, edges, from, e.parent);
        assert (path + [e])[..|path|] == path;
        assert Leads(path + [e], edges, from, to);
      }
    }
  }

  lemma {:induction false} ReachedGrows(from: string, edges: seq<Edge>, more: seq<Edge>)
    requires edges <= more
    ensures Reached(from, edges) <= Reached(from, more)
    decreases |more|
  {
    if edges != more {
      var front := more[..|more| - 1];
      assert edges <= front;
      ReachedGrows(from, edges, front);
    }
  }

  lemma RootIsReached(from: string, edges: seq<Edge>)
    ensures from in Reached(from, edges)
  {
    ReachedGrows(from, [], edges);
  }

  /** What is known is reached, where everything chosen is justified. */
  lemma KnownIsReached(w: World, s: Search, name: string)
    requires JustifiedExcept(w, s, {}) && Known(w, s, name)
    ensures name in Reached(w.root.name, s.edges)
  {
    RootIsReached(w.root.name, s.edges);
  }

  /** Nothing is chosen and no extra is enabled that no edge asked for. */
  ghost predicate JustifiedExcept(w: World, s: Search, except: set<string>) {
    && (forall n :: n in s.chosen && n !in except ==> n in Reached(w.root.name, s.edges))
    && (forall n, x :: Known(w, s, n) && x in ExtrasOf(w, s, n) ==> Requested(s, n, x))
  }

  /** The loop invariant, while the visits in `open` and the names in `except` are being worked on. */
  ghost predicate Invariant(w: World, s: Search, open: set<Visit>, except: set<string>) {
    && ChoicesProper(w, s) && OriginsProper(w, s)
    && (s.problems == [] ==> ConsistentExcept(w, s, except))
    && EdgesProper(w, s)
    && VisitsCovered(w, s, open)
    && TasksProper(w, s)
    && PendingExcept(w, s, except)
    && JustifiedExcept(w, s, except)
    && ProblemsProper(w, s)
  }

  /** What one step may do: nothing is forgotten, and no choice is revised. */
  ghost predicate Grows(w: World, s: Search, t: Search) {
    && t.visited == s.visited && s.edges <= t.edges && s.problems <= t.problems
    && s.rootExtras <= t.rootExtras
    && (forall n :: n in s.chosen ==> n in t.chosen && t.chosen[n].distribution == s.chosen[n].distribution
                                      && t.chosen[n].origin == s.chosen[n].origin
                                      && s.chosen[n].extras <= t.chosen[n].extras)
    && (forall n :: n in s.constraints ==> n in t.constraints && s.constraints[n] <= t.constraints[n])
  }

  lemma GrowsTransitively(w: World, s: Search, t: Search, u: Search)
    requires Grows(w, s, t) && Grows(w, t, u)
    ensures Grows(w, s, u)
  {
  }

  lemma CoverageGrows(w: World, s: Search, t: Search, parent: string, r: Requirement)
    requires Grows(w, s, t) && Covered(s, parent, r)
    ensures Covered(t, parent, r)
  {
    if s.problems == [] {
      var e :| e in s.edges && e.parent == parent && e.requirement == r;
      assert e in t.edges;
    }
  }

  lemma VisitsGrow(w: World, s: Search, t: Search, open: set<Visit>)
    requires Grows(w, s, t) && VisitsCovered(w, s, open)
    ensures VisitsCovered(w, t, open)
  {
    forall v | v in t.visited - open ensures VisitCovered(w, t, v) {
      assert VisitCovered(w, s, v);
      forall r | r in DistributionOf(w, t, v.0).requirements && Active(r, v.2) ensures Covered(t, v.0, r) {
        CoverageGrows(w, s, t, v.0, r);
      }
    }
  }

  lemma EdgeGrows(w: World, s: Search, t: Search, e: Edge)
    requires Grows(w, s, t) && EdgeProper(w, s, e)
    ensures EdgeProper(w, t, e)
  {
    ActiveIsMonotone(e.requirement, ExtrasOf(w, s, e.parent), ExtrasOf(w, t, e.parent));
  }

  lemma EdgesGrow(w: World, s: Search, t: Search)
    requires Grows(w, s, t) && t.edges == s.edges && EdgesProper(w, s)
    ensures EdgesProper(w, t)
  {
    forall e | e in t.edges ensures EdgeProper(w, t, e) {
      EdgeGrows(w, s, t, e);
    }
  }

  lemma ProblemsGrow(w: World, s: Search, t: Search)
    requires Grows(w, s, t) && ProblemsProper(w, s)
    ensures forall p :: p in s.problems ==> ProblemProper(w, t, p)
  {
    forall p | p in s.problems ensures ProblemProper(w, t, p) {
      assert ProblemProper(w, s, p);
      MoreConstraints(w, s.constraints[p.requirement.name], t.constraints[p.requirement.name]);
    }
  }

  lemma OriginsGrow(w: World, s: Search, t: Search)
    requires Grows(w, s, t) && OriginsProper(w, s) && ChoicesProper(w, s)
    ensures forall n :: n in s.chosen ==> OriginProper(w, t.chosen[n], t.constraints[n])
  {
    forall n | n in s.chosen ensures OriginProper(w, t.chosen[n], t.constraints[n]) {
      assert OriginProper(w, s.chosen[n], s.constraints[n]);
      MoreConstraints(w, s.constraints[n], t.constraints[n]);
    }
  }

  lemma MoreConstraints(w: World, a: seq<string>, b: seq<string>)
    requires a <= b
    ensures forall version :: Satisfies(w, version, b) ==> Satisfies(w, version, a)
  {
    assert forall i :: 0 <= i < |a| ==> a[i] == b[i];
  }

  lemma JustificationStays(w: World, s: Search, t: Search, except: set<string>)
    requires JustifiedExcept(w, s, except)
    requires t.edges == s.edges && t.chosen == s.chosen && t.rootExtras == s.rootExtras
    ensures JustifiedExcept(w, t, except)
  {
    forall n, x | Known(w, t, n) && x in ExtrasOf(w, t, n) ensures Requested(t, n, x) {
      assert Requested(s, n, x);
    }
  }

  // -------------------------------------------------------------------- steps

  function Recorded(s: Search, q: Requirement): Search {
    var old_ := if q.name in s.constraints then s.constraints[q.name] else [];
    s.(constraints := s.constraints[q.name := if q.specifier in old_ then old_ else old_ + [q.specifier]])
  }

  lemma RecordedKeeps(w: World, s: Search, open: set<Visit>, q: Requirement)
    requires Invariant(w, s, open, {})
    ensures Grows(w, s, Recorded(s, q)) && Invariant(w, Recorded(s, q), open, {q.name})
    ensures PendingExcept(w, Recorded(s, q), {}) && JustifiedExcept(w, Recorded(s, q), {})
    ensures q.name in Recorded(s, q).constraints && q.specifier in Recorded(s, q).constraints[q.name]
  {
    var t := Recorded(s, q);
    RecordedState(w, s, q);
    VisitsGrow(w, s, t, open);
    EdgesGrow(w, s, t);
    ProblemsGrow(w, s, t);
    RecordedTasks(w, s, q);
    JustificationStays(w, s, t, {});
  }

  lemma RecordedState(w: World, s: Search, q: Requirement)
    requires ChoicesProper(w, s) && OriginsProper(w, s)
    ensures Grows(w, s, Recorded(s, q))
    ensures var t := Recorded(s, q);
            && ChoicesProper(w, t) && OriginsProper(w, t)
            && (ConsistentExcept(w, s, {}) ==> ConsistentExcept(w, t, {q.name}))
  {
    OriginsGrow(w, s, Recorded(s, q));
  }

  lemma RecordedTasks(w: World, s: Search, q: Requirement)
    requires TasksProper(w, s) && PendingExcept(w, s, {})
    ensures TasksProper(w, Recorded(s, q)) && PendingExcept(w, Recorded(s, q), {})
  {
    var t := Recorded(s, q);
    forall task | task in t.todo ensures TaskProper(w, t, task) {
      assert TaskProper(w, s, task);
    }
  }

  function Failed(s: Search, p: Problem): Search { s.(problems := s.problems + [p]) }

  lemma FailedKeeps(w: World, s: Search, open: set<Visit>, except: set<string>, p: Problem)
    requires Invariant(w, s, open, except) && PendingExcept(w, s, {}) && JustifiedExcept(w, s, {})
             && ProblemProper(w, s, p)
    ensures Grows(w, s, Failed(s, p)) && Invariant(w, Failed(s, p), open, {})
  {
    var t := Failed(s, p);
    VisitsGrow(w, s, t, open);
    EdgesGrow(w, s, t);
    FailedProblems(w, s, p);
    JustificationStays(w, s, t, {});
    FailedTasks(w, s, p);
  }

  lemma FailedProblems(w: World, s: Search, p: Problem)
    requires ChoicesProper(w, s) && OriginsProper(w, s) && ProblemsProper(w, s) && ProblemProper(w, s, p)
    ensures var t := Failed(s, p); ChoicesProper(w, t) && OriginsProper(w, t) && ProblemsProper(w, t)
  {
    var t := Failed(s, p);
    OriginsGrow(w, s, t);
    forall q | q in t.problems ensures ProblemProper(w, t, q) {
      assert ProblemProper(w, s, q);
    }
  }

  lemma FailedTasks(w: World, s: Search, p: Problem)
    requires TasksProper(w, s) && PendingExcept(w, s, {})
    ensures TasksProper(w, Failed(s, p)) && PendingExcept(w, Failed(s, p), {})
  {
    var t := Failed(s, p);
    forall task | task in t.todo ensures TaskProper(w, t, task) {
      assert TaskProper(w, s, task);
    }
  }

  function Chose(s: Search, d: Distribution, origin: Origin): Search {
    s.(chosen := s.chosen[d.name := Choice(d, origin, {})])
  }

  lemma ChoseKeeps(w: World, s: Search, open: set<Visit>, d: Distribution, origin: Origin)
    requires Invariant(w, s, open, {d.name}) && !Known(w, s, d.name) && d.name in s.constraints
    requires d in Distributions(w) && OriginProper(w, Choice(d, origin, {}), s.constraints[d.name])
    ensures Grows(w, s, Chose(s, d, origin)) && Invariant(w, Chose(s, d, origin), open, {d.name})
  {
    var t := Chose(s, d, origin);
    VisitsGrow(w, s, t, open);
    EdgesGrow(w, s, t);
    ProblemsGrow(w, s, t);
    ChoseState(w, s, d, origin);
    ChoseTasks(w, s, d, origin);
    ChoseJustified(w, s, d, origin);
  }

  lemma ChoseState(w: World, s: Search, d: Distribution, origin: Origin)
    requires ChoicesProper(w, s) && OriginsProper(w, s) && !Known(w, s, d.name) && d.name in s.constraints
    requires d in Distributions(w) && OriginProper(w, Choice(d, origin, {}), s.constraints[d.name])
    ensures var t := Chose(s, d, origin);
            && ChoicesProper(w, t) && OriginsProper(w, t)
            && (ConsistentExcept(w, s, {d.name}) ==> ConsistentExcept(w, t, {d.name}))
  {
    OriginsGrow(w, s, Chose(s, d, origin));
  }

  lemma ChoseTasks(w: World, s: Search, d: Distribution, origin: Origin)
    requires TasksProper(w, s) && PendingExcept(w, s, {d.name}) && !Known(w, s, d.name)
    ensures TasksProper(w, Chose(s, d, origin)) && PendingExcept(w, Chose(s, d, origin), {d.name})
  {
    var t := Chose(s, d, origin);
    forall task | task in t.todo ensures TaskProper(w, t, task) {
      assert TaskProper(w, s, task);
    }
    forall n | Known(w, t, n) && n != d.name
      ensures (n, DistributionOf(w, t, n).version, ExtrasOf(w, t, n)) in t.visited
              || (DistributionOf(w, t, n), ExtrasOf(w, t, n)) in t.todo
    {
      assert Known(w, s, n);
    }
  }

  lemma ChoseJustified(w: World, s: Search, d: Distribution, origin: Origin)
    requires JustifiedExcept(w, s, {d.name}) && !Known(w, s, d.name)
    ensures JustifiedExcept(w, Chose(s, d, origin), {d.name})
  {
    var t := Chose(s, d, origin);
    forall n, x | Known(w, t, n) && x in ExtrasOf(w, t, n) ensures Requested(t, n, x) {
      assert Requested(s, n, x);
    }
  }

  /** Adds the offered extras, the edge and the task for a known distribution. */
  function Linked(w: World, s: Search, parent: string, q: Requirement): Search
    requires Known(w, s, q.name)
  {
    var d := DistributionOf(w, s, q.name);
    var extras := ExtrasOf(w, s, q.name) + q.extras * d.offered;
    var t := s.(edges := s.edges + [Edge(parent, q, d.version)], todo := s.todo + [(d, extras)]);
    if q.name == w.root.name then t.(rootExtras := extras)
    else t.(chosen := t.chosen[q.name := t.chosen[q.name].(extras := extras)],
            omitted := t.omitted + [(q, q.extras - d.offered)])
  }

  lemma LinkedKeeps(w: World, s: Search, open: set<Visit>, parent: string, q: Requirement)
    requires Invariant(w, s, open, {q.name}) && Known(w, s, q.name)
    requires q.name in s.constraints && q.specifier in s.constraints[q.name]
    requires Satisfies(w, DistributionOf(w, s, q.name).version, s.constraints[q.name])
    requires Known(w, s, parent) && q in DistributionOf(w, s, parent).requirements && Active(q, ExtrasOf(w, s, parent))
    requires parent in Reached(w.root.name, s.edges)
    ensures Grows(w, s, Linked(w, s, parent, q)) && Invariant(w, Linked(w, s, parent, q), open, {})
    ensures Covered(Linked(w, s, parent, q), parent, q)
  {
    LinkedGrows(w, s, parent, q);
    LinkedState(w, s, parent, q);
    ProblemsGrow(w, s, Linked(w, s, parent, q));
    VisitsGrow(w, s, Linked(w, s, parent, q), open);
    LinkedEdges(w, s, parent, q);
    LinkedPending(w, s, parent, q);
    LinkedJustified(w, s, parent, q);
  }

  lemma LinkedGrows(w: World, s: Search, parent: string, q: Requirement)
    requires ChoicesProper(w, s) && Known(w, s, q.name)
    ensures Grows(w, s, Linked(w, s, parent, q))
    ensures Covered(Linked(w, s, parent, q), parent, q)
  {
    assert Edge(parent, q, DistributionOf(w, s, q.name).version) in Linked(w, s, parent, q).edges;
  }

  lemma LinkedState(w: World, s: Search, parent: string, q: Requirement)
    requires ChoicesProper(w, s) && OriginsProper(w, s) && TasksProper(w, s) && Known(w, s, q.name)
    requires q.name in s.constraints && Satisfies(w, DistributionOf(w, s, q.name).version, s.constraints[q.name])
    ensures var t := Linked(w, s, parent, q);
            && ChoicesProper(w, t) && OriginsProper(w, t) && TasksProper(w, t)
            && (ConsistentExcept(w, s, {q.name}) ==> ConsistentExcept(w, t, {}))
  {
    var t := Linked(w, s, parent, q);
    LinkedGrows(w, s, parent, q);
    OriginsGrow(w, s, t);
    forall task | task in t.todo ensures TaskProper(w, t, task) {
      if task in s.todo {
        assert TaskProper(w, s, task);
      }
    }
    if ConsistentExcept(w, s, {q.name}) {
      forall n | n in t.constraints
        ensures Known(w, t, n) && Satisfies(w, DistributionOf(w, t, n).version, t.constraints[n])
      {
        assert n == q.name || n !in {q.name};
      }
    }
  }

  lemma LinkedJustified(w: World, s: Search, parent: string, q: Requirement)
    requires JustifiedExcept(w, s, {q.name}) && Known(w, s, q.name) && parent in Reached(w.root.name, s.edges)
    ensures JustifiedExcept(w, Linked(w, s, parent, q), {})
  {
    var t := Linked(w, s, parent, q);
    var edge := Edge(parent, q, DistributionOf(w, s, q.name).version);
    assert edge in t.edges;
    assert t.edges == s.edges + [edge] && t.edges[..|s.edges|] == s.edges;
    assert Reached(w.root.name, t.edges) == Reached(w.root.name, s.edges) + {q.name};
    forall n, x | Known(w, t, n) && x in ExtrasOf(w, t, n) ensures Requested(t, n, x) {
      if x in ExtrasOf(w, s, n) {
        var e :| e in s.edges && e.requirement.name == n && x in e.requirement.extras;
        assert e in t.edges;
      }
    }
  }

  lemma LinkedEdges(w: World, s: Search, parent: string, q: Requirement)
    requires EdgesProper(w, s) && Known(w, s, q.name)
    requires q.name in s.constraints && q.specifier in s.constraints[q.name]
    requires Known(w, s, parent) && q in DistributionOf(w, s, parent).requirements && Active(q, ExtrasOf(w, s, parent))
    ensures EdgesProper(w, Linked(w, s, parent, q))
  {
    var t := Linked(w, s, parent, q);
    ActiveIsMonotone(q, ExtrasOf(w, s, parent), ExtrasOf(w, t, parent));
    forall e | e in t.edges ensures EdgeProper(w, t, e) {
      if e != Edge(parent, q, DistributionOf(w, s, q.name).version) {
        EdgeGrows(w, s, t, e);
      }
    }
  }

  lemma LinkedPending(w: World, s: Search, parent: string, q: Requirement)
    requires PendingExcept(w, s, {q.name}) && Known(w, s, q.name)
    ensures PendingExcept(w, Linked(w, s, parent, q), {})
  {
    var t := Linked(w, s, parent, q);
    assert (DistributionOf(w, t, q.name), ExtrasOf(w, t, q.name)) in t.todo;
    forall n | Known(w, t, n) && n != q.name
      ensures (n, DistributionOf(w, t, n).version, ExtrasOf(w, t, n)) in t.visited
              || (DistributionOf(w, t, n), ExtrasOf(w, t, n)) in t.todo
    {
      assert Known(w, s, n);
    }
  }

  /** One requirement of a visited distribution: its constraint is recorded before anything else. */
  method Require(w: World, s: Search, open: set<Visit>, parent: Distribution, q: Requirement) returns (t: Search)
    requires w.Valid() && Invariant(w, s, open, {})
    requires Known(w, s, parent.name) && parent == DistributionOf(w, s, parent.name)
    requires q in parent.requirements && Active(q, ExtrasOf(w, s, parent.name))
    ensures Grows(w, s, t) && Invariant(w, t, open, {}) && Covered(t, parent.name, q)
  {
    RecordedKeeps(w, s, open, q);
    ActiveIsMonotone(q, ExtrasOf(w, s, parent.name), ExtrasOf(w, Recorded(s, q), parent.name));
    t := Resolve(w, Recorded(s, q), open, parent, q);
    GrowsTransitively(w, s, Recorded(s, q), t);
  }

  method Resolve(w: World, s: Search, open: set<Visit>, parent: Distribution, q: Requirement) returns (t: Search)
    requires w.Valid() && Invariant(w, s, open, {q.name}) && PendingExcept(w, s, {}) && JustifiedExcept(w, s, {})
    requires q.name in s.constraints && q.specifier in s.constraints[q.name]
    requires Known(w, s, parent.name) && parent == DistributionOf(w, s, parent.name)
    requires q in parent.requirements && Active(q, ExtrasOf(w, s, parent.name))
    ensures Grows(w, s, t) && Invariant(w, t, open, {}) && Covered(t, parent.name, q)
  {
    t := s;
    KnownIsReached(w, s, parent.name);
    var name, combined := q.name, t.constraints[q.name];
    if name == w.root.name {
      if !Satisfies(w, w.root.version, combined) {
        FailedKeeps(w, t, open, {name}, RootConflict(q));
        t := Failed(t, RootConflict(q));
      } else {
        LinkedKeeps(w, t, open, parent.name, q);
        t := Linked(w, t, parent.name, q);
      }
      return;
    }
    if name in t.chosen && !Satisfies(w, t.chosen[name].distribution.version, combined) {
      FailedKeeps(w, t, open, {name}, NeedsBacktracking(q));
      t := Failed(t, NeedsBacktracking(q));
      return;
    }
    if name !in t.chosen {
      var chosen;
      t, chosen := Choose(w, t, open, q);
      if !chosen {
        return;
      }
    }
    ActiveIsMonotone(q, ExtrasOf(w, s, parent.name), ExtrasOf(w, t, parent.name));
    LinkedKeeps(w, t, open, parent.name, q);
    GrowsTransitively(w, s, t, Linked(w, t, parent.name, q));
    t := Linked(w, t, parent.name, q);
  }

  /** The first choice for a name: a fitting system copy stays installed, else the index is asked. */
  method Choose(w: World, s: Search, open: set<Visit>, q: Requirement) returns (t: Search, ok: bool)
    requires w.Valid() && Invariant(w, s, open, {q.name}) && PendingExcept(w, s, {}) && JustifiedExcept(w, s, {})
    requires !Known(w, s, q.name) && q.name in s.constraints
    ensures Grows(w, s, t)
    ensures ok ==> Invariant(w, t, open, {q.name}) && t.constraints == s.constraints && q.name in t.chosen
    ensures ok ==> t.edges == s.edges
    ensures ok ==> Satisfies(w, t.chosen[q.name].distribution.version, t.constraints[q.name])
    ensures !ok ==> Invariant(w, t, open, {}) && t.problems != []
  {
    var name, combined := q.name, s.constraints[q.name];
    var installed := Installed(w.system, name);
    if |installed| > 1 {
      FailedKeeps(w, s, open, {name}, SeveralSystemCopies(q));
      return Failed(s, SeveralSystemCopies(q)), false;
    }
    if |installed| == 1 && Satisfies(w, installed[0].version, combined) {
      ChoseKeeps(w, s, open, installed[0], System);
      return Chose(s, installed[0], System), true;
    }
    var found := Candidate(w, name, combined);
    if found == None {
      FailedKeeps(w, s, open, {name}, NoWheel(q));
      return Failed(s, NoWheel(q)), false;
    }
    ChoseKeeps(w, s, open, found.value, PyPI);
    return Chose(s, found.value, PyPI), true;
  }

  // ------------------------------------------------------------------- worklist

  /** Every (name, version, extras) triple a visit can have. */
  ghost function Universe(w: World): set<Visit> {
    set d, extras | d in Distributions(w) && extras <= d.offered :: (d.name, d.version, extras)
  }

  function Start(w: World): Search { Search(map[], map[], [], [], [], {}, {}, [(w.root, {})]) }

  lemma StartHolds(w: World)
    ensures Invariant(w, Start(w), {}, {})
  {
  }

  /** Taking a task off the queue, with its visit recorded, leaves the visit open. */
  lemma TaskTaken(w: World, s: Search)
    requires Invariant(w, s, {}, {}) && s.todo != []
    ensures var (d, extras) := s.todo[0];
            var v := (d.name, d.version, extras);
            && TaskProper(w, s, s.todo[0]) && v in Universe(w)
            && Invariant(w, s.(todo := s.todo[1..], visited := s.visited + {v}), {v}, {})
            && (v in s.visited ==> Invariant(w, s.(todo := s.todo[1..]), {}, {}))
  {
    var (d, extras) := s.todo[0];
    var v := (d.name, d.version, extras);
    var t := s.(todo := s.todo[1..], visited := s.visited + {v});
    assert s.todo[0] in s.todo;
    assert forall task :: task in s.todo ==> task == s.todo[0] || task in t.todo;
    TaskLeaves(w, s, t, v);
    OneMoreOpen(w, t, v, s.visited);
    if v in s.visited {
      assert t == s.(todo := s.todo[1..]) && {v} - s.visited == {};
    }
  }

  lemma TaskLeaves(w: World, s: Search, t: Search, v: Visit)
    requires Invariant(w, s, {}, {})
    requires t == s.(todo := t.todo, visited := t.visited) && t.visited == s.visited + {v}
    requires forall task :: task in t.todo ==> task in s.todo
    requires forall task :: task in s.todo ==> task in t.todo || (task.0.name, task.0.version, task.1) == v
    ensures Invariant(w, t, {v} - s.visited, {})
  {
    VisitsStay(w, s, t);
    EdgesStay(w, s, t);
    JustificationStays(w, s, t, {});
    PendingStays(w, s, t, v);
    StateStays(w, s, t);
  }

  lemma StateStays(w: World, s: Search, t: Search)
    requires ChoicesProper(w, s) && OriginsProper(w, s) && ProblemsProper(w, s) && TasksProper(w, s)
    requires t == s.(todo := t.todo, visited := t.visited) && forall task :: task in t.todo ==> task in s.todo
    ensures ChoicesProper(w, t) && OriginsProper(w, t) && ProblemsProper(w, t) && TasksProper(w, t)
    ensures ConsistentExcept(w, s, {}) ==> ConsistentExcept(w, t, {})
  {
    assert forall p :: p in t.problems ==> ProblemProper(w, s, p);
    assert forall task :: task in t.todo ==> TaskProper(w, s, task);
  }

  lemma OneMoreOpen(w: World, s: Search, v: Visit, visited: set<Visit>)
    requires Invariant(w, s, {v} - visited, {})
    ensures Invariant(w, s, {v}, {})
  {
  }

  lemma VisitsStay(w: World, s: Search, t: Search)
    requires VisitsCovered(w, s, {}) && t == s.(todo := t.todo, visited := t.visited)
    ensures forall u :: u in t.visited && u in s.visited ==> VisitCovered(w, t, u)
  {
    forall u | u in t.visited && u in s.visited ensures VisitCovered(w, t, u) {
      assert VisitCovered(w, s, u);
      forall r | r in DistributionOf(w, t, u.0).requirements && Active(r, u.2) ensures Covered(t, u.0, r) {
        assert Covered(s, u.0, r);
      }
    }
  }

  lemma PendingStays(w: World, s: Search, t: Search, v: Visit)
    requires PendingExcept(w, s, {}) && t == s.(todo := t.todo, visited := t.visited) && t.visited == s.visited + {v}
    requires forall task :: task in s.todo ==> task in t.todo || (task.0.name, task.0.version, task.1) == v
    requires TasksProper(w, s) && ChoicesProper(w, s)
    ensures PendingExcept(w, t, {})
  {
    forall n | Known(w, t, n)
      ensures (n, DistributionOf(w, t, n).version, ExtrasOf(w, t, n)) in t.visited
              || (DistributionOf(w, t, n), ExtrasOf(w, t, n)) in t.todo
    {
      assert Known(w, s, n);
    }
  }

  lemma EdgesStay(w: World, s: Search, t: Search)
    requires EdgesProper(w, s) && t == s.(todo := t.todo, visited := t.visited)
    ensures EdgesProper(w, t)
  {
    forall e | e in t.edges ensures EdgeProper(w, t, e) {
      assert EdgeProper(w, s, e);
    }
  }

  /** All active requirements of one visit. */
  method Visited(w: World, s: Search, visit: Visit, d: Distribution, active: seq<Requirement>)
      returns (r: Result<Search>)
    requires w.Valid() && Invariant(w, s, {visit}, {}) && visit in s.visited
    requires Known(w, s, d.name) && d == DistributionOf(w, s, d.name) && d.supportsPython
    requires visit == (d.name, d.version, visit.2) && visit.2 <= ExtrasOf(w, s, d.name)
    requires forall q :: q in active <==> q in d.requirements && Active(q, visit.2)
    ensures r.Ok? ==> Invariant(w, r.value, {}, {}) && r.value.visited == s.visited
  {
    r := Follow(w, s, visit, d, active);
    if r.Ok? {
      VisitDone(w, s, r.value, visit, d, active);
    }
  }

  /** What the loop over the active requirements has reached after the first n of them. */
  ghost function Followed(w: World, s: Search, visit: Visit, name: string, active: seq<Requirement>,
      n: nat): iset<Search>
    requires n <= |active|
  {
    iset t | Grows(w, s, t) && Invariant(w, t, {visit}, {}) && forall k :: 0 <= k < n ==> Covered(t, name, active[k])
  }

  /** The loop over the active requirements. */
  method Follow(w: World, s: Search, visit: Visit, d: Distribution, active: seq<Requirement>)
      returns (r: Result<Search>)
    requires w.Valid() && Invariant(w, s, {visit}, {})
    requires Known(w, s, d.name) && d == DistributionOf(w, s, d.name) && visit.2 <= ExtrasOf(w, s, d.name)
    requires forall q :: q in active ==> q in d.requirements && Active(q, visit.2)
    ensures r.Ok? ==> r.value in Followed(w, s, visit, d.name, active, |active|)
  {
    var t := s;
    for k := 0 to |active|
      invariant t in Followed(w, s, visit, d.name, active, k)
    {
      if |t.edges| + |t.problems| + |t.omitted| >= 16384 || |active[k].extras| > 128 {
        return Raised("Python dependency edge or extra count exceeds its bounds");
      }
      t := FollowOne(w, s, visit, d, active, k, t);
    }
    return Ok(t);
  }

  method FollowOne(w: World, ghost s: Search, visit: Visit, d: Distribution, active: seq<Requirement>, k: nat,
      t: Search)
    returns (u: Search)
    requires w.Valid() && k < |active| && t in Followed(w, s, visit, d.name, active, k)
    requires Known(w, s, d.name) && d == DistributionOf(w, s, d.name) && visit.2 <= ExtrasOf(w, s, d.name)
    requires active[k] in d.requirements && Active(active[k], visit.2)
    ensures u in Followed(w, s, visit, d.name, active, k + 1)
  {
    FollowedMeans(w, s, visit, d, active, k, t);
    u := Require(w, t, {visit}, d, active[k]);
    FollowedFurther(w, s, visit, d.name, active, k, t, u);
  }

  /** A followed requirement is active in what has been reached. */
  lemma FollowedMeans(w: World, s: Search, visit: Visit, d: Distribution, active: seq<Requirement>, k: nat, t: Search)
    requires k < |active| && t in Followed(w, s, visit, d.name, active, k)
    requires Known(w, s, d.name) && d == DistributionOf(w, s, d.name) && visit.2 <= ExtrasOf(w, s, d.name)
    requires active[k] in d.requirements && Active(active[k], visit.2)
    ensures Invariant(w, t, {visit}, {}) && Known(w, t, d.name) && d == DistributionOf(w, t, d.name)
    ensures Active(active[k], ExtrasOf(w, t, d.name))
  {
    ActiveIsMonotone(active[k], visit.2, ExtrasOf(w, t, d.name));
  }

  lemma FollowedFurther(w: World, s: Search, visit: Visit, name: string, active: seq<Requirement>, k: nat, t: Search,
      u: Search)
    requires k < |active| && t in Followed(w, s, visit, name, active, k)
    requires Grows(w, t, u) && Invariant(w, u, {visit}, {}) && Covered(u, name, active[k])
    ensures u in Followed(w, s, visit, name, active, k + 1)
  {
    GrowsTransitively(w, s, t, u);
    forall j | 0 <= j < k ensures Covered(u, name, active[j]) {
      CoverageGrows(w, t, u, name, active[j]);
    }
  }

  lemma VisitDone(w: World, s: Search, t: Search, visit: Visit, d: Distribution, active: seq<Requirement>)
    requires visit == (d.name, d.version, visit.2) && Known(w, s, d.name) && d == DistributionOf(w, s, d.name)
    requires d.supportsPython && visit.2 <= ExtrasOf(w, s, d.name)
    requires forall q :: q in active <==> q in d.requirements && Active(q, visit.2)
    requires t in Followed(w, s, visit, d.name, active, |active|)
    ensures Invariant(w, t, {}, {}) && t.visited == s.visited
  {
    assert forall q :: q in active ==> Covered(t, d.name, q);
    assert VisitCovered(w, t, visit);
    forall v | v in t.visited - {} ensures VisitCovered(w, t, v) {
      assert v == visit || v in t.visited - {visit};
    }
  }

  /** What the verdict `resolved` means: a consistent and closed graph, with nothing unasked for. */
  ghost predicate Resolved(w: World, s: Search) {
    // Every constraint ever recorded for a name is satisfied by the version chosen for it.
    && (forall n :: n in s.constraints ==>
         Known(w, s, n) && Satisfies(w, DistributionOf(w, s, n).version, s.constraints[n]))
    // Every requirement active under the final extras has an edge, and every edge is such a
    // requirement, has its constraint on record and points to the chosen version.
    && (forall n, r :: Known(w, s, n) && r in DistributionOf(w, s, n).requirements ==>
          (Active(r, ExtrasOf(w, s, n)) <==> exists e :: e in s.edges && e.parent == n && e.requirement == r))
    && EdgesProper(w, s)
    // Edges lead from the root to everything chosen, and ask for every enabled extra; all of it
    // runs on the target.
    && (forall n :: n in s.chosen ==> Reachable(s.edges, w.root.name, n))
    && (forall n, x :: Known(w, s, n) && x in ExtrasOf(w, s, n) ==> Requested(s, n, x))
    && (forall n :: Known(w, s, n) ==> DistributionOf(w, s, n).supportsPython)
    && ChoicesProper(w, s) && OriginsProper(w, s)
  }

  /** An empty queue without problems is a resolved graph. */
  lemma EmptyQueueResolves(w: World, s: Search)
    requires Invariant(w, s, {}, {}) && s.todo == [] && s.problems == []
    ensures Resolved(w, s)
  {
    forall n | Known(w, s, n)
      ensures DistributionOf(w, s, n).supportsPython
      ensures forall r :: r in DistributionOf(w, s, n).requirements && Active(r, ExtrasOf(w, s, n)) ==> Covered(s, n, r)
    {
      var v := (n, DistributionOf(w, s, n).version, ExtrasOf(w, s, n));
      assert v in s.visited - {};
      assert VisitCovered(w, s, v);
    }
    forall n | n in s.chosen ensures Reachable(s.edges, w.root.name, n) {
      ReachedByPath(s.edges, w.root.name, n);
    }
    forall n, r | Known(w, s, n) && r in DistributionOf(w, s, n).requirements
      ensures Active(r, ExtrasOf(w, s, n)) <==> exists e :: e in s.edges && e.parent == n && e.requirement == r
    {
      if e :| e in s.edges && e.parent == n && e.requirement == r {
        assert EdgeProper(w, s, e);
      }
    }
  }

  /** `python_wheel_graph`. The status is `resolved` exactly when no problem is recorded. */
  method ResolveGraph(w: World) returns (r: Result<Search>)
    requires w.Valid()
    ensures r.Ok? && r.value.problems == [] ==> Resolved(w, r.value)
    ensures r.Ok? ==> ProblemsProper(w, r.value)
  {
    var s := Start(w);
    StartHolds(w);
    while s.todo != []
      invariant Invariant(w, s, {}, {})
      decreases Universe(w) - s.visited, |s.todo|
    {
      if |s.todo| + |s.chosen| > MAX_ENTRIES || |s.edges| > 16384 {
        return Raised("Python dependency traversal exceeds its package/edge bounds");
      }
      TaskTaken(w, s);
      var (parent, extras) := s.todo[0];
      var visit := (parent.name, parent.version, extras);
      if visit in s.visited {
        s := s.(todo := s.todo[1..]);
        continue;
      }
      if |s.visited| >= MAX_ENTRIES {
        return Raised("Python dependency traversal visit count exceeds its bounds");
      }
      ghost var before := s.visited;
      s := s.(todo := s.todo[1..], visited := s.visited + {visit});
      if !parent.supportsPython {
        return Raised("selected Python distribution does not support the target interpreter");
      }
      var active := ActiveRequirements(parent, extras);
      if active.Raised? {
        return Raised(active.reason);
      }
      var next := Visited(w, s, visit, parent, active.value);
      if next.Raised? {
        return next;
      }
      s := next.value;
      assert Universe(w) - s.visited < Universe(w) - before by {
        assert visit in Universe(w) - before && visit !in Universe(w) - s.visited;
      }
    }
    if s.problems == [] {
      EmptyQueueResolves(w, s);
    }
    return Ok(s);
  }
}
