/** The member checks and the extraction loop of `extract` in android-platform-tools-extract.py. */
module ZipMembers {
  import opened Outcomes

  /** The parts of a normalized member name. */
  type Path = seq<string>

  /** `plain` stands for the checks on the raw name and the attributes that concern one member
      alone: name length and characters, no absolute or parent parts, its normal form, no
      encryption, and a file type that fits. */
  datatype Member = Member(path: Path, isDirectory: bool, size: nat, plain: bool)

  datatype Kind = Directory | Regular

  const TOP := "platform-tools"
  const MOST_MEMBERS := 100_000

  const REQUIRED: set<Path> := {
    [TOP, "NOTICE.txt"], [TOP, "adb"], [TOP, "fastboot"], [TOP, "lib64", "libc++.so"], [TOP, "source.properties"]
  }

  predicate Lawful(m: Member) {
    && m.plain && 0 < |m.path| <= 16 && m.path[0] == TOP
    && (m.isDirectory ==> m.size == 0)
  }

  // ---------------------------------------------------------- what is acceptable

  /** The nonempty prefixes of a path that are shorter than `n` parts. */
  function Above(p: Path, n: nat): set<Path>
    requires n <= |p| + 1
  {
    if n <= 1 then {} else Above(p, n - 1) + {p[..n - 1]}
  }

  lemma {:induction false} InAbove(p: Path, n: nat, q: Path)
    requires n <= |p| + 1
    ensures q in Above(p, n) <==> 0 < |q| < n && q <= p
  {
    if n > 1 {
      InAbove(p, n - 1, q);
      if q <= p && |q| == n - 1 {
        assert q == p[..n - 1];
      }
    }
  }

  function Ancestors(p: Path): set<Path> {
    Above(p, |p|)
  }

  function Paths(ms: seq<Member>): set<Path> {
    set m | m in ms :: m.path
  }

  function Files(ms: seq<Member>): set<Path> {
    set m | m in ms && !m.isDirectory :: m.path
  }

  function Parents(ms: seq<Member>): set<Path> {
    set m, q | m in ms && q in Ancestors(m.path) :: q
  }

  /** Everything that extraction has to create. */
  function Nodes(ms: seq<Member>): set<Path> {
    Paths(ms) + Parents(ms)
  }

  function Total(ms: seq<Member>): nat {
    if ms == [] then 0 else Total(ms[..|ms| - 1]) + ms[|ms| - 1].size
  }

  /** No file lies above another member. */
  ghost predicate NoFileAbove(ms: seq<Member>) {
    forall f, m :: f in ms && m in ms && !f.isDirectory ==> !(f.path < m.path)
  }

  /** What the loop over the members demands. */
  ghost predicate Consistent(ms: seq<Member>, maxBytes: int, maxMembers: int) {
    && 0 < maxMembers <= MOST_MEMBERS && 0 < maxBytes
    && (forall m :: m in ms ==> Lawful(m))
    && |Paths(ms)| == |ms| && NoFileAbove(ms)
    && |Nodes(ms)| <= maxMembers && Total(ms) <= maxBytes
  }

  ghost predicate Acceptable(ms: seq<Member>, maxBytes: int, maxMembers: int) {
    Consistent(ms, maxBytes, maxMembers) && REQUIRED <= Files(ms)
  }

  lemma NoFileAboveMeans(ms: seq<Member>)
    requires forall m :: m in ms ==> Lawful(m)
    ensures NoFileAbove(ms) <==> Files(ms) !! Parents(ms)
  {
    forall f, m | f in ms && m in ms ensures f.path in Ancestors(m.path) <==> f.path < m.path {
      InAbove(m.path, |m.path|, f.path);
    }
    if NoFileAbove(ms) {
      forall q | q in Files(ms) ensures q !in Parents(ms) {
      }
    } else {
      var f, m :| f in ms && m in ms && !f.isDirectory && f.path < m.path;
      assert f.path in Files(ms) && f.path in Parents(ms);
    }
  }

  // --------------------------------------------------------- one member at a time

  lemma OneMore(seen: seq<Member>, m: Member)
    ensures Paths(seen + [m]) == Paths(seen) + {m.path}
    ensures Files(seen + [m]) == Files(seen) + if m.isDirectory then {} else {m.path}
    ensures Parents(seen + [m]) == Parents(seen) + Ancestors(m.path)
    ensures Nodes(seen + [m]) == Nodes(seen) + {m.path} + Ancestors(m.path)
    ensures Total(seen + [m]) == Total(seen) + m.size
  {
    var all := seen + [m];
    assert all[..|seen|] == seen;
    assert forall x :: x in all <==> x in seen || x == m;
  }

  lemma {:induction false} AtMostAll(ms: seq<Member>)
    ensures |Paths(ms)| <= |ms|
  {
    if ms != [] {
      var seen, m := ms[..|ms| - 1], ms[|ms| - 1];
      assert ms == seen + [m];
      OneMore(seen, m);
      AtMostAll(seen);
    }
  }

  lemma SubsetSize<T>(a: set<T>, b: set<T>)
    requires a <= b
    ensures |a| <= |b|
  {
    assert b == a + (b - a);
    assert |b| == |a| + |b - a|;
  }

  lemma OneMorePath(seen: seq<Member>, m: Member)
    ensures |Paths(seen + [m])| == |seen + [m]| <==> |Paths(seen)| == |seen| && m.path !in Paths(seen)
  {
    OneMore(seen, m);
    AtMostAll(seen);
  }

  lemma OneMoreAbove(seen: seq<Member>, m: Member)
    requires Lawful(m) && forall x :: x in seen ==> Lawful(x)
    ensures NoFileAbove(seen + [m]) <==>
            && NoFileAbove(seen) && Ancestors(m.path) !! Files(seen)
            && (m.isDirectory || m.path !in Parents(seen))
  {
    OneMore(seen, m);
    NoFileAboveMeans(seen);
    NoFileAboveMeans(seen + [m]);
    InAbove(m.path, |m.path|, m.path);
    Apart(Files(seen), if m.isDirectory then {} else {m.path}, Parents(seen), Ancestors(m.path));
  }

  /** What one more member must satisfy for the list to stay consistent. */
  ghost predicate Joins(seen: seq<Member>, m: Member, maxBytes: int, maxMembers: int) {
    && Lawful(m) && m.path !in Paths(seen)
    && Ancestors(m.path) !! Files(seen) && (m.isDirectory || m.path !in Parents(seen))
    && |Nodes(seen + [m])| <= maxMembers && Total(seen + [m]) <= maxBytes
  }

  lemma Extends(seen: seq<Member>, m: Member, maxBytes: int, maxMembers: int)
    ensures Consistent(seen + [m], maxBytes, maxMembers) <==>
            Consistent(seen, maxBytes, maxMembers) && Joins(seen, m, maxBytes, maxMembers)
  {
    var all := seen + [m];
    assert Nodes(seen) <= Nodes(all) && Total(all) == Total(seen) + m.size by { OneMore(seen, m); }
    SubsetSize(Nodes(seen), Nodes(all));
    OneMorePath(seen, m);
    assert (forall x :: x in all ==> Lawful(x)) <==> Lawful(m) && forall x :: x in seen ==> Lawful(x) by {
      assert forall x :: x in all <==> x in seen || x == m;
    }
    if Lawful(m) && forall x :: x in seen ==> Lawful(x) {
      OneMoreAbove(seen, m);
    }
  }

  lemma Apart(a: set<Path>, b: set<Path>, c: set<Path>, d: set<Path>)
    ensures a + b !! c + d <==> a !! c && a !! d && b !! c && b !! d
  {
  }

  lemma {:induction false} Shorter(ms: seq<Member>, k: nat, maxBytes: int, maxMembers: int)
    requires k <= |ms|
    ensures Consistent(ms, maxBytes, maxMembers) ==> Consistent(ms[..k], maxBytes, maxMembers)
    decreases |ms|
  {
    if k == |ms| {
      assert ms[..k] == ms;
    } else {
      var seen, m := ms[..|ms| - 1], ms[|ms| - 1];
      assert ms == seen + [m] && seen[..k] == ms[..k];
      Extends(seen, m, maxBytes, maxMembers);
      Shorter(seen, k, maxBytes, maxMembers);
    }
  }

  // --------------------------------------------------------------- the check loop

  /** The node table the loop keeps. */
  function Table(ms: seq<Member>): map<Path, Kind> {
    map p | p in Nodes(ms) :: if p in Files(ms) then Regular else Directory
  }

  /** The loop over the parents of one member. */
  method AddParents(nodes: map<Path, Kind>, path: Path) returns (ok: bool, t: map<Path, Kind>)
    requires path != []
    ensures ok <==> forall q :: q in Ancestors(path) && q in nodes ==> nodes[q] == Directory
    ensures ok ==> t == WithDirectories(nodes, Ancestors(path))
  {
    t := nodes;
    for i := 1 to |path|
      invariant forall q :: q in Above(path, i) && q in nodes ==> nodes[q] == Directory
      invariant t == WithDirectories(nodes, Above(path, i))
    {
      var parent := path[..i];
      InAbove(path, i, parent);
      InAbove(path, |path|, parent);
      assert Above(path, i + 1) == Above(path, i) + {parent};
      if parent !in t {
        t := t[parent := Directory];
      }
      if t[parent] != Directory {
        return false, t;
      }
    }
    ok := true;
  }

  function WithDirectories(nodes: map<Path, Kind>, ps: set<Path>): map<Path, Kind> {
    map p | p in nodes.Keys + ps :: if p in nodes then nodes[p] else Directory
  }

  /** Entering one member and its parents into the node table. */
  method Enter(ghost seen: seq<Member>, m: Member, nodes: map<Path, Kind>) returns (r: Result<()>, t: map<Path, Kind>)
    requires Lawful(m) && m.path !in Paths(seen) && nodes == Table(seen)
    ensures r.Ok? <==> Ancestors(m.path) !! Files(seen) && (m.isDirectory || m.path !in Parents(seen))
    ensures r.Ok? ==> t == Table(seen + [m]) && |t| == |Nodes(seen + [m])|
  {
    ParentsInTable(seen, m);
    var parents;
    parents, t := AddParents(nodes, m.path);
    if !parents {
      return Raised("ZIP member conflicts with a parent file"), t;
    }
    var kind := if m.isDirectory then Directory else Regular;
    MemberInTable(seen, m);
    if m.path in t && t[m.path] != kind {
      return Raised("conflicting ZIP member types"), t;
    }
    t := t[m.path := kind];
    TableOneMore(seen, m);
    r := Ok(());
  }

  lemma ParentsInTable(seen: seq<Member>, m: Member)
    ensures (forall q :: q in Ancestors(m.path) && q in Table(seen) ==> Table(seen)[q] == Directory)
            <==> Ancestors(m.path) !! Files(seen)
  {
    assert Files(seen) <= Paths(seen);
  }

  lemma MemberInTable(seen: seq<Member>, m: Member)
    requires m.path !in Paths(seen)
    ensures var t := WithDirectories(Table(seen), Ancestors(m.path));
            m.path in t && t[m.path] != (if m.isDirectory then Directory else Regular)
            <==> !m.isDirectory && m.path in Parents(seen)
  {
    InAbove(m.path, |m.path|, m.path);
    assert Files(seen) <= Paths(seen);
  }

  lemma TableOneMore(seen: seq<Member>, m: Member)
    requires m.path !in Paths(seen) && Ancestors(m.path) !! Files(seen)
    requires m.isDirectory || m.path !in Parents(seen)
    ensures var t := WithDirectories(Table(seen), Ancestors(m.path))[
                       m.path := if m.isDirectory then Directory else Regular];
            t == Table(seen + [m]) && |t| == |Nodes(seen + [m])|
  {
    OneMore(seen, m);
    InAbove(m.path, |m.path|, m.path);
    var t := WithDirectories(Table(seen), Ancestors(m.path))[m.path := if m.isDirectory then Directory else Regular];
    assert t.Keys == Nodes(seen) + Ancestors(m.path) + {m.path} == Nodes(seen + [m]);
    forall p | p in t ensures t[p] == if p in Files(seen + [m]) then Regular else Directory {
      NewKind(seen, m, p);
    }
    SameTable(t, seen + [m]);
  }

  lemma NewKind(seen: seq<Member>, m: Member, p: Path)
    requires m.path !in Paths(seen) && Ancestors(m.path) !! Files(seen)
    requires m.path !in Ancestors(m.path) && Files(seen + [m]) == Files(seen) + if m.isDirectory then {} else {m.path}
    ensures var t := WithDirectories(Table(seen), Ancestors(m.path))[
                       m.path := if m.isDirectory then Directory else Regular];
            p in t ==> t[p] == if p in Files(seen + [m]) then Regular else Directory
  {
    assert Files(seen) <= Paths(seen);
  }

  lemma SameTable(t: map<Path, Kind>, ms: seq<Member>)
    requires t.Keys == Nodes(ms)
    requires forall p :: p in t ==> t[p] == if p in Files(ms) then Regular else Directory
    ensures t == Table(ms) && |t| == |Nodes(ms)|
  {
    assert |t| == |t.Keys|;
  }

  /** What the loop knows after the members seen. */
  datatype Checked = Checked(nodes: map<Path, Kind>, explicit: set<Path>, regular: set<Path>, total: nat)

  function After(seen: seq<Member>): Checked {
    Checked(Table(seen), Paths(seen), Files(seen), Total(seen))
  }

  lemma AfterOneMore(seen: seq<Member>, m: Member)
    ensures After(seen + [m]) ==
            Checked(Table(seen + [m]), Paths(seen) + {m.path},
                    if m.isDirectory then Files(seen) else Files(seen) + {m.path}, Total(seen) + m.size)
  {
    OneMore(seen, m);
    assert Files(seen) + {} == Files(seen);
  }

  /** One round of the loop: it goes on exactly when the list stays consistent. */
  method Check(ghost seen: seq<Member>, m: Member, c: Checked, maxBytes: int, maxMembers: int)
    returns (r: Result<()>, d: Checked)
    requires c == After(seen) && Consistent(seen, maxBytes, maxMembers)
    ensures r.Ok? <==> Joins(seen, m, maxBytes, maxMembers)
    ensures r.Ok? ==> d == After(seen + [m])
  {
    d := c;
    if !Lawful(m) || m.path in c.explicit {
      return Raised("unsafe or unsupported ZIP member"), d;
    }
    var nodes;
    r, nodes := Enter(seen, m, c.nodes);
    AfterOneMore(seen, m);
    if r.Raised? {
      return;
    }
    if |nodes| > maxMembers {
      return Raised("expanded ZIP node limit exceeded"), d;
    }
    if c.total + m.size > maxBytes {
      return Raised("ZIP expanded-byte limit exceeded"), d;
    }
    var regular := if m.isDirectory then c.regular else c.regular + {m.path};
    d := Checked(nodes, c.explicit + {m.path}, regular, c.total + m.size);
  }

  /** The loop accepts a member list exactly when it is acceptable. */
  method CheckMembers(ms: seq<Member>, maxBytes: int, maxMembers: int) returns (r: Result<()>)
    ensures r.Ok? <==> Acceptable(ms, maxBytes, maxMembers)
  {
    if !(0 < maxMembers <= MOST_MEMBERS) || maxBytes <= 0 {
      return Raised("invalid extraction limits");
    }
    var c := Checked(map[], {}, {}, 0);
    r := Ok(());
    for k := 0 to |ms|
      invariant r.Ok? && r.Ok? == Consistent(ms[..k], maxBytes, maxMembers)
      invariant c == After(ms[..k])
    {
      assert ms[..k + 1] == ms[..k] + [ms[k]];
      Shorter(ms, k + 1, maxBytes, maxMembers);
      Extends(ms[..k], ms[k], maxBytes, maxMembers);
      r, c := Check(ms[..k], ms[k], c, maxBytes, maxMembers);
      if r.Raised? {
        return;
      }
    }
    assert ms[..|ms|] == ms;
    if !(REQUIRED <= c.regular) {
      return Raised("archive is missing required Platform-Tools files");
    }
  }

  // -------------------------------------------------------------- order of members

  lemma {:induction false} TotalWithout(ms: seq<Member>, k: nat)
    requires k < |ms|
    ensures Total(ms) == Total(ms[..k] + ms[k + 1..]) + ms[k].size
    decreases |ms|
  {
    var front, last := ms[..|ms| - 1], ms[|ms| - 1];
    if k == |ms| - 1 {
      assert ms[..k] + ms[k + 1..] == front;
    } else {
      TotalWithout(front, k);
      var rest := ms[..k] + ms[k + 1..];
      assert ms[k + 1..] == front[k + 1..] + [last] && front[..k] == ms[..k];
      assert rest == (front[..k] + front[k + 1..]) + [last];
      assert rest[..|rest| - 1] == front[..k] + front[k + 1..];
    }
  }

  lemma WithoutOne(ms: seq<Member>, k: nat)
    requires k < |ms|
    ensures multiset(ms) == multiset(ms[..k] + ms[k + 1..]) + multiset{ms[k]}
  {
    assert ms == ms[..k] + [ms[k]] + ms[k + 1..];
  }

  lemma Cancel<T>(a: multiset<T>, b: multiset<T>, c: multiset<T>)
    requires a + c == b + c
    ensures a == b
  {
    assert a == (a + c) - c;
  }

  lemma {:induction false} SameTotal(a: seq<Member>, b: seq<Member>)
    requires multiset(a) == multiset(b)
    ensures Total(a) == Total(b)
    decreases |a|
  {
    assert |a| == |multiset(a)| == |multiset(b)| == |b|;
    if a != [] {
      var n := |a| - 1;
      assert a[n] in multiset(b);
      var k :| 0 <= k < |b| && b[k] == a[n];
      WithoutOne(a, n);
      WithoutOne(b, k);
      assert a[..n] + a[n + 1..] == a[..n];
      Cancel(multiset(a[..n]), multiset(b[..k] + b[k + 1..]), multiset{a[n]});
      SameTotal(a[..n], b[..k] + b[k + 1..]);
      TotalWithout(b, k);
    }
  }

  /** Whether the members are accepted does not depend on their order. */
  lemma OrderDoesNotMatter(a: seq<Member>, b: seq<Member>, maxBytes: int, maxMembers: int)
    requires multiset(a) == multiset(b)
    ensures Acceptable(a, maxBytes, maxMembers) <==> Acceptable(b, maxBytes, maxMembers)
  {
    SameTotal(a, b);
    assert |a| == |multiset(a)| == |b|;
    assert forall m :: m in a <==> m in multiset(a);
    assert forall m :: m in b <==> m in multiset(b);
    assert Paths(a) == Paths(b) && Files(a) == Files(b) && Parents(a) == Parents(b);
  }
}
