/** The writing half of `extract` in android-platform-tools-extract.py, after its member checks. */
module ZipExtraction {
  import opened Octets
  import opened Outcomes
  import opened ZipMembers

  /** What one read of a member yields before its end: at least one byte. */
  type Chunk = c: seq<Byte> | c != [] witness [0]

  /** A member's decompressed stream, as the reads deliver it, and its execute bits. */
  datatype Source = Source(chunks: seq<Chunk>, executable: bool)

  datatype Entry = Folder | File(data: seq<Byte>, executable: bool)

  type Tree = map<Path, Entry>

  datatype Ending = Done | Rejected | Conflict | Expanded | Truncated

  function Joined(chunks: seq<Chunk>): seq<Byte> {
    if chunks == [] then [] else Joined(chunks[..|chunks| - 1]) + chunks[|chunks| - 1]
  }

  lemma {:induction false} JoinedGrows(chunks: seq<Chunk>, j: nat)
    requires j <= |chunks|
    ensures |Joined(chunks[..j])| <= |Joined(chunks)|
    decreases |chunks|
  {
    if j == |chunks| {
      assert chunks[..j] == chunks;
    } else {
      assert chunks[..|chunks| - 1][..j] == chunks[..j];
      JoinedGrows(chunks[..|chunks| - 1], j);
    }
  }

  lemma JoinedOneMore(chunks: seq<Chunk>, j: nat)
    requires j < |chunks|
    ensures Joined(chunks[..j + 1]) == Joined(chunks[..j]) + chunks[j]
  {
    assert chunks[..j + 1][..j] == chunks[..j];
  }

  // ---------------------------------------------------------- the tree to be built

  function WithFolders(t: Tree, ps: set<Path>): Tree {
    map p | p in t.Keys + ps :: if p in t then t[p] else Folder
  }

  function FileOf(s: Source): Entry {
    File(Joined(s.chunks), s.executable)
  }

  function Placed(t: Tree, m: Member, s: Source): Tree {
    var above := WithFolders(t, Ancestors(m.path));
    if m.isDirectory then WithFolders(t, Above(m.path, |m.path| + 1)) else above[m.path := FileOf(s)]
  }

  /** The tree after these members, each created in turn. */
  function Built(ms: seq<Member>, sources: seq<Source>): Tree
    requires |ms| == |sources|
  {
    if ms == [] then map[] else
      var n := |ms| - 1;
      Placed(Built(ms[..n], sources[..n]), ms[n], sources[n])
  }

  /** How the chunk loop of one member ends. */
  function Verdict(m: Member, s: Source): Ending {
    if m.isDirectory || |Joined(s.chunks)| == m.size then Done
    else if |Joined(s.chunks)| > m.size then Expanded else Truncated
  }

  /** The first member whose stream has another size than declared decides the ending. */
  function FirstVerdict(ms: seq<Member>, sources: seq<Source>): (e: Ending)
    requires |ms| == |sources|
    ensures e == Done || e == Expanded || e == Truncated
    ensures e == Done <==> AsDeclared(ms, sources)
  {
    if ms == [] then Done else
      var n := |ms| - 1;
      var e := FirstVerdict(ms[..n], sources[..n]);
      if e != Done then e else Verdict(ms[n], sources[n])
  }

  /** The stream of every file has its declared size. */
  predicate AsDeclared(ms: seq<Member>, sources: seq<Source>)
    requires |ms| == |sources|
  {
    forall k :: 0 <= k < |ms| && !ms[k].isDirectory ==> |Joined(sources[k].chunks)| == ms[k].size
  }

  /** The finished tree, member by member: a folder or a file for each, folders above them,
      and nothing else. */
  ghost predicate IsTreeOf(t: Tree, ms: seq<Member>, sources: seq<Source>)
    requires |ms| == |sources|
  {
    && t.Keys == Nodes(ms)
    && (forall p :: p in t && p !in Files(ms) ==> t[p] == Folder)
    && (forall k :: 0 <= k < |ms| && !ms[k].isDirectory ==> ms[k].path in t && t[ms[k].path] == FileOf(sources[k]))
  }

  lemma AllAbove(p: Path)
    requires p != []
    ensures Above(p, |p| + 1) == Ancestors(p) + {p}
  {
    assert p[..|p|] == p;
  }

  lemma {:induction false} BuiltIsTree(ms: seq<Member>, sources: seq<Source>, maxBytes: int, maxMembers: int)
    requires |ms| == |sources| && Consistent(ms, maxBytes, maxMembers)
    ensures IsTreeOf(Built(ms, sources), ms, sources)
  {
    if ms != [] {
      var n := |ms| - 1;
      Shorter(ms, n, maxBytes, maxMembers);
      BuiltIsTree(ms[..n], sources[..n], maxBytes, maxMembers);
      LastIsPlaced(Built(ms[..n], sources[..n]), ms, sources, maxBytes, maxMembers);
    }
  }

  lemma LastIsPlaced(t: Tree, ms: seq<Member>, sources: seq<Source>, maxBytes: int, maxMembers: int)
    requires 0 < |ms| == |sources| && Consistent(ms, maxBytes, maxMembers)
    requires IsTreeOf(t, ms[..|ms| - 1], sources[..|ms| - 1])
    ensures IsTreeOf(Placed(t, ms[|ms| - 1], sources[|ms| - 1]), ms, sources)
  {
    var n := |ms| - 1;
    assert ms == ms[..n] + [ms[n]] && sources == sources[..n] + [sources[n]];
    Extends(ms[..n], ms[n], maxBytes, maxMembers);
    PlacedIsTree(t, ms[..n], sources[..n], ms[n], sources[n], ms, sources);
  }

  lemma PlacedIsTree(t: Tree, seen: seq<Member>, before: seq<Source>, m: Member, s: Source,
                     ms: seq<Member>, sources: seq<Source>)
    requires |seen| == |before| && IsTreeOf(t, seen, before)
    requires Lawful(m) && m.path !in Paths(seen)
    requires Ancestors(m.path) !! Files(seen) && (m.isDirectory || m.path !in Parents(seen))
    requires ms == seen + [m] && sources == before + [s]
    ensures IsTreeOf(Placed(t, m, s), ms, sources)
  {
    FilesPlaced(t, seen, before, m, s, ms, sources);
    NodesPlaced(t, seen, m, s);
    FoldersPlaced(t, seen, m, s);
  }

  lemma NodesPlaced(t: Tree, seen: seq<Member>, m: Member, s: Source)
    requires t.Keys == Nodes(seen) && m.path != []
    ensures Placed(t, m, s).Keys == Nodes(seen + [m])
  {
    OneMore(seen, m);
    AllAbove(m.path);
  }

  lemma FoldersPlaced(t: Tree, seen: seq<Member>, m: Member, s: Source)
    requires m.path != [] && forall p :: p in t && p !in Files(seen) ==> t[p] == Folder
    ensures var u := Placed(t, m, s); forall p :: p in u && p !in Files(seen + [m]) ==> u[p] == Folder
  {
    OneMore(seen, m);
  }

  lemma FilesPlaced(t: Tree, seen: seq<Member>, before: seq<Source>, m: Member, s: Source,
                    ms: seq<Member>, sources: seq<Source>)
    requires |seen| == |before| && IsTreeOf(t, seen, before) && m.path !in Paths(seen)
    requires ms == seen + [m] && sources == before + [s]
    ensures forall k :: 0 <= k < |ms| && !ms[k].isDirectory ==>
              ms[k].path in Placed(t, m, s) && Placed(t, m, s)[ms[k].path] == FileOf(sources[k])
  {
    forall k | 0 <= k < |ms| && !ms[k].isDirectory
      ensures ms[k].path in Placed(t, m, s) && Placed(t, m, s)[ms[k].path] == FileOf(sources[k])
    {
      if k < |seen| {
        EarlierFile(t, seen, before, m, s, k);
      }
    }
  }

  lemma EarlierFile(t: Tree, seen: seq<Member>, before: seq<Source>, m: Member, s: Source, k: nat)
    requires |seen| == |before| && IsTreeOf(t, seen, before) && k < |seen| && !seen[k].isDirectory
    requires m.path !in Paths(seen)
    ensures var u := Placed(t, m, s); seen[k].path in u && u[seen[k].path] == FileOf(before[k])
  {
    assert seen[k] in seen && seen[k].path in Paths(seen);
    assert t[seen[k].path] == FileOf(before[k]);
  }

  lemma {:induction false} AboveOfParent(p: Path, n: nat)
    requires n <= |p|
    ensures Above(p, n) == if n == 0 then {} else Above(p[..n - 1], n)
  {
    if n > 1 {
      forall q ensures q in Above(p, n) <==> q in Above(p[..n - 1], n) {
        InAbove(p, n, q);
        InAbove(p[..n - 1], n, q);
        if |q| < n && q <= p {
          assert q == p[..|q|] == p[..n - 1][..|q|];
        }
      }
    }
  }

  lemma SameAbove(p: Path)
    requires p != []
    ensures Above(p[..|p| - 1], |p|) == Ancestors(p) && p !in Ancestors(p)
    ensures |p| > 1 ==> p[..|p| - 1] in Ancestors(p)
  {
    AboveOfParent(p, |p|);
    InAbove(p, |p|, p);
    InAbove(p, |p|, p[..|p| - 1]);
  }

  /** Nothing is in the way of this member. */
  predicate Free(t: Tree, m: Member) {
    && (forall q :: q in Ancestors(m.path) && q in t ==> t[q] == Folder)
    && (if m.isDirectory then m.path in t ==> t[m.path] == Folder else m.path !in t)
  }

  /** Nothing in the tree of the earlier members is in the way of the next one. */
  lemma NoConflict(t: Tree, seen: seq<Member>, before: seq<Source>, m: Member)
    requires |seen| == |before| && IsTreeOf(t, seen, before) && Lawful(m) && m.path !in Paths(seen)
    requires Ancestors(m.path) !! Files(seen) && (m.isDirectory || m.path !in Parents(seen))
    ensures Free(t, m)
  {
    AllAbove(m.path);
    assert Files(seen) <= Paths(seen);
  }

  // ------------------------------------------------------------------ the output

  /** The output directory; `stored` counts the bytes written into files. */
  class Output {
    var tree: Tree
    ghost var stored: nat

    constructor ()
      ensures tree == map[] && stored == 0
    {
      tree := map[];
      stored := 0;
    }

    /** mkdir with parents, content with existing directories. */
    method MakeDirectories(path: Path) returns (ok: bool)
      modifies this`tree
      ensures ok <==> forall q :: q in Above(path, |path| + 1) && q in old(tree) ==> old(tree)[q] == Folder
      ensures ok ==> tree == WithFolders(old(tree), Above(path, |path| + 1))
    {
      for i := 1 to |path| + 1
        invariant forall q :: q in Above(path, i) && q in old(tree) ==> old(tree)[q] == Folder
        invariant tree == WithFolders(old(tree), Above(path, i))
      {
        InAbove(path, i, path[..i]);
        InAbove(path, |path| + 1, path[..i]);
        assert Above(path, i + 1) == Above(path, i) + {path[..i]};
        if path[..i] !in tree {
          tree := tree[path[..i] := Folder];
        }
        if tree[path[..i]] != Folder {
          return false;
        }
      }
      ok := true;
    }

    /** open with O_CREAT and O_EXCL: the name is new and its directory exists. */
    method Create(path: Path) returns (ok: bool)
      requires path != []
      modifies this`tree
      ensures ok <==> path !in old(tree)
                      && (|path| == 1 || (path[..|path| - 1] in old(tree) && old(tree)[path[..|path| - 1]] == Folder))
      ensures tree == if ok then old(tree)[path := File([], false)] else old(tree)
    {
      var parent := path[..|path| - 1];
      ok := path !in tree && (parent == [] || (parent in tree && tree[parent] == Folder));
      if ok {
        tree := tree[path := File([], false)];
      }
    }

    method Append(path: Path, chunk: Chunk)
      requires path in tree && tree[path].File?
      modifies this
      ensures tree == old(tree)[path := File(old(tree)[path].data + chunk, old(tree)[path].executable)]
      ensures stored == old(stored) + |chunk|
    {
      tree := tree[path := File(tree[path].data + chunk, tree[path].executable)];
      stored := stored + |chunk|;
    }

    /** The chunk loop of one file. The running total over all members plays no part in how it
        ends, because the declared sizes up to here already fit. */
    method Copy(m: Member, s: Source, written: nat, maxBytes: int) returns (e: Ending, total: nat)
      requires !m.isDirectory && m.path in tree && tree[m.path] == File([], false)
      requires written + m.size <= maxBytes
      modifies this
      ensures e == Verdict(m, s)
      ensures e == Done ==> tree == old(tree)[m.path := FileOf(s)] && total == written + m.size
      ensures e == Done ==> stored == old(stored) + m.size
      ensures stored <= old(stored) + m.size
    {
      var copied := 0;
      total := written;
      assert tree == tree[m.path := File([], false)];
      for j := 0 to |s.chunks|
        invariant copied == |Joined(s.chunks[..j])| <= m.size && total == written + copied
        invariant stored == old(stored) + copied
        invariant tree == old(tree)[m.path := File(Joined(s.chunks[..j]), false)]
      {
        var chunk := s.chunks[j];
        JoinedOneMore(s.chunks, j);
        JoinedGrows(s.chunks, j + 1);
        copied := copied + |chunk|;
        total := total + |chunk|;
        if copied > m.size || total > maxBytes {
          return Expanded, total;
        }
        Append(m.path, chunk);
      }
      assert s.chunks[..|s.chunks|] == s.chunks;
      if copied != m.size {
        return Truncated, total;
      }
      tree := tree[m.path := File(tree[m.path].data, s.executable)];
      e := Done;
    }

    /** Making the directories of a member, and its empty file. */
    method Prepare(m: Member) returns (ok: bool)
      requires m.path != [] && Free(tree, m)
      modifies this`tree
      ensures ok && tree == if m.isDirectory then WithFolders(old(tree), Above(m.path, |m.path| + 1))
                            else WithFolders(old(tree), Ancestors(m.path))[m.path := File([], false)]
    {
      SameAbove(m.path);
      AllAbove(m.path);
      ok := MakeDirectories(if m.isDirectory then m.path else m.path[..|m.path| - 1]);
      if ok && !m.isDirectory {
        ok := Create(m.path);
      }
    }

    /** One round of the extraction loop. */
    method Place(m: Member, s: Source, written: nat, maxBytes: int) returns (e: Ending, total: nat)
      requires m.path != [] && Free(tree, m) && (m.isDirectory ==> m.size == 0)
      requires written == stored && written + m.size <= maxBytes
      modifies this
      ensures e == Verdict(m, s) && stored <= maxBytes
      ensures e == Done ==> tree == Placed(old(tree), m, s) && total == stored == written + m.size
    {
      var ok := Prepare(m);
      if !ok {
        return Conflict, written;
      }
      if m.isDirectory {
        return Done, written;
      }
      ghost var prepared := tree;
      e, total := Copy(m, s, written, maxBytes);
      assert prepared[m.path := FileOf(s)] == WithFolders(old(tree), Ancestors(m.path))[m.path := FileOf(s)];
    }

    /** The extraction: for every list of members and every stream, an acceptable archive ends as
        its streams decide, never with a conflict in the output, and never with more bytes
        stored than allowed. */
    method Extract(ms: seq<Member>, sources: seq<Source>, maxBytes: int, maxMembers: int) returns (e: Ending)
      requires |ms| == |sources| && tree == map[] && stored == 0
      modifies this
      ensures e == if Acceptable(ms, maxBytes, maxMembers) then FirstVerdict(ms, sources) else Rejected
      ensures e == Rejected ==> tree == map[]
      ensures e == Done ==> IsTreeOf(tree, ms, sources)
      ensures stored == 0 || stored <= maxBytes
    {
      var checked := CheckMembers(ms, maxBytes, maxMembers);
      if checked.Raised? {
        return Rejected;
      }
      e := WriteMembers(ms, sources, maxBytes, maxMembers);
    }

    method WriteMembers(ms: seq<Member>, sources: seq<Source>, maxBytes: int, ghost maxMembers: int) returns (e: Ending)
      requires |ms| == |sources| && tree == map[] && stored == 0 && Consistent(ms, maxBytes, maxMembers)
      modifies this
      ensures e == FirstVerdict(ms, sources) && stored <= maxBytes
      ensures e == Done ==> IsTreeOf(tree, ms, sources)
    {
      var written := 0;
      for k := 0 to |ms|
        invariant tree == Built(ms[..k], sources[..k]) && written == stored == Total(ms[..k]) <= maxBytes
        invariant FirstVerdict(ms[..k], sources[..k]) == Done
      {
        Round(ms, sources, k, maxBytes, maxMembers);
        e, written := Place(ms[k], sources[k], written, maxBytes);
        if e != Done {
          VerdictStands(ms, sources, k + 1);
          return;
        }
      }
      assert ms[..|ms|] == ms && sources[..|ms|] == sources;
      BuiltIsTree(ms, sources, maxBytes, maxMembers);
      e := Done;
    }
  }

  /** What one round of the loop starts from and how the specifications move on with it. */
  lemma Round(ms: seq<Member>, sources: seq<Source>, k: nat, maxBytes: int, maxMembers: int)
    requires k < |ms| == |sources| && Consistent(ms, maxBytes, maxMembers)
    ensures ms[k].path != [] && (ms[k].isDirectory ==> ms[k].size == 0)
    ensures Free(Built(ms[..k], sources[..k]), ms[k])
    ensures Total(ms[..k]) + ms[k].size == Total(ms[..k + 1]) <= maxBytes
    ensures Built(ms[..k + 1], sources[..k + 1]) == Placed(Built(ms[..k], sources[..k]), ms[k], sources[k])
    ensures FirstVerdict(ms[..k], sources[..k]) == Done ==>
              FirstVerdict(ms[..k + 1], sources[..k + 1]) == Verdict(ms[k], sources[k])
  {
    assert ms[..k + 1][..k] == ms[..k] && sources[..k + 1][..k] == sources[..k];
    Shorter(ms, k + 1, maxBytes, maxMembers);
    assert Total(ms[..k + 1]) <= maxBytes;
    NextIsFree(ms, sources, k, maxBytes, maxMembers);
  }

  lemma NextIsFree(ms: seq<Member>, sources: seq<Source>, k: nat, maxBytes: int, maxMembers: int)
    requires k < |ms| == |sources| && Consistent(ms[..k + 1], maxBytes, maxMembers)
    ensures Lawful(ms[k]) && Free(Built(ms[..k], sources[..k]), ms[k])
  {
    assert ms[..k + 1] == ms[..k] + [ms[k]];
    Extends(ms[..k], ms[k], maxBytes, maxMembers);
    BuiltIsTree(ms[..k], sources[..k], maxBytes, maxMembers);
    NoConflict(Built(ms[..k], sources[..k]), ms[..k], sources[..k], ms[k]);
  }

  lemma {:induction false} VerdictStands(ms: seq<Member>, sources: seq<Source>, k: nat)
    requires k <= |ms| == |sources| && FirstVerdict(ms[..k], sources[..k]) != Done
    ensures FirstVerdict(ms, sources) == FirstVerdict(ms[..k], sources[..k])
    decreases |ms|
  {
    if k == |ms| {
      assert ms[..k] == ms && sources[..k] == sources;
    } else {
      var n := |ms| - 1;
      assert ms[..n][..k] == ms[..k] && sources[..n][..k] == sources[..k];
      VerdictStands(ms[..n], sources[..n], k);
    }
  }
}
