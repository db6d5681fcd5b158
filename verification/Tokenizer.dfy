/** The rendered-line tokenizer of `check_appearance_registry` in tools/post_change_check.py:
    the renderer, the literal pieces of a template, and the backtracking search `collect`. */
module Tokenizer {
  import opened Lists
  import opened Outcomes
  import opened Texts

  // ------------------------------------------------------------ decompositions

  /** The literal pieces around the tokens, the value each token is known to have,
      and the rendered line. */
  datatype Line = Line(pieces: seq<string>, known: seq<Option<string>>, rendered: string) {
    ghost predicate Valid() { |pieces| == |known| + 1 }
  }

  function Join(pieces: seq<string>, values: seq<string>): string
    requires |pieces| == |values| + 1
  {
    if values == [] then pieces[0] else pieces[0] + values[0] + Join(pieces[1..], values[1..])
  }

  predicate Agrees(known: Option<string>, value: string) { known.Some? ==> value == known.value }

  /** These values for the tokens from i on account for the rendered line from pos on. */
  ghost predicate Decomposes(l: Line, i: nat, pos: nat, values: seq<string>)
    requires l.Valid() && i <= |l.known| && pos <= |l.rendered|
  {
    && |values| == |l.known| - i
    && Join(l.pieces[i..], values) == l.rendered[pos..]
    && forall j :: 0 <= j < |values| ==> Agrees(l.known[i + j], values[j])
  }

  /** A full decomposition of the rendered line. */
  ghost predicate Decomposition(l: Line, values: seq<string>)
    requires l.Valid()
  {
    && |values| == |l.known|
    && Join(l.pieces, values) == l.rendered
    && forall j :: 0 <= j < |values| ==> Agrees(l.known[j], values[j])
  }

  // ------------------------------------------------------------------ the search

  predicate Within(ends: seq<nat>, low: int, high: int) { forall k :: 0 <= k < |ends| ==> low <= ends[k] <= high }

  predicate Ascending(ends: seq<nat>) { forall j, k :: 0 <= j < k < |ends| ==> ends[j] < ends[k] }

  /** Every position from `start` on where `part` occurs, in order. */
  function Occurrences(text: string, part: string, start: nat): (r: seq<nat>)
    requires start <= |text| + 1
    ensures forall p: nat :: p in r <==> start <= p && OccursAt(text, part, p)
    ensures Within(r, start, |text|) && Ascending(r)
    decreases |text| + 1 - start
  {
    if start > |text| then []
    else
      var rest := Occurrences(text, part, start + 1);
      if OccursAt(text, part, start) then [start] + rest else rest
  }

  function Prefixed(value: string, tails: seq<seq<string>>): seq<seq<string>> {
    seq(|tails|, k requires 0 <= k < |tails| => [value] + tails[k])
  }

  /** All ways to account for the rendered line from pos on, in the order of the search. */
  function Tails(l: Line, i: nat, pos: nat): seq<seq<string>>
    requires l.Valid() && i <= |l.known| && pos <= |l.rendered|
    decreases |l.known| - i, 1, 0
  {
    var start := pos + |l.pieces[i]|;
    if !OccursAt(l.rendered, l.pieces[i], pos) then []
    else if i == |l.known| then (if start == |l.rendered| then [[]] else [])
    else Branches(l, i, start, Occurrences(l.rendered, l.pieces[i + 1], start))
  }

  /** The candidates whose token i ends at one of these positions. */
  function Branches(l: Line, i: nat, start: nat, ends: seq<nat>): seq<seq<string>>
    requires l.Valid() && i < |l.known|
    requires Within(ends, start, |l.rendered|)
    decreases |l.known| - i, 0, |ends|
  {
    if ends == [] then [] else Branch(l, i, start, ends[0]) + Branches(l, i, start, ends[1..])
  }

  function Branch(l: Line, i: nat, start: nat, end: nat): seq<seq<string>>
    requires l.Valid() && i < |l.known| && start <= end <= |l.rendered|
    decreases |l.known| - i, 0, 0
  {
    var value := l.rendered[start..end];
    if Agrees(l.known[i], value) then Prefixed(value, Tails(l, i + 1, end)) else []
  }

  lemma {:induction false} BranchOf(l: Line, i: nat, start: nat, ends: seq<nat>, v: seq<string>) returns (end: nat)
    requires l.Valid() && i < |l.known| && Within(ends, start, |l.rendered|)
    requires v in Branches(l, i, start, ends)
    ensures start <= end <= |l.rendered| && v in Branch(l, i, start, end)
  {
    if v in Branch(l, i, start, ends[0]) {
      end := ends[0];
    } else {
      end := BranchOf(l, i, start, ends[1..], v);
    }
  }

  lemma {:induction false} InBranches(l: Line, i: nat, start: nat, ends: seq<nat>, end: nat, v: seq<string>)
    requires l.Valid() && i < |l.known| && Within(ends, start, |l.rendered|)
    requires end in ends && start <= end <= |l.rendered| && v in Branch(l, i, start, end)
    ensures v in Branches(l, i, start, ends)
  {
    if end != ends[0] {
      InBranches(l, i, start, ends[1..], end, v);
    }
  }

  /** Whatever the search finds is a decomposition. */
  lemma {:induction false} TailsSound(l: Line, i: nat, pos: nat, v: seq<string>)
    requires l.Valid() && i <= |l.known| && pos <= |l.rendered|
    requires v in Tails(l, i, pos)
    ensures Decomposes(l, i, pos, v)
    decreases |l.known| - i
  {
    if i == |l.known| {
      assert l.pieces[i..] == [l.pieces[i]];
    } else {
      var start := pos + |l.pieces[i]|;
      var end := BranchOf(l, i, start, Occurrences(l.rendered, l.pieces[i + 1], start), v);
      BranchSound(l, i, pos, end, v);
    }
  }

  /** The search finds every decomposition. */
  lemma {:induction false} TailsComplete(l: Line, i: nat, pos: nat, v: seq<string>)
    requires l.Valid() && i <= |l.known| && pos <= |l.rendered|
    requires Decomposes(l, i, pos, v)
    ensures v in Tails(l, i, pos)
    decreases |l.known| - i
  {
    StartsWithPiece(l, i, pos, v);
    if i == |l.known| {
      assert l.pieces[i..] == [l.pieces[i]];
    } else {
      var start := pos + |l.pieces[i]|;
      BranchComplete(l, i, pos, v);
      InBranches(l, i, start, Occurrences(l.rendered, l.pieces[i + 1], start), start + |v[0]|, v);
    }
  }

  lemma StartsWithPiece(l: Line, i: nat, pos: nat, v: seq<string>)
    requires l.Valid() && i <= |l.known| && pos <= |l.rendered|
    requires Decomposes(l, i, pos, v)
    ensures OccursAt(l.rendered, l.pieces[i], pos)
  {
    assert l.rendered[pos..][..|l.pieces[i]|] == l.pieces[i];
  }

  lemma {:induction false} BranchSound(l: Line, i: nat, pos: nat, end: nat, v: seq<string>)
    requires l.Valid() && i < |l.known| && OccursAt(l.rendered, l.pieces[i], pos)
    requires pos + |l.pieces[i]| <= end <= |l.rendered|
    requires v in Branch(l, i, pos + |l.pieces[i]|, end)
    ensures Decomposes(l, i, pos, v)
    decreases |l.known| - i, 0
  {
    var start := pos + |l.pieces[i]|;
    var value, tails := l.rendered[start..end], Tails(l, i + 1, end);
    var k :| 0 <= k < |tails| && v == [value] + tails[k];
    TailsSound(l, i + 1, end, tails[k]);
    OneValueMore(l, i, pos, end, tails[k]);
  }

  /** A piece, a value and a decomposition of the rest make a decomposition. */
  lemma OneValueMore(l: Line, i: nat, pos: nat, end: nat, tail: seq<string>)
    requires l.Valid() && i < |l.known| && OccursAt(l.rendered, l.pieces[i], pos)
    requires pos + |l.pieces[i]| <= end <= |l.rendered| && Decomposes(l, i + 1, end, tail)
    requires Agrees(l.known[i], l.rendered[pos + |l.pieces[i]|..end])
    ensures Decomposes(l, i, pos, [l.rendered[pos + |l.pieces[i]|..end]] + tail)
  {
    var value := l.rendered[pos + |l.pieces[i]|..end];
    CutTwice(l.rendered, l.pieces[i], pos, end);
    JoinCons(l.pieces[i], value, l.pieces[i + 1..], tail);
    assert l.pieces[i..] == [l.pieces[i]] + l.pieces[i + 1..];
    forall j | 0 <= j < 1 + |tail| ensures Agrees(l.known[i + j], ([value] + tail)[j]) {
      assert j > 0 ==> Agrees(l.known[i + 1 + (j - 1)], tail[j - 1]);
    }
  }

  lemma CutTwice(text: string, part: string, pos: nat, end: nat)
    requires OccursAt(text, part, pos) && pos + |part| <= end <= |text|
    ensures text[pos..] == part + text[pos + |part|..end] + text[end..]
  {
  }

  lemma JoinCons(piece: string, value: string, pieces: seq<string>, values: seq<string>)
    requires |pieces| == |values| + 1
    ensures Join([piece] + pieces, [value] + values) == piece + value + Join(pieces, values)
  {
    assert ([piece] + pieces)[1..] == pieces && ([value] + values)[1..] == values;
  }

  lemma {:induction false} BranchComplete(l: Line, i: nat, pos: nat, v: seq<string>)
    requires l.Valid() && i < |l.known| && OccursAt(l.rendered, l.pieces[i], pos)
    requires Decomposes(l, i, pos, v)
    ensures OccursAt(l.rendered, l.pieces[i + 1], pos + |l.pieces[i]| + |v[0]|)
    ensures v in Branch(l, i, pos + |l.pieces[i]|, pos + |l.pieces[i]| + |v[0]|)
    decreases |l.known| - i, 0
  {
    FirstValueEnds(l, i, pos, v);
    RestDecomposes(l, i, pos, v);
    var end := pos + |l.pieces[i]| + |v[0]|;
    TailsComplete(l, i + 1, end, v[1..]);
    var tails := Tails(l, i + 1, end);
    var k :| 0 <= k < |tails| && tails[k] == v[1..];
    assert Prefixed(v[0], tails)[k] == v;
    assert Agrees(l.known[i + 0], v[0]);
  }

  lemma RestDecomposes(l: Line, i: nat, pos: nat, v: seq<string>)
    requires l.Valid() && i < |l.known| && pos <= |l.rendered|
    requires Decomposes(l, i, pos, v)
    ensures pos + |l.pieces[i]| + |v[0]| <= |l.rendered|
    ensures Decomposes(l, i + 1, pos + |l.pieces[i]| + |v[0]|, v[1..])
  {
    FirstValueEnds(l, i, pos, v);
    var rest := v[1..];
    forall j | 0 <= j < |rest| ensures Agrees(l.known[i + 1 + j], rest[j]) {
      assert rest[j] == v[j + 1] && l.known[i + (j + 1)] == l.known[i + 1 + j];
    }
  }

  /** In a decomposition the first value ends where the next literal piece occurs. */
  lemma FirstValueEnds(l: Line, i: nat, pos: nat, v: seq<string>)
    requires l.Valid() && i < |l.known| && pos <= |l.rendered|
    requires Decomposes(l, i, pos, v)
    ensures OccursAt(l.rendered, l.pieces[i + 1], pos + |l.pieces[i]| + |v[0]|)
    ensures var start := pos + |l.pieces[i]|; v[0] == l.rendered[start..start + |v[0]|]
    ensures Join(l.pieces[i + 1..], v[1..]) == l.rendered[pos + |l.pieces[i]| + |v[0]|..]
  {
    var end := pos + |l.pieces[i]| + |v[0]|;
    var rest := Join(l.pieces[i..][1..], v[1..]);
    assert l.rendered[pos..] == l.pieces[i] + v[0] + rest;
    assert rest == l.rendered[pos..][|l.pieces[i]| + |v[0]|..] == l.rendered[end..];
    assert v[0] == l.rendered[pos..][|l.pieces[i]|..|l.pieces[i]| + |v[0]|] == l.rendered[pos + |l.pieces[i]|..end];
    assert l.pieces[i..][1..] == l.pieces[i + 1..];
    assert l.pieces[i..][1..][0] == l.pieces[i + 1];
    assert rest[..|l.pieces[i + 1]|] == l.pieces[i + 1];
    assert l.rendered[end..][..|l.pieces[i + 1]|] == l.rendered[end..end + |l.pieces[i + 1]|];
  }

  /** No decomposition is found twice. */
  lemma {:induction false} TailsDistinct(l: Line, i: nat, pos: nat)
    requires l.Valid() && i <= |l.known| && pos <= |l.rendered|
    ensures Distinct(Tails(l, i, pos))
    decreases |l.known| - i, 1, 0
  {
    if i < |l.known| && OccursAt(l.rendered, l.pieces[i], pos) {
      var start := pos + |l.pieces[i]|;
      BranchesDistinct(l, i, start, Occurrences(l.rendered, l.pieces[i + 1], start));
    }
  }

  lemma {:induction false} BranchesDistinct(l: Line, i: nat, start: nat, ends: seq<nat>)
    requires l.Valid() && i < |l.known|
    requires Within(ends, start, |l.rendered|)
    requires Ascending(ends)
    ensures Distinct(Branches(l, i, start, ends))
    ensures ends != [] ==> FirstLongerThan(Branches(l, i, start, ends), ends[0] - start - 1)
    decreases |l.known| - i, 0, |ends|
  {
    if ends != [] {
      TailsDistinct(l, i + 1, ends[0]);
      BranchesDistinct(l, i, start, ends[1..]);
      var a, b := Branch(l, i, start, ends[0]), Branches(l, i, start, ends[1..]);
      assert forall j :: 0 <= j < |a| ==> a[j][1..] == Tails(l, i + 1, ends[0])[j] && |a[j][0]| == ends[0] - start;
      assert Distinct(a);
      assert FirstLongerThan(b, ends[0] - start);
      DistinctHeads(a, b, ends[0] - start);
    }
  }

  lemma DistinctHeads(a: seq<seq<string>>, b: seq<seq<string>>, n: int)
    requires Distinct(a) && Distinct(b) && FirstLongerThan(b, n)
    requires forall j :: 0 <= j < |a| ==> a[j] != [] && |a[j][0]| == n
    ensures Distinct(a + b) && FirstLongerThan(a + b, n - 1)
  {
  }

  ghost predicate FirstLongerThan(s: seq<seq<string>>, n: int) {
    forall k :: 0 <= k < |s| ==> s[k] != [] && |s[k][0]| > n
  }

  // ---------------------------------------------------------------- the method

  /** The number of candidates after which `collect` stops looking. */
  const CAP := 4096

  function Capped(s: seq<seq<string>>): seq<seq<string>> { if |s| > CAP + 1 then s[..CAP + 1] else s }

  function Extended(extracted: seq<string>, tails: seq<seq<string>>): seq<seq<string>> {
    seq(|tails|, k requires 0 <= k < |tails| => extracted + tails[k])
  }

  lemma ExtendedPrefixed(extracted: seq<string>, value: string, tails: seq<seq<string>>)
    ensures Extended(extracted, Prefixed(value, tails)) == Extended(extracted + [value], tails)
  {
    forall k | 0 <= k < |tails|
      ensures Extended(extracted, Prefixed(value, tails))[k] == Extended(extracted + [value], tails)[k]
    {
      assert extracted + ([value] + tails[k]) == extracted + [value] + tails[k];
    }
  }

  /** Capping after one branch and again after the rest is capping once. */
  lemma OneBranchMore(found: seq<seq<string>>, extracted: seq<string>, here: seq<seq<string>>, rest: seq<seq<string>>)
    ensures Capped(found + Extended(extracted, here + rest))
            == Capped(Capped(found + Extended(extracted, here)) + Extended(extracted, rest))
  {
    var a, b := Extended(extracted, here), Extended(extracted, rest);
    assert Extended(extracted, here + rest) == a + b;
    assert found + (a + b) == found + a + b;
  }

  lemma BranchesSplit(l: Line, i: nat, start: nat, ends: seq<nat>, k: nat)
    requires l.Valid() && i < |l.known| && Within(ends, start, |l.rendered|) && k < |ends|
    ensures Branches(l, i, start, ends[k..]) == Branch(l, i, start, ends[k]) + Branches(l, i, start, ends[k + 1..])
  {
    assert ends[k..][1..] == ends[k + 1..];
  }

  /** The candidates in the end, with those found before and the ends from the k-th on to go. */
  ghost function Final(l: Line, i: nat, start: nat, ends: seq<nat>, k: nat, extracted: seq<string>,
      found: seq<seq<string>>)
    : seq<seq<string>>
    requires l.Valid() && i < |l.known| && Within(ends, start, |l.rendered|) && k <= |ends|
  {
    Capped(found + Extended(extracted, Branches(l, i, start, ends[k..])))
  }

  /** One round of the loop over the ends, which keeps the candidates in the end. */
  lemma NextBranch(l: Line, i: nat, start: nat, ends: seq<nat>, k: nat, extracted: seq<string>, found: seq<seq<string>>)
    requires l.Valid() && i < |l.known| && Within(ends, start, |l.rendered|) && k < |ends| && |found| <= CAP + 1
    ensures var value := l.rendered[start..ends[k]];
            var after := if Agrees(l.known[i], value)
                         then Capped(found + Extended(extracted + [value], Tails(l, i + 1, ends[k])))
                         else found;
            Final(l, i, start, ends, k, extracted, found) == Final(l, i, start, ends, k + 1, extracted, after)
  {
    var value, here := l.rendered[start..ends[k]], Branch(l, i, start, ends[k]);
    BranchesSplit(l, i, start, ends, k);
    OneBranchMore(found, extracted, here, Branches(l, i, start, ends[k + 1..]));
    if Agrees(l.known[i], value) {
      ExtendedPrefixed(extracted, value, Tails(l, i + 1, ends[k]));
    } else {
      assert found + Extended(extracted, here) == found;
    }
  }

  lemma FinalEnds(l: Line, i: nat, start: nat, ends: seq<nat>, extracted: seq<string>, found: seq<seq<string>>)
    requires l.Valid() && i < |l.known| && Within(ends, start, |l.rendered|) && |found| <= CAP + 1
    ensures Final(l, i, start, ends, 0, extracted, found)
            == Capped(found + Extended(extracted, Branches(l, i, start, ends)))
    ensures Final(l, i, start, ends, |ends|, extracted, found) == found
  {
    assert ends[0..] == ends && ends[|ends|..] == [];
    assert found + [] == found;
  }

  class Search {
    const line: Line
    var candidates: seq<seq<string>>

    constructor (line: Line)
      ensures this.line == line && candidates == []
    {
      this.line, candidates := line, [];
    }

    /** The probe loop: the positions where a token may end. */
    method Ends(delimiter: string, start: nat) returns (ends: seq<nat>)
      requires start <= |line.rendered|
      ensures ends == Occurrences(line.rendered, delimiter, start)
    {
      ends := [];
      var probe := start;
      ghost var goal := Occurrences(line.rendered, delimiter, start);
      ghost var rest := goal;
      while probe <= |line.rendered|
        invariant start <= probe <= |line.rendered| + 1
        invariant rest == Occurrences(line.rendered, delimiter, probe) && ends + rest == goal
      {
        var p := NextOccurrence(delimiter, probe);
        if p < 0 {
          return;
        }
        rest := Occurrences(line.rendered, delimiter, p + 1);
        Regroup(ends, p, rest);
        ends := ends + [p];
        probe := p + 1;
      }
    }

    /** One probe: an empty delimiter occurs right where it is sought. */
    method NextOccurrence(delimiter: string, probe: nat) returns (p: int)
      requires probe <= |line.rendered|
      ensures p < 0 ==> Occurrences(line.rendered, delimiter, probe) == []
      ensures p >= 0 ==> probe <= p <= |line.rendered|
      ensures p >= 0 ==>
                Occurrences(line.rendered, delimiter, probe) == [p] + Occurrences(line.rendered, delimiter, p + 1)
    {
      p := probe;
      if delimiter != "" {
        p := Find(line.rendered, delimiter, probe);
        if p < 0 {
          NoMore(line.rendered, delimiter, probe);
          return;
        }
      }
      SkipTo(line.rendered, delimiter, probe, p);
    }

    /** The recursive search from one token and position. */
    method Collect(index: nat, position: nat, extracted: seq<string>)
      requires line.Valid() && index <= |line.known| && position <= |line.rendered|
      requires |candidates| <= CAP + 1
      modifies this
      ensures candidates == Capped(old(candidates) + Extended(extracted, Tails(line, index, position)))
      decreases |line.known| - index, 1
    {
      if |candidates| > CAP {
        return;
      }
      var literal := line.pieces[index];
      if !OccursAt(line.rendered, literal, position) {
        return;
      }
      var start := position + |literal|;
      if index == |line.known| {
        if start == |line.rendered| {
          assert extracted + [] == extracted;
          assert Extended(extracted, [[]]) == [extracted];
          candidates := candidates + [extracted];
        }
        return;
      }
      var ends := Ends(line.pieces[index + 1], start);
      CollectEach(index, start, ends, extracted);
    }

    /** Its loop over the positions where the token may end. */
    method CollectEach(index: nat, start: nat, ends: seq<nat>, extracted: seq<string>)
      requires line.Valid() && index < |line.known| && Within(ends, start, |line.rendered|)
      requires |candidates| <= CAP + 1
      modifies this
      ensures candidates == Capped(old(candidates) + Extended(extracted, Branches(line, index, start, ends)))
      decreases |line.known| - index, 0
    {
      ghost var goal := Final(line, index, start, ends, 0, extracted, candidates);
      FinalEnds(line, index, start, ends, extracted, candidates);
      for k := 0 to |ends|
        invariant |candidates| <= CAP + 1 && goal == Final(line, index, start, ends, k, extracted, candidates)
      {
        var value := line.rendered[start..ends[k]];
        NextBranch(line, index, start, ends, k, extracted, candidates);
        if Agrees(line.known[index], value) {
          Collect(index + 1, ends[k], extracted + [value]);
        }
      }
      FinalEnds(line, index, start, ends, extracted, candidates);
    }

    /** The acceptance test: the search from the start finds exactly one candidate. */
    method UniquelyTokenized() returns (accepted: bool)
      requires line.Valid() && candidates == []
      modifies this
      ensures accepted <==> exists v :: Decomposition(line, v) && forall w :: Decomposition(line, w) ==> w == v
      ensures accepted ==> |candidates| == 1 && Decomposition(line, candidates[0])
    {
      Collect(0, 0, []);
      accepted := |candidates| == 1;
      FromTheStart(Tails(line, 0, 0));
      UniqueIffOne(line);
      OneFound(line);
    }
  }

  lemma FromTheStart(all: seq<seq<string>>)
    ensures [] + Extended([], all) == all
  {
    assert forall k :: 0 <= k < |all| ==> [] + all[k] == all[k];
  }

  lemma OneFound(l: Line)
    requires l.Valid()
    ensures |Tails(l, 0, 0)| == 1 ==> Decomposition(l, Tails(l, 0, 0)[0])
  {
    if |Tails(l, 0, 0)| == 1 {
      SearchFinds(l, Tails(l, 0, 0)[0]);
    }
  }

  lemma Regroup(ends: seq<nat>, p: nat, rest: seq<nat>)
    ensures ends + ([p] + rest) == ends + [p] + rest
  {
  }

  lemma {:induction false} NoMore(text: string, part: string, probe: nat)
    requires probe <= |text| + 1
    requires forall q :: probe <= q ==> !OccursAt(text, part, q)
    ensures Occurrences(text, part, probe) == []
    decreases |text| + 1 - probe
  {
    if probe <= |text| {
      NoMore(text, part, probe + 1);
    }
  }

  lemma {:induction false} SkipTo(text: string, part: string, probe: nat, p: nat)
    requires probe <= p && OccursAt(text, part, p)
    requires forall q :: probe <= q < p ==> !OccursAt(text, part, q)
    ensures Occurrences(text, part, probe) == [p] + Occurrences(text, part, p + 1)
    decreases p - probe
  {
    if probe < p {
      SkipTo(text, part, probe + 1, p);
    }
  }

  /** The search from the start finds a value list if and only if it is a decomposition. */
  lemma SearchFinds(l: Line, v: seq<string>)
    requires l.Valid()
    ensures v in Tails(l, 0, 0) <==> Decomposition(l, v)
  {
    assert l.pieces[0..] == l.pieces && l.rendered[0..] == l.rendered;
    if v in Tails(l, 0, 0) {
      TailsSound(l, 0, 0, v);
    }
    if Decomposition(l, v) {
      assert Decomposes(l, 0, 0, v);
      TailsComplete(l, 0, 0, v);
    }
  }

  lemma UniqueIffOne(l: Line)
    requires l.Valid()
    ensures |Tails(l, 0, 0)| == 1 <==> exists v :: Decomposition(l, v) && forall w :: Decomposition(l, w) ==> w == v
  {
    var all := Tails(l, 0, 0);
    TailsDistinct(l, 0, 0);
    forall v ensures v in all <==> Decomposition(l, v) {
      SearchFinds(l, v);
    }
    OneElement(all);
  }

  lemma OneElement<T(!new)>(all: seq<T>)
    requires Distinct(all)
    ensures |all| == 1 <==> exists v :: v in all && forall w :: w in all ==> w == v
  {
    if |all| == 1 {
      assert all[0] in all;
    }
    if |all| > 1 {
      assert all[0] in all && all[1] in all && all[0] != all[1];
    }
  }
}
