/** The subordinate-ID database reader and allocator of gitbuild-policy.py. */
module SubordinateIds {
  import opened Outcomes
  import opened Texts

  const LIMIT := 0xFFFF_FFFF

  /** An account and the half-open range of IDs that it owns. */
  datatype Range = Range(account: string, start: nat, end: nat)

  type Entry = e: Range | 1 <= e.start < e.end <= LIMIT witness Range("", 1, 2)

  // ------------------------------------------------------------- the text format

  predicate IsDecimal(s: string) { s != "" && AllDigits(s) }

  /** What one line of the database stands for; comments and empty lines stand for nothing. */
  function ReadLine(line: string): Result<Option<Entry>> {
    if line == "" || line[0] == '#' then Ok(None) else
      var values := Pieces(line, ':');
      if |values| != 3 || !IsDecimal(values[1]) || !IsDecimal(values[2]) then
        Raised("malformed subordinate ID database")
      else
        var start, count := Value(values[1]), Value(values[2]);
        if start < 1 || count < 1 || start + count > LIMIT then Raised("invalid subordinate ID range")
        else Ok(Some(Range(values[0], start, start + count)))
  }

  /** The entries of the lines that stand for one, in order. */
  function EntriesOf(lines: seq<string>): seq<Entry>
    requires forall i :: 0 <= i < |lines| ==> ReadLine(lines[i]).Ok?
  {
    if lines == [] then [] else
      var front := EntriesOf(lines[..|lines| - 1]);
      var last := ReadLine(lines[|lines| - 1]).value;
      if last.None? then front else front + [last.value]
  }

  method Ranges(lines: seq<string>) returns (r: Result<seq<Entry>>)
    ensures r.Ok? <==> forall i :: 0 <= i < |lines| ==> ReadLine(lines[i]).Ok?
    ensures r.Ok? ==> r.value == EntriesOf(lines)
  {
    var result: seq<Entry> := [];
    for k := 0 to |lines|
      invariant forall i :: 0 <= i < k ==> ReadLine(lines[i]).Ok?
      invariant result == EntriesOf(lines[..k])
    {
      assert lines[..k + 1][..k] == lines[..k];
      var line := ReadLine(lines[k]);
      if line.Raised? {
        return Raised(line.reason);
      }
      if line.value.Some? {
        result := result + [line.value.value];
      }
    }
    assert lines[..|lines|] == lines;
    return Ok(result);
  }

  // ------------------------------------------------- writing and reading entries

  function WriteLine(e: Entry): string {
    e.account + ":" + Decimal(e.start) + ":" + Decimal(e.end - e.start)
  }

  lemma PiecesWritten(account: string, start: string, count: string)
    requires ':' !in account && ':' !in start && ':' !in count
    ensures Pieces(account + ":" + start + ":" + count, ':') == [account, start, count]
  {
    assert account + ":" + start + ":" + count == account + [':'] + (start + [':'] + count);
    PiecesFirst(account, start + [':'] + count, ':');
    PiecesFirst(start, count, ':');
    PiecesPlain(count, ':');
  }

  lemma ReadsAs(line: string, e: Entry, start: string, count: string)
    requires line != "" && line[0] != '#' && Pieces(line, ':') == [e.account, start, count]
    requires IsDecimal(start) && IsDecimal(count) && Value(start) == e.start && Value(count) == e.end - e.start
    ensures ReadLine(line) == Ok(Some(e))
  {
  }

  /** A written entry is read back as itself. */
  lemma WrittenIsRead(e: Entry)
    requires ':' !in e.account && (e.account == "" || e.account[0] != '#')
    ensures ReadLine(WriteLine(e)) == Ok(Some(e))
  {
    var start, count := Decimal(e.start), Decimal(e.end - e.start);
    DecimalReads(e.start);
    DecimalReads(e.end - e.start);
    PiecesWritten(e.account, start, count);
    assert WriteLine(e)[0] == if e.account == "" then ':' else e.account[0];
    ReadsAs(WriteLine(e), e, start, count);
  }

  // ---------------------------------------------------------------- the allocator

  /** The block of `count` IDs from `s` avoids every entry. */
  ghost predicate Free(existing: seq<Entry>, s: int, count: nat) {
    forall e :: e in existing ==> s + count <= e.start || e.end <= s
  }

  predicate StartsAscend(es: seq<Entry>) {
    forall i, j :: 0 <= i < j < |es| ==> es[i].start <= es[j].start
  }

  function Insert(e: Entry, es: seq<Entry>): seq<Entry> {
    if es == [] || e.start < es[0].start then [e] + es else [es[0]] + Insert(e, es[1..])
  }

  /** sorted(existing, key=start): stable, since an entry goes behind its equals. */
  function SortByStart(es: seq<Entry>): seq<Entry> {
    if es == [] then [] else Insert(es[|es| - 1], SortByStart(es[..|es| - 1]))
  }

  lemma {:induction false} InsertKeeps(e: Entry, es: seq<Entry>)
    ensures multiset(Insert(e, es)) == multiset(es) + multiset{e}
    ensures Insert(e, es) != []
    ensures Insert(e, es)[0].start == if es == [] || e.start < es[0].start then e.start else es[0].start
    ensures StartsAscend(es) ==> StartsAscend(Insert(e, es))
  {
    if es != [] && e.start >= es[0].start {
      InsertKeeps(e, es[1..]);
      assert es == [es[0]] + es[1..];
      if StartsAscend(es) {
        StartsAscendCons(es[0], Insert(e, es[1..]));
      }
    } else if es != [] {
      StartsAscendCons(e, es);
    }
  }

  lemma StartsAscendCons(e: Entry, es: seq<Entry>)
    requires es != [] && e.start <= es[0].start
    ensures StartsAscend(es) ==> StartsAscend([e] + es)
  {
  }

  lemma {:induction false} Sorts(es: seq<Entry>)
    ensures StartsAscend(SortByStart(es)) && multiset(SortByStart(es)) == multiset(es)
  {
    if es != [] {
      Sorts(es[..|es| - 1]);
      InsertKeeps(es[|es| - 1], SortByStart(es[..|es| - 1]));
      assert es == es[..|es| - 1] + [es[|es| - 1]];
    }
  }

  predicate Policy(low: int, high: int) {
    1 <= low <= high < LIMIT
  }

  /** The least free block within the policy, whatever the order and overlaps of the entries;
      it raises exactly when the policy is invalid or holds no free block. */
  method FreeRange(existing: seq<Entry>, low: int, high: int, count: nat) returns (r: Result<(int, int)>)
    requires count > 0
    ensures r.Ok? <==> Policy(low, high) && exists s :: low <= s && s + count - 1 <= high && Free(existing, s, count)
    ensures r.Ok? ==> var (first, last) := r.value;
                      && low <= first && last == first + count - 1 <= high && Free(existing, first, count)
                      && forall s :: low <= s < first ==> !Free(existing, s, count)
  {
    if !Policy(low, high) {
      return Raised("invalid subordinate ID allocation policy");
    }
    Sorts(existing);
    SortedFree(existing, count);
    var candidate := Sweep(SortByStart(existing), low, count);
    if candidate + count - 1 > high {
      return Raised("no collision-free subordinate ID range available");
    }
    return Ok((candidate, candidate + count - 1));
  }

  /** The loop over the sorted entries: the candidate moves up past each entry in its way. */
  method Sweep(sorted: seq<Entry>, low: int, count: nat) returns (candidate: int)
    requires StartsAscend(sorted)
    ensures low <= candidate && Free(sorted, candidate, count)
    ensures forall s :: low <= s < candidate ==> !Free(sorted, s, count)
  {
    candidate := low;
    var k := 0;
    while k < |sorted|
      invariant 0 <= k <= |sorted| && low <= candidate
      invariant forall i :: 0 <= i < k ==> sorted[i].end <= candidate
      invariant forall s :: low <= s < candidate ==> !Free(sorted, s, count)
    {
      if sorted[k].end > candidate {
        if sorted[k].start >= candidate + count {
          break;
        }
        assert sorted[k] in sorted;
        candidate := sorted[k].end;
      }
      k := k + 1;
    }
    StopsAtFree(sorted, k, candidate, count);
  }

  lemma SortedFree(existing: seq<Entry>, count: nat)
    ensures forall s :: Free(existing, s, count) <==> Free(SortByStart(existing), s, count)
  {
    var sorted := SortByStart(existing);
    Sorts(existing);
    forall e ensures e in existing <==> e in sorted {
      assert e in existing <==> e in multiset(existing);
      assert e in sorted <==> e in multiset(sorted);
    }
  }

  /** Where the loop stops, the entries passed end before and the others start behind. */
  lemma StopsAtFree(sorted: seq<Entry>, k: nat, candidate: int, count: nat)
    requires StartsAscend(sorted) && k <= |sorted| && forall i :: 0 <= i < k ==> sorted[i].end <= candidate
    requires k < |sorted| ==> sorted[k].start >= candidate + count
    ensures Free(sorted, candidate, count)
  {
    forall e | e in sorted ensures candidate + count <= e.start || e.end <= candidate {
      var i :| 0 <= i < |sorted| && sorted[i] == e;
      if i > k {
        assert sorted[k].start <= sorted[i].start;
      }
    }
  }

  ghost predicate Disjoint(es: seq<Entry>) {
    forall i, j :: 0 <= i < j < |es| ==> es[i].end <= es[j].start || es[j].end <= es[i].start
  }

  /** Recording an allocated block keeps all entries disjoint, and the next allocation avoids it. */
  lemma AllocationKeepsDisjoint(existing: seq<Entry>, e: Entry, s: int, count: nat)
    requires Free(existing, e.start, e.end - e.start)
    ensures Disjoint(existing) ==> Disjoint(existing + [e])
    ensures Free(existing + [e], s, count) <==> Free(existing, s, count) && (s + count <= e.start || e.end <= s)
  {
    var more := existing + [e];
    assert forall x :: x in more <==> x in existing || x == e;
    forall i, j | 0 <= i < j < |more| && Disjoint(existing)
      ensures more[i].end <= more[j].start || more[j].end <= more[i].start
    {
      if j == |existing| {
        assert existing[i] in existing;
      }
    }
  }
}
