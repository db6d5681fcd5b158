/** Rendering one template line and splitting it at its tokens, as done for every mapping
    in `check_appearance_registry` of tools/post_change_check.py. */
module TemplateLine {
  import opened Lists
  import opened Outcomes
  import opened Texts
  import opened Tokenizer

  // --------------------------------------------------------- the token pattern

  predicate NameCharacter(c: char) { 'A' <= c <= 'Z' || '0' <= c <= '9' || c == '_' }

  predicate StartsWith(s: string, prefix: string) { prefix <= s }

  /** A full match of `__(?:THEME|INSTALLER)_[A-Z0-9_]+__`. */
  predicate IsToken(t: string) { IsTokenAfter(t, "__THEME_") || IsTokenAfter(t, "__INSTALLER_") }

  predicate IsTokenAfter(t: string, prefix: string) {
    && |t| >= |prefix| + 3 && StartsWith(t, prefix)
    && t[|t| - 2..] == "__"
    && forall i :: |prefix| <= i < |t| - 2 ==> NameCharacter(t[i])
  }

  /** The greedy pattern takes the longest match that starts at p. */
  function MatchAt(s: string, p: nat, limit: nat): (e: Option<nat>)
    requires p <= limit <= |s|
    ensures e.Some? ==> p < e.value <= limit && IsToken(s[p..e.value])
    decreases limit
  {
    if IsToken(s[p..limit]) then Some(limit)
    else if limit == p then None
    else MatchAt(s, p, limit - 1)
  }

  datatype Span = Span(start: nat, end: nat)

  /** The leftmost match from a position on. */
  function NextMatch(s: string, from: nat): (m: Option<Span>)
    requires from <= |s|
    ensures m.Some? ==> from <= m.value.start < m.value.end <= |s| && IsToken(Text(s, m.value))
    decreases |s| - from
  {
    if from == |s| then None
    else
      var e := MatchAt(s, from, |s|);
      if e.Some? then Some(Span(from, e.value)) else NextMatch(s, from + 1)
  }

  /** The spans of `finditer`: each search resumes at the end of the last match. */
  function Spans(s: string, from: nat): (r: seq<Span>)
    requires from <= |s|
    ensures InOrder(s, r, from) && AreTokens(s, r)
    decreases |s| - from
  {
    match NextMatch(s, from)
    case None => []
    case Some(span) => [span] + Spans(s, span.end)
  }

  predicate InOrder(s: string, spans: seq<Span>, cursor: nat) {
    && cursor <= |s|
    && (forall k :: 0 <= k < |spans| ==> cursor <= spans[k].start <= spans[k].end <= |s|)
    && (forall j, k :: 0 <= j < k < |spans| ==> spans[j].end <= spans[k].start)
  }

  predicate AreTokens(s: string, spans: seq<Span>) {
    forall k :: 0 <= k < |spans| ==> spans[k].start < spans[k].end <= |s| && IsToken(Text(s, spans[k]))
  }

  /** The texts between the spans, from cursor on. */
  function Gaps(s: string, spans: seq<Span>, cursor: nat): (r: seq<string>)
    requires InOrder(s, spans, cursor)
    ensures |r| == |spans| + 1
  {
    if spans == [] then [s[cursor..]]
    else [s[cursor..spans[0].start]] + Gaps(s, spans[1..], spans[0].end)
  }

  function Text(s: string, span: Span): string
    requires span.start <= span.end <= |s|
  {
    s[span.start..span.end]
  }

  // ------------------------------------------------------------------ rendering

  function ThemeKey(token: string): string
    requires IsToken(token) && StartsWith(token, "__THEME_")
  {
    token[8..|token| - 2]
  }

  /** The value a token is known to have: a checked-in theme literal. */
  function Known(token: string, themes: map<string, string>): Option<string>
    requires IsToken(token)
  {
    if StartsWith(token, "__THEME_") && ThemeKey(token) in themes then Some(themes[ThemeKey(token)]) else None
  }

  predicate Renderable(token: string, themes: map<string, string>)
    requires IsToken(token)
  {
    StartsWith(token, "__THEME_") ==> ThemeKey(token) in themes
  }

  /** What the renderer writes for the token with this index. */
  function Replacement(token: string, index: nat, themes: map<string, string>): string
    requires IsToken(token)
  {
    match Known(token, themes)
    case Some(value) => value
    case None => "INSTALLER_STATIC_VALUE_" + Decimal(index)
  }

  function Replacements(s: string, spans: seq<Span>, themes: map<string, string>): seq<string>
    requires AreTokens(s, spans)
  {
    seq(|spans|, k requires 0 <= k < |spans| => Replacement(Text(s, spans[k]), k, themes))
  }

  /** The line with the markers from k on replaced and those before k still in place. */
  ghost function PartlyRendered(s: string, spans: seq<Span>, values: seq<string>, k: nat): string
    requires InOrder(s, spans, 0) && k <= |spans| == |values|
  {
    TailInOrder(s, spans, k);
    s[..EndFrom(spans, 0, k)] + Join(Gaps(s, spans[k..], EndFrom(spans, 0, k)), values[k..])
  }

  /** The renderer's loop: replaces the markers from the last to the first, in place. */
  method SubstituteBackwards(template: string, spans: seq<Span>, themes: map<string, string>)
      returns (r: Result<string>)
    requires InOrder(template, spans, 0) && AreTokens(template, spans)
    ensures r.Ok? <==> AllRenderable(template, spans, themes)
    ensures r.Ok? ==> r.value == PartlyRendered(template, spans, Replacements(template, spans, themes), 0)
  {
    var rendered := template;
    var k := |spans|;
    LastGap(template, spans, Replacements(template, spans, themes));
    while k > 0
      invariant 0 <= k <= |spans|
      invariant AllRenderable(template, spans, themes) == RenderableBefore(template, spans, themes, k)
      invariant rendered == PartlyRendered(template, spans, Replacements(template, spans, themes), k)
    {
      k := k - 1;
      var ok;
      ok, rendered := SubstituteOne(template, spans, themes, k, rendered);
      if !ok {
        return Raised("mapping references missing theme input");
      }
    }
    return Ok(rendered);
  }

  /** One round of the loop: the marker's text gives way to its replacement. */
  method SubstituteOne(template: string, spans: seq<Span>, themes: map<string, string>, k: nat, rendered: string)
    returns (ok: bool, r: string)
    requires InOrder(template, spans, 0) && AreTokens(template, spans) && k < |spans|
    requires rendered == PartlyRendered(template, spans, Replacements(template, spans, themes), k + 1)
    ensures RenderableBefore(template, spans, themes, k + 1) == (ok && RenderableBefore(template, spans, themes, k))
    ensures ok ==> r == PartlyRendered(template, spans, Replacements(template, spans, themes), k)
  {
    var token := Text(template, spans[k]);
    OneSubstitution(template, spans, Replacements(template, spans, themes), k);
    NextReplacement(template, spans, themes, k);
    ok := Renderable(token, themes);
    r := rendered;
    if ok {
      r := rendered[..spans[k].start] + Replacement(token, k, themes) + rendered[spans[k].end..];
    }
  }

  predicate AllRenderable(s: string, spans: seq<Span>, themes: map<string, string>)
    requires AreTokens(s, spans)
  {
    RenderableBefore(s, spans, themes, |spans|)
  }

  predicate RenderableBefore(s: string, spans: seq<Span>, themes: map<string, string>, n: nat)
    requires AreTokens(s, spans) && n <= |spans|
  {
    forall k :: 0 <= k < n ==> Renderable(Text(s, spans[k]), themes)
  }

  lemma NextReplacement(s: string, spans: seq<Span>, themes: map<string, string>, k: nat)
    requires AreTokens(s, spans) && k < |spans|
    ensures Replacements(s, spans, themes)[k] == Replacement(Text(s, spans[k]), k, themes)
    ensures RenderableBefore(s, spans, themes, k + 1) ==
            (RenderableBefore(s, spans, themes, k) && Renderable(Text(s, spans[k]), themes))
  {
  }

  method Render(template: string, themes: map<string, string>) returns (r: Result<string>)
    ensures r.Ok? <==> AllRenderable(template, Spans(template, 0), themes)
    ensures r.Ok? ==>
              r.value == Join(Gaps(template, Spans(template, 0), 0), Replacements(template, Spans(template, 0), themes))
  {
    var spans := Spans(template, 0);
    r := SubstituteBackwards(template, spans, themes);
    AllSubstituted(template, spans, Replacements(template, spans, themes));
  }

  /** Where the text before the k-th span starts, when the first one starts at `from`. */
  function EndFrom(spans: seq<Span>, from: nat, k: nat): nat
    requires k <= |spans|
  {
    if k == 0 then from else spans[k - 1].end
  }

  lemma TailInOrder(s: string, spans: seq<Span>, k: nat)
    requires InOrder(s, spans, 0) && k <= |spans|
    ensures EndFrom(spans, 0, k) <= |s| && InOrder(s, spans[k..], EndFrom(spans, 0, k))
  {
  }

  lemma LastGap(s: string, spans: seq<Span>, values: seq<string>)
    requires InOrder(s, spans, 0) && |spans| == |values|
    ensures PartlyRendered(s, spans, values, |spans|) == s
  {
    var c := EndFrom(spans, 0, |spans|);
    assert spans[|spans|..] == [] && values[|spans|..] == [];
    assert s == s[..c] + s[c..];
  }

  lemma AllSubstituted(s: string, spans: seq<Span>, values: seq<string>)
    requires InOrder(s, spans, 0) && |spans| == |values|
    ensures PartlyRendered(s, spans, values, 0) == Join(Gaps(s, spans, 0), values)
  {
    assert spans[0..] == spans && values[0..] == values;
    var whole := Join(Gaps(s, spans, 0), values);
    assert s[..0] + whole == whole;
  }

  lemma OneSubstitution(s: string, spans: seq<Span>, values: seq<string>, k: nat)
    requires InOrder(s, spans, 0) && k < |spans| == |values|
    ensures var rendered := PartlyRendered(s, spans, values, k + 1);
            && spans[k].start <= spans[k].end <= |rendered|
            && rendered[..spans[k].start] + values[k] + rendered[spans[k].end..] == PartlyRendered(s, spans, values, k)
  {
    TailInOrder(s, spans, k);
    TailInOrder(s, spans, k + 1);
    var rendered := PartlyRendered(s, spans, values, k + 1);
    var c, cut := EndFrom(spans, 0, k), spans[k].end;
    var gaps, rest := Gaps(s, spans[k + 1..], cut), Join(Gaps(s, spans[k + 1..], cut), values[k + 1..]);
    var left := spans[k..];
    assert left[0] == spans[k] && left[1..] == spans[k + 1..];
    assert Gaps(s, left, c) == [s[c..spans[k].start]] + gaps;
    JoinCons(s[c..spans[k].start], values[k], gaps, values[k + 1..]);
    assert values[k..] == [values[k]] + values[k + 1..];
    Replaced(s, c, spans[k].start, cut, values[k], rest, rendered);
  }

  lemma Replaced(s: string, c: nat, start: nat, end: nat, value: string, rest: string, rendered: string)
    requires c <= start <= end <= |s| && rendered == s[..end] + rest
    ensures rendered[..start] + value + rendered[end..] == s[..c] + (s[c..start] + value + rest)
  {
    assert rendered[end..] == rest;
    assert rendered[..start] == s[..start] == s[..c] + s[c..start];
  }

  // ------------------------------------------------------------------ splitting

  /** The spans are the successive leftmost matches. */
  ghost predicate Successive(s: string, spans: seq<Span>, from: nat)
    requires from <= |s|
    decreases |spans|
  {
    if spans == [] then true
    else NextMatch(s, from) == Some(spans[0]) && Successive(s, spans[1..], spans[0].end)
  }

  lemma {:induction false} SpansSuccessive(s: string, from: nat)
    requires from <= |s|
    ensures Successive(s, Spans(s, from), from)
    decreases |s| - from
  {
    match NextMatch(s, from)
    case None =>
    case Some(span) =>
      SpansSuccessive(s, span.end);
      assert Spans(s, from)[1..] == Spans(s, span.end);
  }

  /** The match after the k-th span's predecessor is the k-th span. */
  lemma {:induction false} SuccessiveAt(s: string, spans: seq<Span>, from: nat, k: nat)
    requires from <= |s| && Successive(s, spans, from) && k < |spans|
    ensures EndFrom(spans, from, k) <= |s| && NextMatch(s, EndFrom(spans, from, k)) == Some(spans[k])
  {
    if k > 0 {
      SuccessiveAt(s, spans[1..], spans[0].end, k - 1);
    }
  }

  /** The k-th gap lies between two spans, or behind the last one. */
  lemma {:induction false} GapAt(s: string, spans: seq<Span>, from: nat, k: nat)
    requires from <= |s| && InOrder(s, spans, from) && k <= |spans|
    ensures EndFrom(spans, from, k) <= |s|
    ensures k < |spans| ==> EndFrom(spans, from, k) <= spans[k].start <= |s|
    ensures Gaps(s, spans, from)[k]
            == if k < |spans| then s[EndFrom(spans, from, k)..spans[k].start] else s[EndFrom(spans, from, k)..]
  {
    if k > 0 {
      GapAt(s, spans[1..], spans[0].end, k - 1);
    }
  }

  lemma NextGap(s: string, spans: seq<Span>, k: nat)
    requires InOrder(s, spans, 0) && Successive(s, spans, 0) && k < |spans|
    ensures var from, goal := EndFrom(spans, 0, k), Gaps(s, spans, 0);
            && from <= |s| && NextMatch(s, from) == Some(spans[k]) && from <= spans[k].start <= |s|
            && goal[..k + 1] == goal[..k] + [s[from..spans[k].start]]
  {
    SuccessiveAt(s, spans, 0, k);
    GapAt(s, spans, 0, k);
    TakeOneMore(Gaps(s, spans, 0), k);
  }

  lemma LastPiece(s: string, spans: seq<Span>)
    requires InOrder(s, spans, 0)
    ensures var from, goal := EndFrom(spans, 0, |spans|), Gaps(s, spans, 0);
            from <= |s| && goal == goal[..|spans|] + [s[from..]]
  {
    GapAt(s, spans, 0, |spans|);
    TakeOneMore(Gaps(s, spans, 0), |spans|);
  }

  /** One round of the splitting loop: the text before the next token, and where that ends. */
  method CutOne(template: string, token: string, cursor: nat, ghost span: Span) returns (piece: string, next: nat)
    requires cursor <= |template| && NextMatch(template, cursor) == Some(span) && token == Text(template, span)
    ensures cursor <= span.start <= |template| && piece == template[cursor..span.start] && next == span.end
  {
    var start := Find(template, token, cursor);
    FoundAtSpan(template, cursor, span, start);
    piece := template[cursor..start];
    next := start + |token|;
  }

  /** The splitting loop: searches for each token's text in turn. */
  method SplitAtTexts(template: string, tokens: seq<string>, ghost spans: seq<Span>) returns (pieces: seq<string>)
    requires InOrder(template, spans, 0) && Successive(template, spans, 0)
    requires |tokens| == |spans| && forall k :: 0 <= k < |tokens| ==> tokens[k] == Text(template, spans[k])
    ensures pieces == Gaps(template, spans, 0)
  {
    pieces := [];
    var cursor: nat := 0;
    ghost var goal := Gaps(template, spans, 0);
    for k := 0 to |tokens|
      invariant cursor == EndFrom(spans, 0, k) && pieces == goal[..k]
    {
      NextGap(template, spans, k);
      var piece;
      piece, cursor := CutOne(template, tokens[k], cursor, spans[k]);
      pieces := pieces + [piece];
    }
    LastPiece(template, spans);
    pieces := pieces + [template[cursor..]];
  }

  /** The pieces are exactly the texts between the matches. */
  method SplitAtTokens(template: string) returns (pieces: seq<string>)
    ensures pieces == Gaps(template, Spans(template, 0), 0)
  {
    var spans := Spans(template, 0);
    SpansSuccessive(template, 0);
    var tokens := seq(|spans|, k requires 0 <= k < |spans| => Text(template, spans[k]));
    pieces := SplitAtTexts(template, tokens, spans);
  }

  /** No match starts before the leftmost one. */
  lemma {:induction false} NoEarlierMatch(s: string, from: nat, p: nat)
    requires from <= p < |s| && NextMatch(s, from).Some? && p < NextMatch(s, from).value.start
    ensures MatchAt(s, p, |s|) == None
    decreases p - from
  {
    if from < p {
      NoEarlierMatch(s, from + 1, p);
    }
  }

  /** A token text inside the template makes the pattern match where it starts. */
  lemma {:induction false} TokenMatches(s: string, p: nat, n: nat, limit: nat)
    requires p + n <= limit <= |s| && IsToken(s[p..p + n])
    ensures MatchAt(s, p, limit).Some?
    decreases limit
  {
    if limit > p + n {
      TokenMatches(s, p, n, limit - 1);
    }
  }

  /** The search for a token's text finds it where the pattern matched. */
  lemma FoundAtSpan(s: string, cursor: nat, span: Span, start: int)
    requires cursor <= |s| && NextMatch(s, cursor) == Some(span)
    requires Found(s, Text(s, span), cursor, start)
    ensures start == span.start
  {
    assert OccursAt(s, Text(s, span), span.start);
    if cursor <= start < span.start {
      NoEarlierMatch(s, cursor, start);
      TokenAt(s, Text(s, span), start);
    }
  }

  lemma TokenAt(s: string, token: string, p: nat)
    requires IsToken(token) && OccursAt(s, token, p)
    ensures MatchAt(s, p, |s|).Some?
  {
    TokenMatches(s, p, |token|, |s|);
  }

  // ---------------------------------------------------------------- the check

  /** The line the search runs on. */
  ghost function RenderedLine(template: string, themes: map<string, string>): Line {
    var spans := Spans(template, 0);
    Line(Gaps(template, spans, 0),
         seq(|spans|, k requires 0 <= k < |spans| => Known(Text(template, spans[k]), themes)),
         Join(Gaps(template, spans, 0), Replacements(template, spans, themes)))
  }

  /** The renderer's own substitution is always one of the decompositions. */
  lemma SubstitutionDecomposes(template: string, themes: map<string, string>)
    ensures RenderedLine(template, themes).Valid()
    ensures Decomposition(RenderedLine(template, themes), Replacements(template, Spans(template, 0), themes))
  {
    var spans := Spans(template, 0);
    var line, values := RenderedLine(template, themes), Replacements(template, spans, themes);
    forall j | 0 <= j < |values| ensures Agrees(line.known[j], values[j]) {
      assert line.known[j] == Known(Text(template, spans[j]), themes);
    }
  }

  /** The whole check of one template line: it is accepted exactly when the values that were
      substituted are the only ones the rendered line can have come from. */
  method CheckLine(template: string, themes: map<string, string>) returns (r: Result<seq<string>>)
    ensures r.Ok? <==>
              && AllRenderable(template, Spans(template, 0), themes)
              && (forall v :: Decomposition(RenderedLine(template, themes), v) ==>
                                v == Replacements(template, Spans(template, 0), themes))
    ensures r.Ok? ==> r.value == Replacements(template, Spans(template, 0), themes)
  {
    SubstitutionDecomposes(template, themes);
    var rendered := Render(template, themes);
    if rendered.Raised? {
      return Raised(rendered.reason);
    }
    var pieces := SplitAtTokens(template);
    var spans := Spans(template, 0);
    var known := seq(|spans|, k requires 0 <= k < |spans| => Known(Text(template, spans[k]), themes));
    var search := new Search(Line(pieces, known, rendered.value));
    var accepted := search.UniquelyTokenized();
    if !accepted {
      return Raised("mapping does not have one rendered-line tokenization");
    }
    return Ok(search.candidates[0]);
  }
}
