/** How npm ranges are written: every layout of a range is read as what it says. */
module RangeLayout {
  import opened Outcomes
  import opened Texts
  import opened SemVer
  import opened NpmRange
  import opened NpmText

  // ------------------------------------------------------------------- operands

  /** An operand as written: dotted components, or a full version. */
  datatype OperandText = Dotted(prefix: string, parts: seq<string>) | FullVersion(prefix: string, version: Parts) {
    predicate Proper() {
      match this
      case Dotted(prefix, parts) =>
        && (prefix == "" || prefix == "v") && 1 <= |parts| <= 3
        && forall i :: 0 <= i < |parts| ==> WildcardText(parts[i]) || NumberText(parts[i])
      case FullVersion(prefix, version) =>
        && (prefix == "" || prefix == "v" || prefix == "vv") && version.Grammatical() && version.pre != []
        && |version.Text()| + (if prefix == "vv" then 1 else 0) <= MAX_VERSION
    }

    function Text(): string
      requires Proper()
    {
      match this
      case Dotted(prefix, parts) => prefix + Join(parts)
      case FullVersion(prefix, version) => prefix + version.Text()
    }

    function Meaning(): Operand
      requires Proper()
    {
      match this
      case Dotted(_, parts) => Partial(ComponentsOf(parts))
      case FullVersion(_, version) => Full(version.Core(), version.pre)
    }
  }

  predicate OperandCharacter(c: char) { IdentifierCharacter(c) || c == '.' || c == '*' }

  /** Texts that neither white space, operators nor bars cut, and that no dash begins. */
  predicate Plain(s: string) {
    s != "" && s[0] != '-' && forall i :: 0 <= i < |s| ==> OperandCharacter(s[i])
  }

  lemma {:induction false} JoinIsPlain(parts: seq<string>)
    requires parts != [] && forall i :: 0 <= i < |parts| ==> parts[i] != ""
    requires forall i, j :: 0 <= i < |parts| && 0 <= j < |parts[i]| ==> OperandCharacter(parts[i][j])
    ensures Join(parts) != "" && Join(parts)[0] == parts[0][0]
    ensures forall j :: 0 <= j < |Join(parts)| ==> OperandCharacter(Join(parts)[j])
  {
    if |parts| > 1 {
      JoinIsPlain(parts[1..]);
    }
  }

  lemma DottedOperand(text: string, parts: seq<string>)
    requires 1 <= |parts| <= 3 && forall i :: 0 <= i < |parts| ==> WildcardText(parts[i]) || NumberText(parts[i])
    requires Unprefixed(text) == Join(parts)
    ensures OperandOf(text) == Ok(Partial(ComponentsOf(parts)))
  {
    JoinHas(parts, '-');
    PiecesJoin(parts);
  }

  lemma DottedIsRead(o: OperandText)
    requires o.Proper() && o.Dotted?
    ensures Plain(o.Text()) && OperandOf(o.Text()) == Ok(o.Meaning())
  {
    JoinIsPlain(o.parts);
    PrefixesGo(Join(o.parts));
    DottedOperand(o.Text(), o.parts);
  }

  lemma VersionOperand(text: string, parts: Parts)
    requires Spells(Unprefixed(text), parts) && parts.pre != [] && |Unprefixed(text)| <= MAX_VERSION
    ensures OperandOf(text) == Ok(Full(parts.Core(), parts.pre))
  {
    SpellsItsParts(Unprefixed(text), parts);
    VersionIsPlain(parts);
    var i :| 0 <= i < |parts.Text()| && parts.Text()[i] == '-';
    assert ("v" + parts.Text())[i + 1] == '-';
  }

  lemma FullVersionIsRead(o: OperandText)
    requires o.Proper() && o.FullVersion?
    ensures Plain(o.Text()) && OperandOf(o.Text()) == Ok(o.Meaning())
  {
    var text := o.version.Text();
    PartsOfText(o.version);
    VersionIsPlain(o.version);
    PrefixesGo(text);
    PrefixIsPlain(o.prefix, text);
    assert Spells(Unprefixed(o.prefix + text), o.version);
    VersionOperand(o.prefix + text, o.version);
  }

  lemma PrefixIsPlain(prefix: string, s: string)
    requires Plain(s) && prefix in {"", "v", "vv"}
    ensures Plain(prefix + s)
  {
  }

  lemma PrefixesGo(s: string)
    requires s != "" && s[0] != 'v'
    ensures Unprefixed("" + s) == s && Unprefixed("v" + s) == s && Unprefixed("vv" + s) == "v" + s
  {
    OnePrefix(s);
    OnePrefix("v" + s);
    assert "" + s == s && "vv" + s == "v" + ("v" + s);
  }

  lemma OnePrefix(s: string)
    ensures Unprefixed("v" + s) == s
  {
    assert ("v" + s)[1..] == s;
  }

  lemma VersionIsPlain(p: Parts)
    requires p.Grammatical() && p.pre != []
    ensures Plain(p.Text()) && '-' in p.Text()
  {
    JoinIsPlain(p.core);
    JoinIsPlain(p.pre);
    assert p.Text()[|Join(p.core)|] == '-';
  }

  // --------------------------------------------------------------------- tokens

  function Symbol(operator: Operator, bare: bool): string {
    match operator
    case Equal => if bare then "" else "="
    case Less => "<"
    case AtMost => "<="
    case Greater => ">"
    case AtLeast => ">="
    case Tilde => "~"
    case Caret => "^"
  }

  function SignText(operator: Operator, arrow: bool, bare: bool, inner: string): string {
    match operator
    case AtMost => "<" + inner + "="
    case AtLeast => ">" + inner + "="
    case _ => if arrow then "~>" else Symbol(operator, bare)
  }

  /** A token as written: an operator, white space after its characters, the operand, and white
      space after that. `arrow` writes a tilde as `~>`, `bare` writes no sign for equality. */
  datatype TokenText = TokenText(operator: Operator, arrow: bool, bare: bool, inner: string, gap: string,
                                 operand: OperandText, after: string) {
    predicate Proper() {
      && operand.Proper() && Blank(inner) && Blank(gap) && Blank(after)
      && (arrow ==> operator == Tilde)
      && (bare ==> operator == Equal && gap == "")
    }

    /** From the operand on. */
    function Rest(): string
      requires Proper()
    {
      operand.Text() + after
    }

    function Text(): string
      requires Proper()
    {
      SignText(operator, arrow, bare, inner) + (gap + Rest())
    }

    /** The word that is left of it. */
    function Word(): string
      requires Proper()
    {
      Symbol(operator, bare) + operand.Text()
    }

    function Meaning(): (Operator, Operand)
      requires Proper()
    {
      (operator, operand.Meaning())
    }
  }

  lemma OperandIsRead(o: OperandText)
    requires o.Proper()
    ensures Plain(o.Text()) && OperandOf(o.Text()) == Ok(o.Meaning())
  {
    if o.Dotted? {
      DottedIsRead(o);
    } else {
      FullVersionIsRead(o);
    }
  }

  lemma SignIsRead(operator: Operator, bare: bool, o: string)
    requires Plain(o)
    ensures TokenOf(Symbol(operator, bare && operator == Equal) + o) == (operator, o)
  {
    assert OperandCharacter(o[0]);
    match operator {
      case Equal => EqualityIsRead(o);
      case AtMost => PairsAreRead(o);
      case AtLeast => PairsAreRead(o);
      case Less => assert ("<" + o)[1..] == o;
      case Greater => assert (">" + o)[1..] == o;
      case Tilde => assert ("~" + o)[1..] == o;
      case Caret => assert ("^" + o)[1..] == o;
    }
  }

  lemma EqualityIsRead(o: string)
    requires Plain(o)
    ensures TokenOf("=" + o) == TokenOf("" + o) == (Equal, o)
  {
    assert OperandCharacter(o[0]);
    assert ("=" + o)[1..] == o && "" + o == o;
  }

  lemma PairsAreRead(o: string)
    requires Plain(o)
    ensures TokenOf("<=" + o) == (AtMost, o) && TokenOf(">=" + o) == (AtLeast, o)
  {
    assert ("<=" + o)[2..] == o && (">=" + o)[2..] == o;
  }

  lemma WordIsRead(t: TokenText)
    requires t.Proper()
    ensures TokenOf(t.Word()) == (t.operator, t.operand.Text())
    ensures OperandOf(t.operand.Text()) == Ok(t.operand.Meaning())
  {
    OperandIsRead(t.operand);
    SignIsRead(t.operator, t.bare, t.operand.Text());
  }

  // ------------------------------------------------- what the substitutions make of it

  predicate Without(s: string, cs: string) { forall i :: 0 <= i < |s| ==> s[i] !in cs }

  lemma {:induction false} ArrowlessKeeps(s: string, rest: string)
    requires Without(s, "~")
    ensures Arrowless(s + rest) == s + Arrowless(rest)
  {
    if s == "" {
      assert s + rest == rest;
    } else {
      ArrowlessKeeps(s[1..], rest);
      assert (s + rest)[1..] == s[1..] + rest;
    }
  }

  lemma {:induction false} GluedKeeps(s: string, rest: string)
    requires Without(s, "<>=~^")
    ensures Glued(s + rest) == s + Glued(rest)
  {
    if s == "" {
      assert s + rest == rest;
    } else {
      GluedKeeps(s[1..], rest);
      assert (s + rest)[1..] == s[1..] + rest;
    }
  }

  lemma {:induction false} StrippedBlank(s: string, rest: string)
    requires Blank(s) && (rest == "" || !Space(rest[0]))
    ensures Stripped(s + rest) == rest
  {
    if s == "" {
      assert s + rest == rest;
    } else {
      StrippedBlank(s[1..], rest);
      assert (s + rest)[1..] == s[1..] + rest;
    }
  }

  lemma Regroup(a: string, b: string, c: string)
    ensures (a + b) + c == a + (b + c)
  {
  }

  /** White space after an operator character goes. */
  lemma GluedOperator(c: char, gap: string, rest: string)
    requires OperatorCharacter(c) && Blank(gap) && rest != "" && !Space(rest[0])
    ensures Glued([c] + (gap + rest)) == [c] + Glued(rest)
  {
    StrippedBlank(gap, rest);
    assert ([c] + (gap + rest))[1..] == gap + rest;
  }

  lemma GluedPair(c: char, inner: string, gap: string, rest: string)
    requires OperatorCharacter(c) && Blank(inner) && Blank(gap) && rest != "" && !Space(rest[0])
    ensures Glued(([c] + inner + "=") + (gap + rest)) == [c, '='] + Glued(rest)
  {
    var next := "=" + (gap + rest);
    Regroup([c] + inner, "=", gap + rest);
    Regroup([c], inner, next);
    GluedOperator(c, inner, next);
    GluedOperator('=', gap, rest);
    assert [c] + (['='] + Glued(rest)) == [c, '='] + Glued(rest);
  }

  lemma GluedSign(operator: Operator, bare: bool, inner: string, gap: string, rest: string)
    requires Blank(inner) && Blank(gap) && rest != "" && !Space(rest[0])
    requires bare ==> operator == Equal && gap == ""
    ensures Glued(SignText(operator, false, bare, inner) + (gap + rest)) == Symbol(operator, bare) + Glued(rest)
  {
    match operator {
      case AtMost => GluedPair('<', inner, gap, rest);
      case AtLeast => GluedPair('>', inner, gap, rest);
      case Equal =>
        if bare {
          assert "" + (gap + rest) == rest && "" + Glued(rest) == Glued(rest);
        } else {
          GluedOperator('=', gap, rest);
        }
      case Less => GluedOperator('<', gap, rest);
      case Greater => GluedOperator('>', gap, rest);
      case Tilde => GluedOperator('~', gap, rest);
      case Caret => GluedOperator('^', gap, rest);
    }
  }

  /** From the operand to the next token there is no operator character. */
  lemma RestIsFree(t: TokenText)
    requires t.Proper()
    ensures Without(t.Rest(), "<>=~^") && t.Rest() != "" && !Space(t.Rest()[0]) && t.Rest()[0] != '>'
  {
    OperandIsRead(t.operand);
    PlainIsFree(t.operand.Text(), t.after);
  }

  lemma CharacterIsFree(c: char)
    requires OperandCharacter(c) || Space(c)
    ensures c !in "<>=~^"
  {
  }

  lemma PlainIsFree(s: string, after: string)
    requires Plain(s) && Blank(after)
    ensures Without(s + after, "<>=~^") && s + after != "" && !Space((s + after)[0]) && (s + after)[0] != '>'
  {
    forall i | 0 <= i < |s + after| ensures (s + after)[i] !in "<>=~^" {
      CharacterIsFree((s + after)[i]);
    }
    assert OperandCharacter(s[0]);
  }

  lemma GluedToken(t: TokenText, rest: string)
    requires t.Proper() && !t.arrow
    ensures Glued(t.Text() + rest) == Symbol(t.operator, t.bare) + (t.Rest() + Glued(rest))
  {
    RestIsFree(t);
    Regroup(SignText(t.operator, t.arrow, t.bare, t.inner), t.gap + t.Rest(), rest);
    Regroup(t.gap, t.Rest(), rest);
    GluedSign(t.operator, t.bare, t.inner, t.gap, t.Rest() + rest);
    GluedKeeps(t.Rest(), rest);
  }

  lemma ArrowlessSign(t: TokenText, rest: string)
    requires Blank(t.inner) && (t.arrow ==> t.operator == Tilde) && rest != "" && rest[0] != '>'
    ensures Arrowless(SignText(t.operator, t.arrow, t.bare, t.inner) + rest)
            == SignText(t.operator, false, t.bare, t.inner) + Arrowless(rest)
  {
    if t.operator == Tilde {
      assert ("~" + rest)[1..] == rest && ("~>" + rest)[2..] == rest;
    } else {
      ArrowlessKeeps(SignText(t.operator, t.arrow, t.bare, t.inner), rest);
    }
  }

  /** The arrow of a tilde goes. */
  lemma ArrowlessToken(t: TokenText, rest: string)
    requires t.Proper()
    ensures Arrowless(t.Text() + rest) == t.(arrow := false).Text() + Arrowless(rest)
  {
    var tail := t.gap + t.Rest();
    RestIsFree(t);
    Regroup(SignText(t.operator, t.arrow, t.bare, t.inner), tail, rest);
    assert (tail + rest)[0] == if t.gap == "" then t.Rest()[0] else t.gap[0];
    ArrowlessSign(t, tail + rest);
    ArrowlessKeeps(tail, rest);
    Regroup(SignText(t.operator, false, t.bare, t.inner), tail, Arrowless(rest));
  }

  // ---------------------------------------------------------------------- words

  predicate NoSpace(s: string) { forall i :: 0 <= i < |s| ==> !Space(s[i]) }

  lemma {:induction false} WordLengthIs(w: string, rest: string)
    requires NoSpace(w) && (rest == "" || Space(rest[0]))
    ensures WordLength(w + rest) == |w|
  {
    if w == "" {
      assert w + rest == rest;
    } else {
      WordLengthIs(w[1..], rest);
      assert (w + rest)[1..] == w[1..] + rest;
    }
  }

  lemma {:induction false} WordsSkip(s: string, rest: string)
    requires Blank(s)
    ensures Words(s + rest) == Words(rest)
  {
    if s == "" {
      assert s + rest == rest;
    } else {
      WordsSkip(s[1..], rest);
      assert (s + rest)[1..] == s[1..] + rest;
    }
  }

  lemma FirstWord(w: string, after: string, rest: string)
    requires w != "" && NoSpace(w) && Blank(after) && (after == "" ==> rest == "")
    ensures Words(w + (after + rest)) == [w] + Words(rest)
  {
    var s := w + (after + rest);
    WordLengthIs(w, after + rest);
    assert s[0] == w[0] && s[..|w|] == w && s[|w|..] == after + rest;
    WordsSkip(after, rest);
  }

  /** A dash that begins a word is not alone when the dashes of a text follow other characters. */
  predicate DashesFollow(s: string) {
    forall i :: 0 <= i < |s| && s[i] == '-' ==> i > 0 && !Space(s[i - 1])
  }

  lemma {:induction false} NoLoneDash(s: string)
    requires DashesFollow(s)
    ensures forall i :: 0 <= i < |Words(s)| ==> Words(s)[i] != "-"
    decreases |s|
  {
    if s != "" {
      if Space(s[0]) {
        NoLoneDash(s[1..]);
      } else {
        NoLoneDash(s[WordLength(s)..]);
      }
    }
  }

  lemma DashesFollowBoth(a: string, b: string)
    requires DashesFollow(a) && DashesFollow(b)
    ensures DashesFollow(a + b)
  {
    forall i | 0 <= i < |a + b| && (a + b)[i] == '-' ensures i > 0 && !Space((a + b)[i - 1]) {
      if i >= |a| {
        assert b[i - |a|] == '-';
      }
    }
  }

  // ----------------------------------------------------------------- token lists

  predicate AllProper(ts: seq<TokenText>) { forall i :: 0 <= i < |ts| ==> ts[i].Proper() }

  /** White space separates the tokens. */
  predicate Spaced(ts: seq<TokenText>) { forall i :: 0 <= i < |ts| - 1 ==> ts[i].after != "" }

  function TokensText(ts: seq<TokenText>): string
    requires AllProper(ts)
  {
    if ts == [] then "" else ts[0].Text() + TokensText(ts[1..])
  }

  function Unarrowed(ts: seq<TokenText>): string
    requires AllProper(ts)
  {
    if ts == [] then "" else ts[0].(arrow := false).Text() + Unarrowed(ts[1..])
  }

  /** The words that are left of the tokens, and the white space after each. */
  function WordsOf(ts: seq<TokenText>): (words: seq<string>)
    requires AllProper(ts)
    ensures |words| == |ts|
  {
    if ts == [] then [] else [ts[0].Word()] + WordsOf(ts[1..])
  }

  function Afters(ts: seq<TokenText>): (afters: seq<string>)
    ensures |afters| == |ts|
  {
    if ts == [] then [] else [ts[0].after] + Afters(ts[1..])
  }

  function Spread(words: seq<string>, afters: seq<string>): string
    requires |words| == |afters|
  {
    if words == [] then "" else words[0] + (afters[0] + Spread(words[1..], afters[1..]))
  }

  function TokenMeanings(ts: seq<TokenText>): seq<(Operator, Operand)>
    requires AllProper(ts)
  {
    if ts == [] then [] else [ts[0].Meaning()] + TokenMeanings(ts[1..])
  }

  lemma {:induction false} ArrowsGo(ts: seq<TokenText>)
    requires AllProper(ts)
    ensures Arrowless(TokensText(ts)) == Unarrowed(ts)
  {
    if ts != [] {
      ArrowlessToken(ts[0], TokensText(ts[1..]));
      ArrowsGo(ts[1..]);
    }
  }

  lemma {:induction false} GapsGo(ts: seq<TokenText>)
    requires AllProper(ts)
    ensures Glued(Unarrowed(ts)) == Spread(WordsOf(ts), Afters(ts))
  {
    if ts != [] {
      var t, rest := ts[0], Glued(Unarrowed(ts[1..]));
      GluedToken(t.(arrow := false), Unarrowed(ts[1..]));
      GapsGo(ts[1..]);
      Regroup(t.operand.Text(), t.after, rest);
      Regroup(Symbol(t.operator, t.bare), t.operand.Text(), t.after + rest);
    }
  }

  lemma WordIsOne(t: TokenText)
    requires t.Proper()
    ensures t.Word() != "" && NoSpace(t.Word())
  {
    OperandIsRead(t.operand);
    SymbolIsWord(t.operator, t.bare);
    PlainIsWord(Symbol(t.operator, t.bare), t.operand.Text());
  }

  lemma SymbolIsWord(operator: Operator, bare: bool)
    ensures NoSpace(Symbol(operator, bare))
  {
  }

  lemma PlainIsWord(sign: string, s: string)
    requires NoSpace(sign) && Plain(s)
    ensures sign + s != "" && NoSpace(sign + s)
  {
    forall i | 0 <= i < |s| ensures !Space(s[i]) {
      assert OperandCharacter(s[i]);
    }
  }

  predicate Separated(words: seq<string>, afters: seq<string>)
    requires |words| == |afters|
  {
    words != [] ==>
      && words[0] != "" && NoSpace(words[0]) && Blank(afters[0]) && (|words| > 1 ==> afters[0] != "")
      && Separated(words[1..], afters[1..])
  }

  lemma {:induction false} TokensAreSeparated(ts: seq<TokenText>)
    requires AllProper(ts) && Spaced(ts)
    ensures Separated(WordsOf(ts), Afters(ts))
  {
    if ts != [] {
      WordIsOne(ts[0]);
      TokensAreSeparated(ts[1..]);
    }
  }

  lemma {:induction false} WordsOfSpread(words: seq<string>, afters: seq<string>)
    requires |words| == |afters| && Separated(words, afters)
    ensures Words(Spread(words, afters)) == words
  {
    if words != [] {
      WordsOfSpread(words[1..], afters[1..]);
      FirstWord(words[0], afters[0], Spread(words[1..], afters[1..]));
    }
  }

  lemma {:induction false} TokensAreRead(ts: seq<TokenText>)
    requires AllProper(ts)
    ensures ReadTokens(WordsOf(ts)) == Ok(TokenMeanings(ts))
  {
    if ts != [] {
      WordIsRead(ts[0]);
      TokensAreRead(ts[1..]);
    }
  }

  lemma OperandDashes(s: string)
    requires Plain(s)
    ensures DashesFollow(s)
  {
    forall i | 0 <= i < |s| && s[i] == '-' ensures i > 0 && !Space(s[i - 1]) {
      assert OperandCharacter(s[i - 1]);
    }
  }

  lemma SignDashes(t: TokenText)
    requires Blank(t.inner) && (t.arrow ==> t.operator == Tilde)
    ensures '-' !in SignText(t.operator, t.arrow, t.bare, t.inner)
  {
  }

  lemma {:induction false} TokensDashes(ts: seq<TokenText>)
    requires AllProper(ts)
    ensures DashesFollow(TokensText(ts))
  {
    if ts != [] {
      var t := ts[0];
      OperandIsRead(t.operand);
      OperandDashes(t.operand.Text());
      SignDashes(t);
      DashesFollowBoth(t.operand.Text(), t.after);
      DashesFollowBoth(t.gap, t.Rest());
      DashesFollowBoth(SignText(t.operator, t.arrow, t.bare, t.inner), t.gap + t.Rest());
      TokensDashes(ts[1..]);
      DashesFollowBoth(t.Text(), TokensText(ts[1..]));
    }
  }

  // ---------------------------------------------------------------- arms and ranges

  /** An arm as written: a hyphen range, or a list of tokens, which may be empty. */
  datatype ArmLayout =
    | HyphenLayout(lead: string, low: OperandText, before: string, behind: string, high: OperandText, trail: string)
    | TokensLayout(lead: string, tokens: seq<TokenText>)
  {
    predicate Proper() {
      match this
      case HyphenLayout(lead, low, before, behind, high, trail) =>
        && low.Proper() && high.Proper() && before != "" && behind != ""
        && Blank(lead) && Blank(before) && Blank(behind) && Blank(trail)
      case TokensLayout(lead, tokens) => Blank(lead) && AllProper(tokens) && Spaced(tokens)
    }

    function Text(): string
      requires Proper()
    {
      match this
      case HyphenLayout(lead, low, before, behind, high, trail) =>
        lead + (low.Text() + (before + ("-" + (behind + (high.Text() + (trail + ""))))))
      case TokensLayout(lead, tokens) => lead + TokensText(tokens)
    }

    /** An arm without tokens admits what `*` admits. */
    function Meaning(): ArmText
      requires Proper()
    {
      match this
      case HyphenLayout(_, low, _, _, high, _) => HyphenText(low.Meaning(), high.Meaning())
      case TokensLayout(_, tokens) =>
        ComparatorsText(if tokens == [] then [(Equal, Partial([Wildcard]))] else TokenMeanings(tokens))
    }
  }

  lemma OperandIsWord(s: string)
    requires Plain(s)
    ensures s != "" && NoSpace(s)
  {
    PlainIsWord("", s);
    assert "" + s == s;
  }

  lemma LastWords(behind: string, high: string, trail: string)
    requires Plain(high) && behind != "" && Blank(behind) && Blank(trail)
    ensures Words("-" + (behind + (high + (trail + "")))) == ["-", high]
  {
    OperandIsWord(high);
    FirstWord(high, trail, "");
    FirstWord("-", behind, high + (trail + ""));
  }

  lemma ThreeWords(lead: string, low: string, before: string, behind: string, high: string, trail: string)
    requires Plain(low) && Plain(high) && before != "" && behind != ""
    requires Blank(lead) && Blank(before) && Blank(behind) && Blank(trail)
    ensures Words(lead + (low + (before + ("-" + (behind + (high + (trail + ""))))))) == [low, "-", high]
  {
    var second := "-" + (behind + (high + (trail + "")));
    LastWords(behind, high, trail);
    OperandIsWord(low);
    FirstWord(low, before, second);
    WordsSkip(lead, low + (before + second));
  }

  lemma HyphenIsRead(a: ArmLayout)
    requires a.Proper() && a.HyphenLayout?
    ensures ArmOf(a.Text()) == Ok(a.Meaning())
  {
    OperandIsRead(a.low);
    OperandIsRead(a.high);
    ThreeWords(a.lead, a.low.Text(), a.before, a.behind, a.high.Text(), a.trail);
  }

  lemma TokenWordsAre(lead: string, ts: seq<TokenText>)
    requires Blank(lead) && AllProper(ts) && Spaced(ts)
    ensures Words(Glued(Arrowless(lead + TokensText(ts)))) == WordsOf(ts)
  {
    forall i | 0 <= i < |lead| ensures lead[i] !in "<>=~^" {
      CharacterIsFree(lead[i]);
    }
    ArrowlessKeeps(lead, TokensText(ts));
    ArrowsGo(ts);
    GluedKeeps(lead, Unarrowed(ts));
    GapsGo(ts);
    TokensAreSeparated(ts);
    WordsSkip(lead, Spread(WordsOf(ts), Afters(ts)));
    WordsOfSpread(WordsOf(ts), Afters(ts));
  }

  lemma NoHyphenRange(lead: string, ts: seq<TokenText>)
    requires Blank(lead) && AllProper(ts)
    ensures forall i :: 0 <= i < |Words(lead + TokensText(ts))| ==> Words(lead + TokensText(ts))[i] != "-"
  {
    TokensDashes(ts);
    DashesFollowBoth(lead, TokensText(ts));
    NoLoneDash(lead + TokensText(ts));
  }

  lemma StarIsRead()
    ensures ReadTokens(["*"]) == Ok([(Equal, Partial([Wildcard]))])
  {
    var star := TokenText(Equal, false, true, "", "", Dotted("", ["*"]), "");
    assert star.Word() == "*" && ComponentsOf(["*"]) == [Wildcard];
    TokensAreRead([star]);
    assert [star][1..] == [];
    assert WordsOf([star]) == ["*"] && TokenMeanings([star]) == [star.Meaning()];
  }

  lemma TokensLayoutIsRead(a: ArmLayout)
    requires a.Proper() && a.TokensLayout?
    ensures ArmOf(a.Text()) == Ok(a.Meaning())
  {
    TokenWordsAre(a.lead, a.tokens);
    NoHyphenRange(a.lead, a.tokens);
    if a.tokens == [] {
      StarIsRead();
    } else {
      TokensAreRead(a.tokens);
    }
  }

  /** Every layout of an arm is read as what it says. */
  lemma ArmIsRead(a: ArmLayout)
    requires a.Proper()
    ensures ArmOf(a.Text()) == Ok(a.Meaning())
  {
    if a.HyphenLayout? {
      HyphenIsRead(a);
    } else {
      TokensLayoutIsRead(a);
    }
  }

  predicate NoBar(s: string) { forall i :: 0 <= i < |s| ==> s[i] != '|' }

  lemma {:induction false} ArmsPlain(s: string)
    requires NoBar(s)
    ensures Arms(s) == [s]
  {
    if s != "" {
      ArmsPlain(s[1..]);
      assert [s[0]] + s[1..] == s;
    }
  }

  lemma {:induction false} ArmsFirst(s: string, rest: string)
    requires NoBar(s)
    ensures Arms(s + "||" + rest) == [s] + Arms(rest)
  {
    var line := s + "||" + rest;
    if s == "" {
      assert line[2..] == rest;
    } else {
      ArmsFirst(s[1..], rest);
      assert line[1..] == s[1..] + "||" + rest;
      assert [s[0]] + s[1..] == s;
    }
  }

  lemma {:induction false} TokensHaveNoBar(ts: seq<TokenText>)
    requires AllProper(ts)
    ensures NoBar(TokensText(ts))
  {
    if ts != [] {
      TokenHasNoBar(ts[0]);
      TokensHaveNoBar(ts[1..]);
    }
  }

  lemma TokenHasNoBar(t: TokenText)
    requires t.Proper()
    ensures NoBar(t.Text())
  {
    OperandHasNoBar(t.operand);
    SignHasNoBar(t);
    assert NoBar(t.gap + t.Rest());
  }

  lemma SignHasNoBar(t: TokenText)
    requires Blank(t.inner)
    ensures NoBar(SignText(t.operator, t.arrow, t.bare, t.inner))
  {
  }

  lemma OperandHasNoBar(o: OperandText)
    requires o.Proper()
    ensures NoBar(o.Text())
  {
    OperandIsRead(o);
    forall i | 0 <= i < |o.Text()| ensures o.Text()[i] != '|' {
      assert OperandCharacter(o.Text()[i]);
    }
  }

  lemma ArmHasNoBar(a: ArmLayout)
    requires a.Proper()
    ensures NoBar(a.Text())
  {
    match a {
      case HyphenLayout(lead, low, before, behind, high, trail) =>
        OperandHasNoBar(low);
        OperandHasNoBar(high);
      case TokensLayout(lead, tokens) => TokensHaveNoBar(tokens);
    }
  }

  function JoinBars(texts: seq<string>): string
    requires texts != []
  {
    if |texts| == 1 then texts[0] else texts[0] + "||" + JoinBars(texts[1..])
  }

  lemma {:induction false} ArmsOfJoin(texts: seq<string>)
    requires texts != [] && forall i :: 0 <= i < |texts| ==> NoBar(texts[i])
    ensures Arms(JoinBars(texts)) == texts
  {
    if |texts| == 1 {
      ArmsPlain(texts[0]);
    } else {
      ArmsFirst(texts[0], JoinBars(texts[1..]));
      ArmsOfJoin(texts[1..]);
    }
  }

  predicate ProperArms(arms: seq<ArmLayout>) { forall i :: 0 <= i < |arms| ==> arms[i].Proper() }

  function ArmTexts(arms: seq<ArmLayout>): (texts: seq<string>)
    requires ProperArms(arms)
    ensures |texts| == |arms|
  {
    if arms == [] then [] else [arms[0].Text()] + ArmTexts(arms[1..])
  }

  function Meanings(arms: seq<ArmLayout>): seq<ArmText>
    requires ProperArms(arms)
  {
    if arms == [] then [] else [arms[0].Meaning()] + Meanings(arms[1..])
  }

  function RangeText(arms: seq<ArmLayout>): string
    requires arms != [] && ProperArms(arms)
  {
    JoinBars(ArmTexts(arms))
  }

  lemma {:induction false} ArmsAreRead(arms: seq<ArmLayout>)
    requires ProperArms(arms)
    ensures ReadArms(ArmTexts(arms)) == Ok(Meanings(arms))
    ensures forall i :: 0 <= i < |arms| ==> NoBar(ArmTexts(arms)[i])
  {
    if arms != [] {
      ArmIsRead(arms[0]);
      ArmHasNoBar(arms[0]);
      ArmsAreRead(arms[1..]);
    }
  }

  /** Every layout of a range, within the bounds, is read as what its arms say. */
  lemma RangeIsRead(arms: seq<ArmLayout>)
    requires 1 <= |arms| <= 16 && ProperArms(arms) && |RangeText(arms)| <= MAX_RANGE
    ensures RangeOf(RangeText(arms)) == Ok(Meanings(arms))
  {
    ArmsAreRead(arms);
    ArmsOfJoin(ArmTexts(arms));
  }
}
