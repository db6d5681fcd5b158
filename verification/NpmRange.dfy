/** npm ranges: `npm_range` and `npm_matches` of tools/inventory_apt.py. Here a range is its arms,
    and an arm its operators and dotted operands; NpmText reads them from the text. */
module NpmRange {
  import opened Outcomes
  import opened SemVer
  import opened Texts

  // -------------------------------------------------------------------- syntax

  datatype Component = Number(n: nat) | Wildcard

  /** An operand as written. One with a prerelease must write its whole core. */
  datatype Operand = Partial(components: seq<Component>) | Full(core: seq<nat>, pre: seq<string>)

  /** The source's operators; a bare operand has the operator Equal. */
  datatype Operator = Equal | Less | AtMost | Greater | AtLeast | Tilde | Caret

  datatype ArmText = HyphenText(low: Operand, high: Operand) | ComparatorsText(tokens: seq<(Operator, Operand)>)

  /** An operand as `partial` reads it: the padded core, how many components were
      written, and the version they denote. */
  datatype Reading = Reading(core: seq<nat>, precision: nat, version: Version) {
    predicate Valid() {
      && |core| == 3 && precision <= 3 && version.Core() == core
      && (precision < 3 ==> version.pre == [])
      && (forall i :: precision <= i < 3 ==> core[i] == 0)
      && (forall i :: 0 <= i < 3 ==> core[i] <= MAX_COMPONENT)
    }
  }

  type Bound = b: Reading | b.Valid() witness Reading([0, 0, 0], 0, Version(0, 0, 0, []))

  datatype Token = Token(operator: Operator, bound: Result<Bound>)

  datatype Arm = Hyphen(low: Result<Bound>, high: Result<Bound>) | Comparators(tokens: seq<Token>)

  // ------------------------------------------------------------------ compiled

  /** A comparator: one of the first five operators and a bound. */
  datatype Comparison = Comparison(operator: Operator, bound: Version)

  datatype CompiledArm = CompiledArm(comparisons: seq<Comparison>, prereleases: set<seq<nat>>)

  predicate Holds(c: Comparison, v: Version) {
    var order := KeyCmp(v, c.bound);
    match c.operator
    case Equal => order == 0
    case Less => order < 0
    case AtMost => order <= 0
    case Greater => order > 0
    case AtLeast => order >= 0
    case _ => false
  }

  predicate AllHold(cs: seq<Comparison>, v: Version) { forall i :: 0 <= i < |cs| ==> Holds(cs[i], v) }

  /** `npm_matches`. */
  method NpmMatches(version: Version, compiled: seq<CompiledArm>) returns (matches: bool)
    ensures matches <==> exists i :: 0 <= i < |compiled| && ArmMatches(version, compiled[i])
  {
    for i := 0 to |compiled|
      invariant forall j :: 0 <= j < i ==> !ArmMatches(version, compiled[j])
    {
      if version.pre != [] && version.Core() !in compiled[i].prereleases {
        continue;
      }
      if AllHold(compiled[i].comparisons, version) {
        return true;
      }
    }
    return false;
  }

  predicate ArmMatches(v: Version, arm: CompiledArm) {
    (v.pre == [] || v.Core() in arm.prereleases) && AllHold(arm.comparisons, v)
  }

  // ----------------------------------------------------------------- operands

  /** The numbers written before the first wildcard. */
  function Numbers(components: seq<Component>): (r: seq<nat>)
    ensures |r| <= |components|
  {
    if components == [] || components[0].Wildcard? then [] else [components[0].n] + Numbers(components[1..])
  }

  predicate WildcardsLast(components: seq<Component>) {
    forall i, j :: 0 <= i < j < |components| && components[i].Wildcard? ==> components[j].Wildcard?
  }

  predicate SupportedOperand(o: Operand) {
    match o
    case Partial(cs) =>
      && 1 <= |cs| <= 3 && WildcardsLast(cs)
      && forall i :: 0 <= i < |cs| && cs[i].Number? ==> cs[i].n <= MAX_COMPONENT
    case Full(core, pre) => |core| == 3 && pre != [] && NpmVersion(core, pre).Ok?
  }

  function Padded(numbers: seq<nat>): (core: seq<nat>)
    requires |numbers| <= 3
    ensures |core| == 3 && core[..|numbers|] == numbers
    ensures forall i :: |numbers| <= i < 3 ==> core[i] == 0
  {
    numbers + seq(3 - |numbers|, i => 0)
  }

  function ReadOperand(o: Operand): (r: Result<Bound>)
    ensures r.Ok? <==> SupportedOperand(o)
    ensures r.Ok? && o.Full? ==> r.value.precision == 3 && r.value.core == o.core && |r.value.version.pre| == |o.pre|
    ensures r.Ok? && o.Partial? ==>
              r.value.core[..r.value.precision] == Numbers(o.components) && r.value.version.pre == []
  {
    match o
    case Partial(cs) =>
      if !(1 <= |cs| <= 3) then Raised("unsupported npm partial-version syntax")
      else if !WildcardsLast(cs) then Raised("unsupported npm partial-version component")
      else if exists i :: 0 <= i < |cs| && cs[i].Number? && cs[i].n > MAX_COMPONENT then
        Raised("npm range component exceeds the SemVer integer limit")
      else
        var numbers := Numbers(cs);
        var core := Padded(numbers);
        NumbersBounded(cs);
        var bound: Bound := Reading(core, |numbers|, Release(core));
        Ok(bound)
    case Full(core, pre) =>
      if |core| != 3 || pre == [] then Raised("unsupported npm version syntax")
      else
        match NpmVersion(core, pre)
        case Raised(reason) => Raised(reason)
        case Ok(v) =>
          var bound: Bound := Reading(core, 3, v);
          Ok(bound)
  }

  function ReadArm(text: ArmText): Arm {
    match text
    case HyphenText(low, high) => Hyphen(ReadOperand(low), ReadOperand(high))
    case ComparatorsText(ts) =>
      Comparators(seq(|ts|, i requires 0 <= i < |ts| => Token(ts[i].0, ReadOperand(ts[i].1))))
  }

  lemma {:induction false} NumbersBounded(cs: seq<Component>)
    requires forall i :: 0 <= i < |cs| && cs[i].Number? ==> cs[i].n <= MAX_COMPONENT
    ensures forall i :: 0 <= i < |Numbers(cs)| ==> Numbers(cs)[i] <= MAX_COMPONENT
  {
    if cs != [] && cs[0].Number? {
      NumbersBounded(cs[1..]);
    }
  }

  function Release(core: seq<nat>): Version
    requires |core| == 3
  {
    Version(core[0], core[1], core[2], [])
  }

  /** The version `core-0`, the lowest with this core. */
  function DashZero(core: seq<nat>): Version
    requires |core| == 3
  {
    Version(core[0], core[1], core[2], [Numeric(0)])
  }

  /** `upper`: one more at this position, zeros after it. */
  function Upper(core: seq<nat>, position: nat): (r: seq<nat>)
    requires |core| == 3 && position < 3
    ensures |r| == 3
  {
    seq(3, i requires 0 <= i < 3 => if i < position then core[i] else if i == position then core[i] + 1 else 0)
  }

  // --------------------------------------------------------------- compilation

  /** The position whose increment bounds a caret range. */
  function CaretPosition(core: seq<nat>, precision: nat): nat
    requires |core| == 3
  {
    if core[0] != 0 || precision == 1 then 0 else if core[1] != 0 || precision == 2 then 1 else 2
  }

  /** The comparators of one token; the increment in `upper` may exceed the integer limit. */
  function TokenComparisons(operator: Operator, b: Bound): Result<seq<Comparison>>
  {
    if b.precision == 0 then
      Ok(if operator in {Less, Greater} then [Comparison(Less, DashZero([0, 0, 0]))] else [])
    else if operator == Caret then
      Between(b, CaretPosition(b.core, b.precision))
    else if operator == Tilde then
      Between(b, if b.precision == 1 then 0 else 1)
    else if b.precision == 3 then
      Ok([Comparison(operator, b.version)])
    else if operator == Equal then
      Between(b, b.precision - 1)
    else if operator == Greater then
      if b.core[b.precision - 1] == MAX_COMPONENT then Raised("npm version component exceeds the SemVer integer limit")
      else Ok([Comparison(AtLeast, Release(Upper(b.core, b.precision - 1)))])
    else if operator == AtMost then
      if b.core[b.precision - 1] == MAX_COMPONENT then Raised("npm version component exceeds the SemVer integer limit")
      else Ok([Comparison(Less, DashZero(Upper(b.core, b.precision - 1)))])
    else
      Ok([Comparison(operator, if operator == Less then DashZero(b.core) else b.version)])
  }

  /** `>=` the operand and `<` the increment at a position, with the suffix -0. */
  function Between(b: Bound, position: nat): Result<seq<Comparison>>
    requires position < 3
  {
    if b.core[position] == MAX_COMPONENT then Raised("npm version component exceeds the SemVer integer limit")
    else Ok([Comparison(AtLeast, b.version), Comparison(Less, DashZero(Upper(b.core, position)))])
  }

  method CompileHyphen(a: Result<Bound>, b: Result<Bound>) returns (r: Result<CompiledArm>)
    ensures r.Ok? <==> SupportedArm(Hyphen(a, b))
    ensures r.Ok? ==> Compiles(Hyphen(a, b), r.value)
  {
    if a.Raised? || b.Raised? {
      return Raised("unsupported npm range");
    }
    var comparisons: seq<Comparison> := [];
    if a.value.precision != 0 {
      comparisons := [Comparison(AtLeast, a.value.version)];
    }
    if b.value.precision == 3 {
      comparisons := comparisons + [Comparison(AtMost, b.value.version)];
    } else if b.value.precision != 0 {
      var position := b.value.precision - 1;
      if b.value.core[position] == MAX_COMPONENT {
        return Raised("npm version component exceeds the SemVer integer limit");
      }
      comparisons := comparisons + [Comparison(Less, DashZero(Upper(b.value.core, position)))];
    }
    r := Ok(CompiledArm(comparisons, Declared(a.value) + Declared(b.value)));
    HyphenCompiles(a.value, b.value, r.value);
  }

  method CompileTokens(tokens: seq<Token>) returns (r: Result<CompiledArm>)
    ensures r.Ok? <==> SupportedArm(Comparators(tokens))
    ensures r.Ok? ==> Compiles(Comparators(tokens), r.value)
  {
    if |tokens| > 64 {
      return Raised("npm comparator count exceeds its limit");
    }
    var comparisons: seq<Comparison>, prereleases: set<seq<nat>> := [], {};
    for i := 0 to |tokens|
      invariant forall j :: 0 <= j < i ==> SupportedToken(tokens[j])
      invariant Satisfying(comparisons) == CommonMeaning(tokens, i) && prereleases == AllDeclared(tokens, i)
    {
      var more := CompileToken(tokens[i]);
      if more.Raised? {
        return Raised(more.reason);
      }
      SatisfyingBoth(comparisons, more.value);
      comparisons := comparisons + more.value;
      prereleases := prereleases + DeclaredBy(tokens[i]);
    }
    r := Ok(CompiledArm(comparisons, prereleases));
  }

  method CompileToken(token: Token) returns (r: Result<seq<Comparison>>)
    ensures r.Ok? <==> SupportedToken(token)
    ensures r.Ok? ==> Satisfying(r.value) == TokenMeaning(token)
  {
    if token.bound.Raised? {
      return Raised(token.bound.reason);
    }
    RaisesOnOverflow(token.operator, token.bound.value);
    r := TokenComparisons(token.operator, token.bound.value);
    if r.Ok? {
      forall v ensures AllHold(r.value, v) <==> Reads(token, v) {
        TokenReading(token.operator, token.bound.value, v);
      }
    }
  }

  /** One arm of a range. */
  method CompileArm(arm: Arm) returns (r: Result<CompiledArm>)
    ensures r.Ok? <==> SupportedArm(arm)
    ensures r.Ok? ==> Compiles(arm, r.value)
  {
    match arm {
      case Hyphen(low, high) => r := CompileHyphen(low, high);
      case Comparators(tokens) => r := CompileTokens(tokens);
    }
  }

  /** `npm_range`. */
  method CompileRange(texts: seq<ArmText>) returns (r: Result<seq<CompiledArm>>)
    ensures r.Ok? <==> |texts| <= 16 && forall i :: 0 <= i < |texts| ==> SupportedArm(ReadArm(texts[i]))
    ensures r.Ok? ==> |r.value| == |texts| && forall i :: 0 <= i < |texts| ==> Compiles(ReadArm(texts[i]), r.value[i])
  {
    if |texts| > 16 {
      return Raised("invalid npm range bounds");
    }
    r := CompileEach(texts);
    if r.Ok? {
      FormsCompile(texts, r.value);
    }
  }

  method CompileEach(texts: seq<ArmText>) returns (r: Result<seq<CompiledArm>>)
    ensures r.Ok? ==> |r.value| == |texts| && forall j :: 0 <= j < |texts| ==> r.value[j] in CompiledForms(texts[j])
    ensures r.Raised? ==> exists i :: 0 <= i < |texts| && !SupportedArm(ReadArm(texts[i]))
  {
    var compiled: seq<CompiledArm> := [];
    for i := 0 to |texts|
      invariant |compiled| == i && forall j :: 0 <= j < i ==> compiled[j] in CompiledForms(texts[j])
    {
      var arm := CompileText(texts[i]);
      if arm.Raised? {
        return Raised(arm.reason);
      }
      compiled := compiled + [arm.value];
    }
    return Ok(compiled);
  }

  method CompileText(text: ArmText) returns (r: Result<CompiledArm>)
    ensures r.Ok? <==> SupportedArm(ReadArm(text))
    ensures r.Ok? ==> r.value in CompiledForms(text)
  {
    r := CompileArm(ReadArm(text));
  }

  lemma FormsCompile(texts: seq<ArmText>, compiled: seq<CompiledArm>)
    requires |compiled| == |texts| && forall j :: 0 <= j < |texts| ==> compiled[j] in CompiledForms(texts[j])
    ensures forall i :: 0 <= i < |texts| ==> SupportedArm(ReadArm(texts[i])) && Compiles(ReadArm(texts[i]), compiled[i])
  {
  }

  /** The compiled arms that stand for a supported text. */
  ghost function CompiledForms(text: ArmText): iset<CompiledArm> {
    iset arm | SupportedArm(ReadArm(text)) && Compiles(ReadArm(text), arm)
  }

  /** Compiling a supported range and matching a version against it reads the range directly. */
  method Matches(version: Version, texts: seq<ArmText>) returns (r: Result<bool>)
    ensures r.Ok? <==> |texts| <= 16 && forall i :: 0 <= i < |texts| ==> SupportedArm(ReadArm(texts[i]))
    ensures r.Ok? ==> (r.value <==> exists i :: 0 <= i < |texts| && ArmReads(ReadArm(texts[i]), version))
  {
    var compiled := CompileRange(texts);
    if compiled.Raised? {
      return Raised(compiled.reason);
    }
    var matches := NpmMatches(version, compiled.value);
    forall i | 0 <= i < |texts|
      ensures ArmMatches(version, compiled.value[i]) <==> ArmReads(ReadArm(texts[i]), version)
    {
      CompiledMatches(ReadArm(texts[i]), compiled.value[i], version);
    }
    return Ok(matches);
  }

  // ------------------------------------------------------------ direct reading

  /** The cores an operand declares prereleases for. */
  function Declared(b: Bound): set<seq<nat>> { if b.version.pre != [] then {b.core} else {} }

  function DeclaredBy(t: Token): set<seq<nat>> { if t.bound.Ok? then Declared(t.bound.value) else {} }

  /** The cores an arm declares prereleases for. */
  function DeclaredCores(arm: Arm): set<seq<nat>> {
    match arm
    case Hyphen(low, high) => DeclaredBy(Token(Equal, low)) + DeclaredBy(Token(Equal, high))
    case Comparators(tokens) => AllDeclared(tokens, |tokens|)
  }

  function AllDeclared(tokens: seq<Token>, n: nat): set<seq<nat>>
    requires n <= |tokens|
  {
    if n == 0 then {} else AllDeclared(tokens, n - 1) + DeclaredBy(tokens[n - 1])
  }

  /** The versions that pass every comparator of an arm. */
  ghost function Meaning(arm: Arm): iset<Version> {
    match arm
    case Hyphen(low, high) => iset v | low.Ok? && high.Ok? && ReadsHyphen(low.value, high.value, v)
    case Comparators(tokens) => CommonMeaning(tokens, |tokens|)
  }

  /** The versions that the first n tokens all read as. */
  ghost function CommonMeaning(tokens: seq<Token>, n: nat): iset<Version>
    requires n <= |tokens|
  {
    if n == 0 then Satisfying([]) else CommonMeaning(tokens, n - 1) * TokenMeaning(tokens[n - 1])
  }

  /** The versions an arm admits: they pass its comparators, and a prerelease is admitted
      only by an operand of the arm with a prerelease of the same core. */
  ghost predicate ArmReads(arm: Arm, v: Version) {
    v in Meaning(arm) && (v.pre == [] || v.Core() in DeclaredCores(arm))
  }

  /** The versions a token reads as. */
  ghost function TokenMeaning(t: Token): iset<Version> { iset v | Reads(t, v) }

  ghost predicate Reads(t: Token, v: Version) { t.bound.Ok? && ReadsBound(t.operator, t.bound.value, v) }

  /** Precedence of versions: section 11 of Semantic Versioning 2.0.0, by KeyCmpIsPrecedence. */
  predicate Below(x: Version, y: Version) { KeyCmp(x, y) < 0 }

  lemma BelowIsPrecedence(x: Version, y: Version)
    ensures Below(x, y) <==> Precedes(x, y)
  {
    KeyCmpIsPrecedence(x, y);
  }

  lemma OrderFacts(x: Version, y: Version)
    ensures KeyCmp(x, y) == -KeyCmp(y, x)
    ensures KeyCmp(x, y) == 0 <==> x == y
  {
    KeyCmpIsPrecedence(x, y);
  }

  /** At least the operand, counting an unwritten component as 0. */
  predicate NotBelow(v: Version, b: Bound) { !Below(v, b.version) }

  /** The first n components of the version are those of the operand. */
  ghost predicate Agrees(v: Version, b: Bound, n: nat)
    requires n <= 3
  {
    v.Core()[..n] == b.core[..n]
  }

  /** Lexicographic order of components. */
  predicate PrefixBelow(x: seq<nat>, y: seq<nat>)
    requires |x| == |y|
  {
    CoreCmp(x, y) < 0
  }

  /** How many leading components a caret leaves fixed: up to and including the first
      non-zero one that is written, or all written ones. */
  ghost predicate CaretFixes(b: Bound, n: nat)
  {
    && 1 <= n <= b.precision
    && (forall i :: 0 <= i < n - 1 ==> b.core[i] == 0)
    && (b.core[n - 1] != 0 || n == b.precision)
  }

  ghost predicate ReadsBound(operator: Operator, b: Bound, v: Version)
  {
    var p := b.precision;
    if p == 0 then operator !in {Less, Greater}
    else match operator
      case Caret => NotBelow(v, b) && exists n :: CaretFixes(b, n) && Agrees(v, b, n)
      case Tilde => NotBelow(v, b) && Agrees(v, b, if p == 1 then 1 else 2)
      case Equal => if p == 3 then v == b.version else NotBelow(v, b) && Agrees(v, b, p)
      case AtLeast => NotBelow(v, b)
      case Less => if p == 3 then Below(v, b.version) else PrefixBelow(v.Core()[..p], b.core[..p])
      case AtMost => if p == 3 then !Below(b.version, v) else !PrefixBelow(b.core[..p], v.Core()[..p])
      case Greater =>
        if p == 3 then Below(b.version, v)
        else
          // Above every version with these components, and not a prerelease of the next.
          PrefixBelow(b.core[..p], v.Core()[..p]) && !(v.pre != [] && v.Core() == Upper(b.core, p - 1))
  }

  ghost predicate ReadsHyphen(low: Bound, high: Bound, v: Version)
  {
    && (low.precision == 0 || NotBelow(v, low))
    && (high.precision == 0
        || if high.precision == 3 then !Below(high.version, v)
           else !PrefixBelow(high.core[..high.precision], v.Core()[..high.precision]))
  }

  // ------------------------------------------------------------- what is supported

  ghost predicate SupportedToken(t: Token) { t.bound.Ok? && !Overflows(t.operator, t.bound.value) }

  /** The token needs the successor of a component that is already the largest. */
  ghost predicate Overflows(operator: Operator, b: Bound)
  {
    var p := b.precision;
    p != 0 && match operator
    case Caret => exists n :: CaretFixes(b, n) && b.core[n - 1] == MAX_COMPONENT
    case Tilde => b.core[if p == 1 then 0 else 1] == MAX_COMPONENT
    case Equal => p < 3 && b.core[p - 1] == MAX_COMPONENT
    case AtMost => p < 3 && b.core[p - 1] == MAX_COMPONENT
    case Greater => p < 3 && b.core[p - 1] == MAX_COMPONENT
    case _ => false
  }

  ghost predicate SupportedArm(arm: Arm) {
    match arm
    case Hyphen(low, high) =>
      && low.Ok? && high.Ok?
      && (0 < high.value.precision < 3 ==> high.value.core[high.value.precision - 1] < MAX_COMPONENT)
    case Comparators(tokens) => |tokens| <= 64 && forall i :: 0 <= i < |tokens| ==> SupportedToken(tokens[i])
  }

  ghost function Satisfying(cs: seq<Comparison>): iset<Version> { iset v | AllHold(cs, v) }

  /** The compiled arm passes and admits what the arm says. */
  ghost predicate Compiles(arm: Arm, compiled: CompiledArm) {
    Satisfying(compiled.comparisons) == Meaning(arm) && compiled.prereleases == DeclaredCores(arm)
  }

  lemma CompiledMatches(arm: Arm, compiled: CompiledArm, v: Version)
    requires Compiles(arm, compiled)
    ensures ArmMatches(v, compiled) <==> ArmReads(arm, v)
  {
    assert v in Satisfying(compiled.comparisons) <==> AllHold(compiled.comparisons, v);
  }

  /** Passing every comparator of an arm is reading as each of its tokens. */
  lemma {:induction false} ReadsEach(tokens: seq<Token>, n: nat, v: Version, j: nat)
    requires j < n <= |tokens| && v in CommonMeaning(tokens, n)
    ensures v in TokenMeaning(tokens[j])
  {
    if j < n - 1 {
      ReadsEach(tokens, n - 1, v, j);
    }
  }

  lemma {:induction false} ReadsAll(tokens: seq<Token>, n: nat, v: Version)
    requires n <= |tokens| && forall j :: 0 <= j < n ==> v in TokenMeaning(tokens[j])
    ensures v in CommonMeaning(tokens, n)
  {
    if n > 0 {
      ReadsAll(tokens, n - 1, v);
    }
  }

  // ------------------------------------------------------------------- the proof

  lemma SatisfyingBoth(a: seq<Comparison>, b: seq<Comparison>)
    ensures Satisfying(a + b) == Satisfying(a) * Satisfying(b)
  {
    forall v ensures AllHold(a + b, v) <==> AllHold(a, v) && AllHold(b, v) {
      AllHoldSplits(a, b, v);
    }
  }

  ghost function LowComparisons(b: Bound): seq<Comparison> {
    if b.precision == 0 then [] else [Comparison(AtLeast, b.version)]
  }

  ghost function HighComparisons(b: Bound): seq<Comparison>
  {
    if b.precision == 0 then []
    else if b.precision == 3 then [Comparison(AtMost, b.version)]
    else [Comparison(Less, DashZero(Upper(b.core, b.precision - 1)))]
  }

  lemma HyphenCompiles(low: Bound, high: Bound, compiled: CompiledArm)
    requires compiled.comparisons == LowComparisons(low) + HighComparisons(high)
    requires compiled.prereleases == Declared(low) + Declared(high)
    ensures Compiles(Hyphen(Ok(low), Ok(high)), compiled)
  {
    forall v ensures AllHold(compiled.comparisons, v) <==> ReadsHyphen(low, high, v) {
      HyphenHolds(low, high, v);
    }
  }

  lemma HyphenHolds(low: Bound, high: Bound, v: Version)
    ensures AllHold(LowComparisons(low) + HighComparisons(high), v) <==> ReadsHyphen(low, high, v)
  {
    HyphenReading(low, high, v);
    AllHoldSplits(LowComparisons(low), HighComparisons(high), v);
    AllHoldFew(LowComparisons(low), v);
    AllHoldFew(HighComparisons(high), v);
  }

  lemma AllHoldSplits(a: seq<Comparison>, b: seq<Comparison>, v: Version)
    ensures AllHold(a + b, v) <==> AllHold(a, v) && AllHold(b, v)
  {
    if AllHold(a + b, v) {
      assert forall i :: 0 <= i < |a| ==> a[i] == (a + b)[i];
      assert forall i :: 0 <= i < |b| ==> b[i] == (a + b)[|a| + i];
    }
  }

  /** A `-0` bound excludes its core, every prerelease of it and everything above. */
  lemma DashZeroBound(v: Version, core: seq<nat>)
    requires |core| == 3
    ensures KeyCmp(v, DashZero(core)) < 0 <==> CoreCmp(v.Core(), core) < 0
  {
    CoreCmpUnfolds(v.Core(), core);
    assert DashZero(core).Core() == core;
    if v.pre != [] {
      assert [Numeric(0)][1..] == [];
      assert PreCmp(v.pre, [Numeric(0)]) == if IdentifierCmp(v.pre[0], Numeric(0)) != 0
                                            then IdentifierCmp(v.pre[0], Numeric(0)) else PreCmp(v.pre[1..], []);
    }
  }

  lemma CoreCmpIsPrefixBelow(x: seq<nat>, y: seq<nat>, p: nat)
    requires |x| == |y| == 3 && 0 < p <= 3
    ensures PrefixBelow(x[..p], y[..p]) <==>
              x[0] < y[0] || (p > 1 && x[0] == y[0] && x[1] < y[1])
                  || (p > 2 && x[0] == y[0] && x[1] == y[1] && x[2] < y[2])
    ensures x[..p] == y[..p] <==> x[0] == y[0] && (p > 1 ==> x[1] == y[1]) && (p > 2 ==> x[2] == y[2])
  {
    var a, b := x[..p], y[..p];
    assert CoreCmp(a, b) == if x[0] != y[0] then Sign(x[0], y[0]) else CoreCmp(a[1..], b[1..]);
    if p > 1 {
      assert CoreCmp(a[1..], b[1..]) == if x[1] != y[1] then Sign(x[1], y[1]) else CoreCmp(a[2..], b[2..]) by {
        assert a[1..][1..] == a[2..] && b[1..][1..] == b[2..];
      }
    }
    if p > 2 {
      assert CoreCmp(a[2..], b[2..]) == Sign(x[2], y[2]) by {
        assert a[2..][1..] == [] && b[2..][1..] == [];
      }
    }
  }

  /** Below the `-0` increment at a position means not above the components up to it. */
  lemma BelowUpper(v: Version, core: seq<nat>, position: nat)
    requires |core| == 3 && position < 3
    ensures KeyCmp(v, DashZero(Upper(core, position))) < 0
            <==> !PrefixBelow(core[..position + 1], v.Core()[..position + 1])
  {
    DashZeroBound(v, Upper(core, position));
    CoreCmpUnfolds(v.Core(), Upper(core, position));
    CoreCmpIsPrefixBelow(core, v.Core(), position + 1);
  }

  /** At least the operand and below the `-0` increment: the components up to the position agree. */
  lemma BetweenReading(b: Bound, position: nat, v: Version)
    requires position < 3
    ensures KeyCmp(v, b.version) >= 0 && KeyCmp(v, DashZero(Upper(b.core, position))) < 0
            <==> NotBelow(v, b) && Agrees(v, b, position + 1)
  {
    OrderFacts(v, b.version);
    BelowUpper(v, b.core, position);
    CoreCmpUnfolds(v.Core(), b.core);
    CoreCmpIsPrefixBelow(b.core, v.Core(), position + 1);
  }

  lemma CaretFixesPosition(b: Bound)
    requires b.precision > 0
    ensures forall n :: CaretFixes(b, n) <==> n == CaretPosition(b.core, b.precision) + 1
  {
  }

  /** A token is refused exactly when it needs a successor that is too large. */
  lemma RaisesOnOverflow(operator: Operator, b: Bound)
    ensures TokenComparisons(operator, b).Ok? <==> !Overflows(operator, b)
  {
    if b.precision > 0 && operator == Caret {
      CaretFixesPosition(b);
      assert CaretFixes(b, CaretPosition(b.core, b.precision) + 1);
    }
  }

  lemma AllHoldFew(cs: seq<Comparison>, v: Version)
    requires |cs| <= 2
    ensures AllHold(cs, v) <==> (|cs| > 0 ==> Holds(cs[0], v)) && (|cs| > 1 ==> Holds(cs[1], v))
  {
  }

  /** The comparators of a token say what the token says. */
  lemma TokenReading(operator: Operator, b: Bound, v: Version)
    requires TokenComparisons(operator, b).Ok?
    ensures AllHold(TokenComparisons(operator, b).value, v) <==> ReadsBound(operator, b, v)
  {
    var p := b.precision;
    AllHoldFew(TokenComparisons(operator, b).value, v);
    if p == 0 {
      NothingBelowZero(v);
    } else if operator == Caret {
      CaretFixesPosition(b);
      BetweenReading(b, CaretPosition(b.core, p), v);
      assert CaretFixes(b, CaretPosition(b.core, p) + 1);
    } else if operator == Tilde {
      BetweenReading(b, if p == 1 then 0 else 1, v);
    } else {
      ComparatorReading(operator, b, v);
    }
  }

  lemma ComparatorReading(operator: Operator, b: Bound, v: Version)
    requires b.precision > 0 && operator !in {Caret, Tilde} && TokenComparisons(operator, b).Ok?
    ensures var cs := TokenComparisons(operator, b).value;
            && 1 <= |cs| <= 2
            && (Holds(cs[0], v) && (|cs| > 1 ==> Holds(cs[1], v)) <==> ReadsBound(operator, b, v))
  {
    var p := b.precision;
    OrderFacts(v, b.version);
    OrderFacts(b.version, v);
    if p < 3 {
      BetweenReading(b, p - 1, v);
      BelowUpper(v, b.core, p - 1);
      AboveUpper(v, b.core, p);
      BelowOperand(v, b);
    }
  }

  lemma NothingBelowZero(v: Version)
    ensures KeyCmp(v, DashZero([0, 0, 0])) >= 0
  {
    DashZeroBound(v, [0, 0, 0]);
    CoreCmpUnfolds(v.Core(), [0, 0, 0]);
  }

  lemma AboveUpper(v: Version, core: seq<nat>, p: nat)
    requires |core| == 3 && 0 < p < 3
    ensures KeyCmp(v, Release(Upper(core, p - 1))) >= 0 <==>
              PrefixBelow(core[..p], v.Core()[..p]) && !(v.pre != [] && v.Core() == Upper(core, p - 1))
  {
    var bound := Release(Upper(core, p - 1));
    assert bound.Core() == Upper(core, p - 1);
    CoreCmpUnfolds(v.Core(), bound.Core());
    CoreCmpIsPrefixBelow(core, v.Core(), p);
  }

  lemma BelowOperand(v: Version, b: Bound)
    requires 0 < b.precision < 3
    ensures KeyCmp(v, DashZero(b.core)) < 0 <==> PrefixBelow(v.Core()[..b.precision], b.core[..b.precision])
  {
    DashZeroBound(v, b.core);
    CoreCmpUnfolds(v.Core(), b.core);
    CoreCmpIsPrefixBelow(v.Core(), b.core, b.precision);
  }

  lemma HyphenReading(low: Bound, high: Bound, v: Version)
    ensures KeyCmp(v, low.version) >= 0 <==> NotBelow(v, low)
    ensures KeyCmp(v, high.version) <= 0 <==> !Below(high.version, v)
    ensures 0 < high.precision < 3 ==>
              (KeyCmp(v, DashZero(Upper(high.core, high.precision - 1))) < 0
               <==> !PrefixBelow(high.core[..high.precision], v.Core()[..high.precision]))
  {
    OrderFacts(v, low.version);
    OrderFacts(high.version, v);
    if 0 < high.precision < 3 {
      BelowUpper(v, high.core, high.precision - 1);
    }
    OrderFacts(v, high.version);
  }
}
