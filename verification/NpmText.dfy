/** npm versions and ranges as texts: how `npm_version` and `npm_range` of
    tools/inventory_apt.py take them apart. */
module NpmText {
  import opened Outcomes
  import opened Texts
  import opened SemVer
  import opened NpmRange

  const MAX_VERSION := 256
  const MAX_RANGE := 4096

  // ------------------------------------------------------------------- versions

  /** A number without a leading zero. */
  predicate NumberText(s: string) { s != "" && AllDigits(s) && (s[0] == '0' ==> |s| == 1) }

  /** The dotted texts of a version, before and after its first dash. */
  datatype Parts = Parts(core: seq<string>, pre: seq<string>) {
    predicate Grammatical() {
      && |core| == 3 && (forall i :: 0 <= i < 3 ==> NumberText(core[i]))
      && forall i :: 0 <= i < |pre| ==> IdentifierText(pre[i])
    }

    function Core(): seq<nat>
      requires Grammatical()
    {
      [Value(core[0]), Value(core[1]), Value(core[2])]
    }

    /** How the version is written. */
    function Text(): string
      requires core != []
    {
      Join(core) + if pre == [] then "" else "-" + Join(pre)
    }
  }

  function Join(parts: seq<string>): string
    requires parts != []
  {
    if |parts| == 1 then parts[0] else parts[0] + ['.'] + Join(parts[1..])
  }

  function FirstDash(s: string): (k: nat)
    ensures k <= |s| && (k < |s| ==> s[k] == '-') && forall i :: 0 <= i < k ==> s[i] != '-'
  {
    if s == "" || s[0] == '-' then 0 else 1 + FirstDash(s[1..])
  }

  function PartsOf(s: string): Parts {
    var k := FirstDash(s);
    Parts(Pieces(s[..k], '.'), if k < |s| then Pieces(s[k + 1..], '.') else [])
  }

  /** str.removeprefix('v'). */
  function Unprefixed(s: string): string { if s != "" && s[0] == 'v' then s[1..] else s }

  /** `npm_version`. */
  function ReadVersion(text: string): Result<Version> {
    if |text| > MAX_VERSION then Raised("invalid npm version bounds")
    else
      var parts := PartsOf(Unprefixed(text));
      if !parts.Grammatical() then Raised("unsupported npm version syntax") else NpmVersion(parts.Core(), parts.pre)
  }

  lemma {:induction false} JoinPieces(s: string)
    ensures Join(Pieces(s, '.')) == s
  {
    if s != "" {
      var parts := Pieces(s[1..], '.');
      JoinPieces(s[1..]);
      if s[0] == '.' {
        assert Pieces(s, '.')[1..] == parts;
      } else if |parts| > 1 {
        assert Pieces(s, '.')[1..] == parts[1..];
      }
    }
  }

  lemma {:induction false} PiecesJoin(parts: seq<string>)
    requires parts != [] && forall i :: 0 <= i < |parts| ==> '.' !in parts[i]
    ensures Pieces(Join(parts), '.') == parts
  {
    if |parts| == 1 {
      PiecesPlain(parts[0], '.');
    } else {
      PiecesFirst(parts[0], Join(parts[1..]), '.');
      PiecesJoin(parts[1..]);
    }
  }

  lemma {:induction false} FirstDashIs(s: string, rest: string)
    requires '-' !in s && (rest == "" || rest[0] == '-')
    ensures FirstDash(s + rest) == |s|
  {
    if s == "" {
      assert s + rest == rest;
    } else {
      FirstDashIs(s[1..], rest);
      assert (s + rest)[1..] == s[1..] + rest;
    }
  }

  lemma {:induction false} JoinHas(parts: seq<string>, c: char)
    requires parts != [] && c != '.' && forall i :: 0 <= i < |parts| ==> c !in parts[i]
    ensures c !in Join(parts)
  {
    if |parts| > 1 {
      JoinHas(parts[1..], c);
    }
  }

  /** What is written is taken apart as it was. */
  lemma PartsOfText(parts: Parts)
    requires parts.Grammatical()
    ensures PartsOf(parts.Text()) == parts && parts.Text() != "" && Digit(parts.Text()[0])
  {
    var core, rest := Join(parts.core), if parts.pre == [] then "" else "-" + Join(parts.pre);
    JoinHas(parts.core, '-');
    FirstDashIs(core, rest);
    assert (core + rest)[..|core|] == core;
    PiecesJoin(parts.core);
    assert core[0] == parts.core[0][0];
    if parts.pre != [] {
      assert (core + rest)[|core| + 1..] == Join(parts.pre);
      PiecesJoin(parts.pre);
    }
  }

  /** And what is taken apart into grammatical parts was written so. */
  lemma TextOfParts(s: string)
    requires PartsOf(s).Grammatical()
    ensures PartsOf(s).Text() == s
  {
    var k := FirstDash(s);
    JoinPieces(s[..k]);
    if k < |s| {
      JoinPieces(s[k + 1..]);
      assert s == s[..k] + ("-" + s[k + 1..]);
    } else {
      assert s[..k] == s;
    }
  }

  /** The texts that spell these parts, with or without the prefix. */
  predicate Spells(text: string, parts: Parts) {
    parts.Grammatical() && (text == parts.Text() || text == "v" + parts.Text())
  }

  lemma SpellsItsParts(text: string, parts: Parts)
    requires Spells(text, parts)
    ensures PartsOf(Unprefixed(text)) == parts
  {
    PartsOfText(parts);
    assert ("v" + parts.Text())[1..] == parts.Text();
  }

  /** A text is a version exactly when it spells acceptable parts, and then it is theirs. */
  lemma VersionIsSpelled(text: string, v: Version)
    ensures ReadVersion(text) == Ok(v) <==>
              && |text| <= MAX_VERSION
              && exists parts :: Spells(text, parts) && NpmVersion(parts.Core(), parts.pre) == Ok(v)
  {
    var parts := PartsOf(Unprefixed(text));
    if ReadVersion(text) == Ok(v) {
      TextOfParts(Unprefixed(text));
      assert text == Unprefixed(text) || text == "v" + Unprefixed(text);
      assert Spells(text, parts);
    }
    if other :| Spells(text, other) && NpmVersion(other.Core(), other.pre) == Ok(v) {
      SpellsItsParts(text, other);
    }
  }

  // --------------------------------------------------------- versions written out

  /** A version whose textual identifiers could not be numbers. */
  predicate Writable(v: Version) {
    && (forall i :: 0 <= i < 3 ==> v.Core()[i] <= MAX_COMPONENT)
    && forall i :: 0 <= i < |v.pre| && v.pre[i].Textual? ==> IdentifierText(v.pre[i].text) && !AllDigits(v.pre[i].text)
  }

  function IdentifierWritten(i: Identifier): string {
    match i
    case Numeric(n) => Decimal(n)
    case Textual(s) => s
  }

  function Written(v: Version): Parts {
    Parts([Decimal(v.major), Decimal(v.minor), Decimal(v.patch)],
          seq(|v.pre|, i requires 0 <= i < |v.pre| => IdentifierWritten(v.pre[i])))
  }

  lemma {:induction false} DecimalIsNumber(n: nat)
    ensures NumberText(Decimal(n)) && (n > 0 ==> Decimal(n)[0] != '0')
  {
    if n >= 10 {
      DecimalIsNumber(n / 10);
    }
  }

  lemma WrittenIdentifier(i: Identifier)
    requires i.Textual? ==> IdentifierText(i.text) && !AllDigits(i.text)
    ensures AcceptableIdentifier(IdentifierWritten(i)) && ReadIdentifier(IdentifierWritten(i)) == i
  {
    if i.Numeric? {
      DecimalIsNumber(i.number);
      DecimalReads(i.number);
    }
  }

  lemma WrittenIsAcceptable(v: Version)
    requires Writable(v)
    ensures Written(v).Grammatical() && NpmVersion(Written(v).Core(), Written(v).pre) == Ok(v)
  {
    var parts := Written(v);
    forall n | n in v.Core() ensures NumberText(Decimal(n)) && Value(Decimal(n)) == n {
      DecimalIsNumber(n);
      DecimalReads(n);
    }
    assert v.major in v.Core() && v.minor in v.Core() && v.patch in v.Core();
    forall i | 0 <= i < |v.pre| ensures AcceptableIdentifier(parts.pre[i]) && ReadIdentifier(parts.pre[i]) == v.pre[i] {
      WrittenIdentifier(v.pre[i]);
    }
    assert parts.Core() == v.Core();
    assert NpmVersion(parts.Core(), parts.pre).value.pre == v.pre;
  }

  /** A version that is written out, within the length bound, is read back as itself. */
  lemma WrittenIsRead(v: Version)
    requires Writable(v) && |Written(v).Text()| <= MAX_VERSION
    ensures ReadVersion(Written(v).Text()) == Ok(v)
  {
    WrittenIsAcceptable(v);
    SpellsItsParts(Written(v).Text(), Written(v));
  }

  /** The texts of the bounds that `npm_range` writes: three numbers, with or without `-0`. */
  function BoundParts(core: seq<nat>, dashZero: bool): Parts
    requires |core| == 3
  {
    Parts([Decimal(core[0]), Decimal(core[1]), Decimal(core[2])], if dashZero then ["0"] else [])
  }

  function Power(k: nat): nat { if k == 0 then 1 else 10 * Power(k - 1) }

  lemma {:induction false} PowerJoins(a: nat, b: nat)
    ensures Power(a + b) == Power(a) * Power(b)
  {
    if a > 0 {
      PowerJoins(a - 1, b);
    }
  }

  lemma {:induction false} DecimalLength(n: nat, k: nat)
    requires n < Power(k + 1)
    ensures |Decimal(n)| <= k + 1
  {
    if n >= 10 {
      DecimalLength(n / 10, k - 1);
    }
  }

  lemma ComponentLength(n: nat)
    requires n <= MAX_COMPONENT + 1
    ensures |Decimal(n)| <= 16
  {
    assert Power(4) == 10 * Power(3) && Power(3) == 10 * Power(2) && Power(2) == 10 * Power(1);
    PowerJoins(4, 4);
    PowerJoins(8, 8);
    DecimalLength(n, 15);
  }

  lemma JoinThree(parts: seq<string>)
    requires |parts| == 3
    ensures |Join(parts)| == |parts[0]| + |parts[1]| + |parts[2]| + 2
  {
    var tail := parts[1..];
    assert tail[1..] == [parts[2]] && Join(tail) == parts[1] + ['.'] + Join(tail[1..]);
    assert Join(parts) == parts[0] + ['.'] + Join(tail);
  }

  /** Reading back the text of a bound, an increment over the limit included, gives the bound
      that was meant, or raises because of the limit. */
  lemma BoundIsRead(core: seq<nat>, dashZero: bool)
    requires |core| == 3 && forall i :: 0 <= i < 3 ==> core[i] <= MAX_COMPONENT + 1
    ensures ReadVersion(BoundParts(core, dashZero).Text()) == NpmVersion(core, if dashZero then ["0"] else [])
  {
    var parts := BoundParts(core, dashZero);
    forall n | n in core ensures NumberText(Decimal(n)) && Value(Decimal(n)) == n && |Decimal(n)| <= 16 {
      DecimalIsNumber(n);
      DecimalReads(n);
      ComponentLength(n);
    }
    assert core[0] in core && core[1] in core && core[2] in core;
    assert parts.Core() == core;
    JoinThree(parts.core);
    SpellsItsParts(parts.Text(), parts);
  }

  // ------------------------------------------------------------------- operands

  predicate WildcardText(s: string) { s == "*" || s == "x" || s == "X" }

  function ComponentOf(s: string): Component
    requires WildcardText(s) || NumberText(s)
  {
    if WildcardText(s) then Wildcard else Number(Value(s))
  }

  function ComponentsOf(parts: seq<string>): seq<Component>
    requires forall i :: 0 <= i < |parts| ==> WildcardText(parts[i]) || NumberText(parts[i])
  {
    seq(|parts|, i requires 0 <= i < |parts| => ComponentOf(parts[i]))
  }

  /** What `partial` takes an operand's text for; a dash makes it a full version. */
  function OperandOf(text: string): Result<Operand> {
    var t := Unprefixed(text);
    if '-' in t then
      var parts := PartsOf(Unprefixed(t));
      if |t| > MAX_VERSION || !parts.Grammatical() then Raised("unsupported npm version syntax")
      else Ok(Full(parts.Core(), parts.pre))
    else
      var parts := Pieces(t, '.');
      if |parts| > 3 then Raised("unsupported npm partial-version syntax")
      else if exists i :: 0 <= i < |parts| && !WildcardText(parts[i]) && !NumberText(parts[i])
      then Raised("unsupported npm partial-version component")
      else Ok(Partial(ComponentsOf(parts)))
  }

  // ------------------------------------------------------------ words and tokens

  predicate Blank(s: string) { forall i :: 0 <= i < |s| ==> Space(s[i]) }

  predicate OperatorCharacter(c: char) { c in "<>=~^" }

  /** How long the word is that a text begins with. */
  function WordLength(s: string): (n: nat)
    ensures n <= |s| && (n < |s| ==> Space(s[n])) && forall i :: 0 <= i < n ==> !Space(s[i])
  {
    if s == "" || Space(s[0]) then 0 else 1 + WordLength(s[1..])
  }

  /** str.split() */
  function Words(s: string): seq<string>
    decreases |s|
  {
    if s == "" then []
    else if Space(s[0]) then Words(s[1..])
    else [s[..WordLength(s)]] + Words(s[WordLength(s)..])
  }

  /** str.replace('~>', '~') */
  function Arrowless(s: string): string
    decreases |s|
  {
    if s == "" then ""
    else if |s| > 1 && s[0] == '~' && s[1] == '>' then ['~'] + Arrowless(s[2..])
    else [s[0]] + Arrowless(s[1..])
  }

  /** The substitution that drops the white space after each operator character. */
  function Glued(s: string): string
    decreases |s|
  {
    if s == "" then ""
    else if OperatorCharacter(s[0]) then [s[0]] + Glued(Stripped(s[1..]))
    else [s[0]] + Glued(s[1..])
  }

  /** An operator is read only where something follows it. */
  function TokenOf(word: string): (Operator, string) {
    if |word| > 2 && word[0] == '<' && word[1] == '=' then (AtMost, word[2..])
    else if |word| > 2 && word[0] == '>' && word[1] == '=' then (AtLeast, word[2..])
    else if |word| > 1 && word[0] == '<' then (Less, word[1..])
    else if |word| > 1 && word[0] == '>' then (Greater, word[1..])
    else if |word| > 1 && word[0] == '=' then (Equal, word[1..])
    else if |word| > 1 && word[0] == '~' then (Tilde, word[1..])
    else if |word| > 1 && word[0] == '^' then (Caret, word[1..])
    else (Equal, word)
  }

  // ---------------------------------------------------------------- arms and ranges

  /** The words of an arm that is no hyphen range. */
  function TokenWords(text: string): seq<string> {
    var words := Words(Glued(Arrowless(text)));
    if words == [] then ["*"] else words
  }

  /** What the words are taken for; one that is no token raises. */
  function ReadTokens(words: seq<string>): Result<seq<(Operator, Operand)>> {
    if words == [] then Ok([]) else
      var (operator, text) := TokenOf(words[0]);
      var operand, rest := OperandOf(text), ReadTokens(words[1..]);
      if operand.Raised? || rest.Raised? then Raised("unsupported npm comparator syntax")
      else Ok([(operator, operand.value)] + rest.value)
  }

  /** What the text of one arm is taken for. */
  function ArmOf(text: string): Result<ArmText> {
    var words := Words(text);
    if |words| == 3 && words[1] == "-" then
      var low, high := OperandOf(words[0]), OperandOf(words[2]);
      if low.Raised? || high.Raised? then Raised("unsupported npm hyphen range")
      else Ok(HyphenText(low.value, high.value))
    else
      match ReadTokens(TokenWords(text))
      case Raised(reason) => Raised(reason)
      case Ok(tokens) => Ok(ComparatorsText(tokens))
  }

  /** str.split('||') */
  function Arms(s: string): (arms: seq<string>)
    ensures |arms| >= 1
    decreases |s|
  {
    if s == "" then [""]
    else if |s| > 1 && s[0] == '|' && s[1] == '|' then [""] + Arms(s[2..])
    else
      var arms := Arms(s[1..]);
      [[s[0]] + arms[0]] + arms[1..]
  }

  function ReadArms(texts: seq<string>): Result<seq<ArmText>> {
    if texts == [] then Ok([]) else
      var arm, rest := ArmOf(texts[0]), ReadArms(texts[1..]);
      if arm.Raised? || rest.Raised? then Raised("unsupported npm range") else Ok([arm.value] + rest.value)
  }

  /** What the text of a range is taken for. */
  function RangeOf(text: string): Result<seq<ArmText>> {
    if |text| > MAX_RANGE || |Arms(text)| > 16 then Raised("invalid npm range bounds") else ReadArms(Arms(text))
  }

  lemma {:induction false} AsManyArms(texts: seq<string>)
    ensures ReadArms(texts).Ok? ==> |ReadArms(texts).value| == |texts|
  {
    if texts != [] {
      AsManyArms(texts[1..]);
    }
  }

  /** The range is read and all its arms are supported. */
  ghost predicate SupportedRange(text: string) {
    RangeOf(text).Ok? && forall i :: 0 <= i < |RangeOf(text).value| ==> SupportedArm(ReadArm(RangeOf(text).value[i]))
  }

  /** `npm_matches(npm_version(version), npm_range(range))`: it raises exactly for what is no
      version or no supported range, and otherwise reads the range directly. */
  method MatchesText(version: string, range: string) returns (r: Result<bool>)
    ensures r.Ok? <==> ReadVersion(version).Ok? && SupportedRange(range)
    ensures r.Ok? ==>
              (r.value <==> exists i :: 0 <= i < |RangeOf(range).value|
                                        && ArmReads(ReadArm(RangeOf(range).value[i]), ReadVersion(version).value))
  {
    var v := ReadVersion(version);
    if v.Raised? {
      return Raised(v.reason);
    }
    var arms := RangeOf(range);
    if arms.Raised? {
      return Raised(arms.reason);
    }
    AsManyArms(Arms(range));
    r := NpmRange.Matches(v.value, arms.value);
  }
}
