/** Debian version ordering: `version_compare` of tools/inventory.py.

    The comparison loop is proved to compute the zero-padded lexicographic order
    of two integer keys; everything an ordering should satisfy is then proved
    about that order. */
module DebianVersion {
  import opened Outcomes
  import opened Texts

  // ---------------------------------------------------------------- characters

  predicate Letter(c: char) { 'a' <= c <= 'z' || 'A' <= c <= 'Z' }

  /** `order` of the source: the empty string stands for "no character here". */
  function Order(x: string): (o: int)
    requires |x| <= 1
    ensures o == 0 <==> x == ""
  {
    if x == "~" then -1
    else if x == "" then 0
    else if Letter(x[0]) then x[0] as int
    else x[0] as int + 256
  }

  // ------------------------------------------------------------------- numbers

  /** The length of the match of `\d*` at the start of s. */
  function LeadingDigits(s: string): (n: nat)
    ensures n <= |s| && AllDigits(s[..n])
    ensures n < |s| ==> !Digit(s[n])
  {
    if s == "" || !Digit(s[0]) then 0 else
      var n := 1 + LeadingDigits(s[1..]);
      assert s[..n] == [s[0]] + s[1..][..n - 1];
      n
  }

  /** `lstrip('0')`. */
  function StripZeros(s: string): (t: string)
    ensures t == "" || t[0] != '0'
    ensures AllDigits(s) ==> AllDigits(t)
  {
    if s != "" && s[0] == '0' then StripZeros(s[1..]) else s
  }

  /** Comparison of the tuples (len(x), x) and (len(y), y). */
  function LengthFirstCmp(x: string, y: string): int {
    if |x| != |y| then Sign(|x|, |y|) else StrCmp(x, y)
  }

  lemma {:induction false} ValueDropsZero(s: string)
    requires s != "" && s[0] == '0' && AllDigits(s)
    ensures Value(s) == Value(s[1..])
  {
    if |s| > 1 {
      ValueDropsZero(s[..|s| - 1]);
      assert s[..|s| - 1][1..] == s[1..][..|s| - 2];
    }
  }

  lemma {:induction false} StripZerosValue(s: string)
    requires AllDigits(s)
    ensures Value(StripZeros(s)) == Value(s)
  {
    if s != "" && s[0] == '0' {
      ValueDropsZero(s);
      StripZerosValue(s[1..]);
    }
  }

  lemma {:induction false} LeadingNonzeroValue(s: string)
    requires s != "" && s[0] != '0' && AllDigits(s)
    ensures Value(s) > 0
  {
    if |s| > 1 { LeadingNonzeroValue(s[..|s| - 1]); }
  }

  lemma {:induction false} StrCmpLast(x: string, y: string)
    requires |x| == |y| > 0
    ensures var front := StrCmp(x[..|x| - 1], y[..|y| - 1]);
            StrCmp(x, y) == if front != 0 then front else Sign(x[|x| - 1] as int, y[|y| - 1] as int)
  {
    if |x| > 1 {
      StrCmpLast(x[1..], y[1..]);
      assert x[1..][..|x| - 2] == x[..|x| - 1][1..];
      assert y[1..][..|y| - 2] == y[..|y| - 1][1..];
    }
  }

  /** Comparing (length, text) of runs without leading zeros compares the numbers. */
  lemma {:induction false} LengthFirstIsNumeric(x: string, y: string)
    requires AllDigits(x) && AllDigits(y)
    requires x == "" || x[0] != '0'
    requires y == "" || y[0] != '0'
    ensures LengthFirstCmp(x, y) == Sign(Value(x), Value(y))
    decreases |x| + |y|
  {
    if x == "" || y == "" {
      if x != "" { LeadingNonzeroValue(x); }
      if y != "" { LeadingNonzeroValue(y); }
    } else {
      LengthFirstIsNumeric(x[..|x| - 1], y[..|y| - 1]);
      if |x| == |y| { StrCmpLast(x, y); }
    }
  }

  // ---------------------------------------------------------------------- keys

  /** The reading of one version part prescribed by section 5.6.12 of the Debian
      Policy Manual: alternating non-digit and digit runs. A non-digit run is
      listed character by character and closed by 0, a digit run is its number. */
  function PartKey(s: string): seq<int> {
    if s == "" then []
    else if Digit(s[0]) then
      var n := LeadingDigits(s);
      [0, Value(s[..n])] + PartKey(s[n..])
    else [Order(s[..1])] + PartKey(s[1..])
  }

  function Head(k: seq<int>): int { if k == [] then 0 else k[0] }

  function Tail(k: seq<int>): seq<int> { if k == [] then [] else k[1..] }

  /** Lexicographic comparison of two keys, each continued by zeros for ever. */
  function KeyCmp(x: seq<int>, y: seq<int>): int
    decreases |x| + |y|
  {
    if x == [] && y == [] then 0
    else if Head(x) != Head(y) then Sign(Head(x), Head(y))
    else KeyCmp(Tail(x), Tail(y))
  }

  /** The key without its trailing zeros. */
  function Trim(k: seq<int>): seq<int> {
    if k == [] then []
    else if k[0] == 0 && Trim(k[1..]) == [] then []
    else [k[0]] + Trim(k[1..])
  }

  lemma {:induction false} KeyCmpAntisymmetric(x: seq<int>, y: seq<int>)
    ensures KeyCmp(x, y) == -KeyCmp(y, x)
    decreases |x| + |y|
  {
    if !(x == [] && y == []) && Head(x) == Head(y) {
      KeyCmpAntisymmetric(Tail(x), Tail(y));
    }
  }

  lemma {:induction false} KeyCmpTransitive(x: seq<int>, y: seq<int>, z: seq<int>)
    requires KeyCmp(x, y) <= 0 && KeyCmp(y, z) <= 0
    ensures KeyCmp(x, z) <= 0
    ensures KeyCmp(x, z) == 0 <==> KeyCmp(x, y) == 0 && KeyCmp(y, z) == 0
    decreases |x| + |y| + |z|
  {
    if x == [] && y == [] && z == [] {
    } else if Head(x) == Head(y) == Head(z) {
      KeyCmpTransitive(Tail(x), Tail(y), Tail(z));
    }
  }

  lemma {:induction false} KeyTiesAreEqualTrims(x: seq<int>, y: seq<int>)
    ensures KeyCmp(x, y) == 0 <==> Trim(x) == Trim(y)
    decreases |x| + |y|
  {
    if !(x == [] && y == []) {
      KeyTiesAreEqualTrims(Tail(x), Tail(y));
      if x == [] {
        assert Trim(y) == [] <==> y[0] == 0 && Trim(y[1..]) == [];
      } else if y == [] {
        assert Trim(x) == [] <==> x[0] == 0 && Trim(x[1..]) == [];
      } else {
        assert Trim(x) != [] ==> Trim(x)[0] == x[0] && Trim(x)[1..] == Trim(x[1..]);
        assert Trim(y) != [] ==> Trim(y)[0] == y[0] && Trim(y)[1..] == Trim(y[1..]);
      }
    }
  }

  // ------------------------------------------------------------ the source loop

  method PartCompare(left: string, right: string) returns (r: int)
    ensures r == KeyCmp(PartKey(left), PartKey(right))
  {
    var a, b := left, right;
    ghost var verdict := KeyCmp(PartKey(a), PartKey(b));
    while a != "" || b != ""
      invariant verdict == KeyCmp(PartKey(a), PartKey(b))
      decreases |a| + |b|
    {
      ghost var a0, b0 := a, b;
      while (a != "" && !Digit(a[0])) || (b != "" && !Digit(b[0]))
        invariant verdict == KeyCmp(PartKey(a), PartKey(b))
        invariant (a == a0 && b == b0) || |a| + |b| < |a0| + |b0|
        decreases |a| + |b|
      {
        var x, y := LeadingCharacter(a), LeadingCharacter(b);
        CharacterStep(a, b);
        if Order(x) != Order(y) {
          return if Order(x) > Order(y) then 1 else -1;
        }
        a, b := a[|x|..], b[|y|..];
      }
      NumberStep(a, b);
      var am, bm := a[..LeadingDigits(a)], b[..LeadingDigits(b)];
      var x, y := StripZeros(am), StripZeros(bm);
      if LengthFirstCmp(x, y) != 0 {
        return if LengthFirstCmp(x, y) > 0 then 1 else -1;
      }
      a, b := a[|am|..], b[|bm|..];
    }
    return 0;
  }

  /** The next character of a non-digit run, or nothing. */
  function LeadingCharacter(s: string): (x: string)
    ensures |x| <= 1 && |x| <= |s|
  {
    if s != "" && !Digit(s[0]) then s[..1] else ""
  }

  lemma CharacterStep(a: string, b: string)
    requires LeadingCharacter(a) != "" || LeadingCharacter(b) != ""
    ensures var x, y := LeadingCharacter(a), LeadingCharacter(b);
            if Order(x) != Order(y)
            then KeyCmp(PartKey(a), PartKey(b)) == Sign(Order(x), Order(y))
            else x != "" && y != "" && KeyCmp(PartKey(a), PartKey(b)) == KeyCmp(PartKey(a[1..]), PartKey(b[1..]))
  {
    LeadingKey(a);
    LeadingKey(b);
  }

  lemma LeadingKey(a: string)
    ensures Head(PartKey(a)) == Order(LeadingCharacter(a))
    ensures LeadingCharacter(a) != "" ==> Tail(PartKey(a)) == PartKey(a[1..])
  {
    if LeadingCharacter(a) != "" {
      assert PartKey(a) == [Order(a[..1])] + PartKey(a[1..]);
    }
  }

  /** One digit-run comparison advances both keys past a closing 0 and a number. */
  lemma NumberStep(a: string, b: string)
    requires a == "" || Digit(a[0])
    requires b == "" || Digit(b[0])
    ensures var m, n := LeadingDigits(a), LeadingDigits(b);
            var c := LengthFirstCmp(StripZeros(a[..m]), StripZeros(b[..n]));
            KeyCmp(PartKey(a), PartKey(b)) == if c != 0 then c else KeyCmp(PartKey(a[m..]), PartKey(b[n..]))
  {
    var m, n := LeadingDigits(a), LeadingDigits(b);
    StripZerosValue(a[..m]);
    StripZerosValue(b[..n]);
    LengthFirstIsNumeric(StripZeros(a[..m]), StripZeros(b[..n]));
    var x, y := PartKey(a), PartKey(b);
    AfterNumber(a);
    AfterNumber(b);
    if x != [] || y != [] {
      assert KeyCmp(x, y) == KeyCmp(Tail(x), Tail(y));
      assert Tail(x) != [] || Tail(y) != [];
    }
  }

  lemma AfterNumber(a: string)
    requires a == "" || Digit(a[0])
    ensures var m, k := LeadingDigits(a), PartKey(a);
            Head(k) == 0 && Head(Tail(k)) == Value(a[..m]) && Tail(Tail(k)) == PartKey(a[m..])
  {
    if a != "" {
      var m := LeadingDigits(a);
      assert PartKey(a) == [0, Value(a[..m])] + PartKey(a[m..]);
    }
  }

  // -------------------------------------------------------------- whole versions

  function IndexOf(s: string, c: char): (i: int)
    ensures -1 <= i < |s| && (i >= 0 ==> s[i] == c)
    ensures forall j :: 0 <= j < (if i < 0 then |s| else i) ==> s[j] != c
  {
    if s == "" then -1
    else if s[0] == c then 0
    else
      var i := IndexOf(s[1..], c);
      assert forall j :: 1 <= j < |s| ==> s[j] == s[1..][j - 1];
      if i < 0 then -1 else i + 1
  }

  function LastIndexOf(s: string, c: char): (i: int)
    ensures -1 <= i < |s| && (i >= 0 ==> s[i] == c)
    ensures forall j :: i < j < |s| ==> s[j] != c
  {
    if s == "" then -1
    else if s[|s| - 1] == c then |s| - 1
    else LastIndexOf(s[..|s| - 1], c)
  }

  /** Digits with single underscores between them, as Python's int() reads them. */
  function Underscored(s: string, total: nat, afterDigit: bool): Option<nat> {
    if s == "" then (if afterDigit then Some(total) else None)
    else if Digit(s[0]) then Underscored(s[1..], total * 10 + (s[0] as int - '0' as int), true)
    else if s[0] == '_' && afterDigit then Underscored(s[1..], total, false)
    else None
  }

  /** int(text), for ASCII digits; None stands for ValueError. */
  function PyInt(text: string): Option<int> {
    var s := Trimmed(text);
    var negative := s != "" && s[0] == '-';
    var digits := if s != "" && (s[0] == '-' || s[0] == '+') then s[1..] else s;
    match Underscored(digits, 0, false)
    case None => None
    case Some(n) => var value: int := n; Some(if negative then -value else value)
  }

  datatype Parts = Parts(epoch: int, upstream: string, revision: string)

  function Split(v: string): Result<Parts> {
    var colon := IndexOf(v, ':');
    var tail := if colon < 0 then v else v[colon + 1..];
    var epoch := if colon < 0 then Some(0) else PyInt(v[..colon]);
    var dash := LastIndexOf(tail, '-');
    match epoch
    case None => Raised("invalid literal for int()")
    case Some(e) => Ok(if dash < 0 then Parts(e, tail, "0") else Parts(e, tail[..dash], tail[dash + 1..]))
  }

  /** A version whose epoch, if written, is numeric. */
  type Version = v: string | Split(v).Ok? witness "0"

  /** The order the comparison loop is proved to compute. */
  function Compare(left: Version, right: Version): int {
    CompareParts(Split(left).value, Split(right).value)
  }

  function CompareParts(a: Parts, b: Parts): int {
    var upstream := KeyCmp(PartKey(a.upstream), PartKey(b.upstream));
    if a.epoch != b.epoch then Sign(a.epoch, b.epoch)
    else if upstream != 0 then upstream
    else KeyCmp(PartKey(a.revision), PartKey(b.revision))
  }

  method VersionCompare(left: string, right: string) returns (r: Result<int>)
    ensures r.Ok? <==> Split(left).Ok? && Split(right).Ok?
    ensures r.Ok? ==> r.value == Compare(left, right)
  {
    var l, m := Split(left), Split(right);
    if l.Raised? {
      return Raised(l.reason);
    }
    if m.Raised? {
      return Raised(m.reason);
    }
    var a, b := l.value, m.value;
    if a.epoch != b.epoch {
      return Ok(if a.epoch > b.epoch then 1 else -1);
    }
    var upstream := PartCompare(a.upstream, b.upstream);
    if upstream != 0 {
      return Ok(upstream);
    }
    var revision := PartCompare(a.revision, b.revision);
    return Ok(revision);
  }

  // ------------------------------------------------------------------ properties

  datatype CanonicalKey = CanonicalKey(epoch: int, upstream: seq<int>, revision: seq<int>)

  function Canonical(v: Version): CanonicalKey {
    var p := Split(v).value;
    CanonicalKey(p.epoch, Trim(PartKey(p.upstream)), Trim(PartKey(p.revision)))
  }

  lemma PartsAntisymmetric(a: Parts, b: Parts)
    ensures CompareParts(a, b) == -CompareParts(b, a)
  {
    KeyCmpAntisymmetric(PartKey(a.upstream), PartKey(b.upstream));
    KeyCmpAntisymmetric(PartKey(a.revision), PartKey(b.revision));
  }

  lemma PartsTransitive(a: Parts, b: Parts, c: Parts)
    requires CompareParts(a, b) <= 0 && CompareParts(b, c) <= 0
    ensures CompareParts(a, c) <= 0
    ensures CompareParts(a, c) == 0 <==> CompareParts(a, b) == 0 && CompareParts(b, c) == 0
  {
    if a.epoch == b.epoch == c.epoch {
      KeyCmpTransitive(PartKey(a.upstream), PartKey(b.upstream), PartKey(c.upstream));
      if KeyCmp(PartKey(a.upstream), PartKey(c.upstream)) == 0 {
        KeyCmpTransitive(PartKey(a.revision), PartKey(b.revision), PartKey(c.revision));
      }
    }
  }

  lemma CompareAntisymmetric(x: Version, y: Version)
    ensures Compare(x, y) == -Compare(y, x)
    ensures Compare(x, x) == 0
  {
    PartsAntisymmetric(Split(x).value, Split(y).value);
    PartsAntisymmetric(Split(x).value, Split(x).value);
  }

  lemma CompareTransitive(x: Version, y: Version, z: Version)
    requires Compare(x, y) <= 0 && Compare(y, z) <= 0
    ensures Compare(x, z) <= 0
    ensures Compare(x, z) == 0 <==> Compare(x, y) == 0 && Compare(y, z) == 0
  {
    PartsTransitive(Split(x).value, Split(y).value, Split(z).value);
  }

  /** Two versions tie exactly when their canonical keys are equal. */
  lemma TiesAreCanonical(x: Version, y: Version)
    ensures Compare(x, y) == 0 <==> Canonical(x) == Canonical(y)
  {
    var a, b := Split(x).value, Split(y).value;
    KeyTiesAreEqualTrims(PartKey(a.upstream), PartKey(b.upstream));
    KeyTiesAreEqualTrims(PartKey(a.revision), PartKey(b.revision));
  }

  /** A `~` suffix sorts before the bare text, whatever precedes and follows it. */
  lemma {:induction false} TildeSortsFirst(p: string, t: string)
    ensures KeyCmp(PartKey(p + "~" + t), PartKey(p)) == -1
    decreases |p|
  {
    var s := p + "~" + t;
    if p == "" {
      assert s == "~" + t && s[..1] == "~";
    } else if Digit(p[0]) {
      var n := LeadingDigits(p);
      SameDigitRun(p, "~" + t);
      assert p + ("~" + t) == s;
      assert s[..n] == p[..n] && s[n..] == p[n..] + "~" + t;
      TildeSortsFirst(p[n..], t);
      AfterNumber(s);
      AfterNumber(p);
    } else {
      assert s[..1] == p[..1] && s[1..] == p[1..] + "~" + t;
      TildeSortsFirst(p[1..], t);
    }
  }

  lemma {:induction false} SameDigitRun(p: string, s: string)
    requires s == "" || !Digit(s[0])
    ensures LeadingDigits(p + s) == LeadingDigits(p)
    decreases |p|
  {
    if p == "" {
      assert p + s == s;
    } else if Digit(p[0]) {
      assert (p + s)[1..] == p[1..] + s;
      SameDigitRun(p[1..], s);
    }
  }

  lemma OneDigitParts(d: char)
    requires Digit(d)
    ensures Split([d]) == Ok(Parts(0, [d], "0")) && PartKey([d]) == [0, d as int - '0' as int]
  {
    var s := [d];
    assert s[..1] == s && s[1..] == "" && s[..0] == "";
    assert IndexOf(s, ':') == -1 && LastIndexOf(s, '-') == -1;
    assert LeadingDigits(s) == 1 && Value("") == 0 && PartKey("") == [];
    assert Value(s) == d as int - '0' as int;
    assert PartKey(s) == [0, Value(s)] + [];
  }

  /** Versions of one digit compare as their digits. */
  lemma OneDigitVersions(c: char, d: char)
    requires Digit(c) && Digit(d)
    ensures Split([c]).Ok? && Split([d]).Ok? && Compare([c], [d]) == Sign(c as int, d as int)
  {
    OneDigitParts(c);
    OneDigitParts(d);
    OneDigitKeys(c as int - '0' as int, d as int - '0' as int);
    KeyCmpAntisymmetric(PartKey("0"), PartKey("0"));
  }

  lemma OneDigitKeys(m: int, n: int)
    ensures KeyCmp([0, m], [0, n]) == Sign(m, n)
  {
    assert KeyCmp([m], [n]) == if m != n then Sign(m, n) else KeyCmp([], []);
  }
}
