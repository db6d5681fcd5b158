/** npm versions: `npm_version` of tools/inventory_apt.py and the order of its keys. */
module SemVer {
  import opened Outcomes
  import opened Texts

  /** The largest component SemVer implementations accept, 2**53 - 1. */
  const MAX_COMPONENT: nat := 0x1F_FFFF_FFFF_FFFF

  datatype Identifier = Numeric(number: nat) | Textual(text: string)

  /** A version key. The release flag of the source's tuple is `pre == []`. */
  datatype Version = Version(major: nat, minor: nat, patch: nat, pre: seq<Identifier>) {
    function Core(): seq<nat> { [major, minor, patch] }
  }

  // ------------------------------------------------------------------- parsing

  predicate IdentifierCharacter(c: char) { '0' <= c <= '9' || 'A' <= c <= 'Z' || 'a' <= c <= 'z' || c == '-' }

  predicate IdentifierText(s: string) { s != "" && forall i :: 0 <= i < |s| ==> IdentifierCharacter(s[i]) }

  predicate AcceptableIdentifier(s: string) {
    IdentifierText(s) && !(AllDigits(s) && |s| > 1 && s[0] == '0')
  }

  function ReadIdentifier(s: string): Identifier {
    if AllDigits(s) then Numeric(Value(s)) else Textual(s)
  }

  /** `npm_version`, from a core of three numbers and the dotted prerelease identifiers. */
  function NpmVersion(core: seq<nat>, pre: seq<string>): (r: Result<Version>)
    requires |core| == 3
    ensures r.Ok? <==>
              && (forall i :: 0 <= i < 3 ==> core[i] <= MAX_COMPONENT)
              && (forall i :: 0 <= i < |pre| ==> AcceptableIdentifier(pre[i]))
    ensures r.Ok? ==> r.value.Core() == core && |r.value.pre| == |pre|
    ensures r.Ok? ==> forall i :: 0 <= i < |pre| ==> r.value.pre[i] == ReadIdentifier(pre[i])
  {
    if exists i :: 0 <= i < |pre| && !IdentifierText(pre[i]) then Raised("unsupported npm version syntax")
    else if exists i :: 0 <= i < 3 && core[i] > MAX_COMPONENT
    then Raised("npm version component exceeds the SemVer integer limit")
    else if exists i :: 0 <= i < |pre| && !AcceptableIdentifier(pre[i])
    then Raised("npm prerelease number has a leading zero")
    else Ok(Version(core[0], core[1], core[2], seq(|pre|, i requires 0 <= i < |pre| => ReadIdentifier(pre[i]))))
  }

  // --------------------------------------------------------- the order of tuples

  /** Comparison of the pairs (0, number) and (1, text). */
  function IdentifierCmp(x: Identifier, y: Identifier): int {
    match (x, y)
    case (Numeric(m), Numeric(n)) => Sign(m, n)
    case (Numeric(_), Textual(_)) => -1
    case (Textual(_), Numeric(_)) => 1
    case (Textual(s), Textual(t)) => StrCmp(s, t)
  }

  function PreCmp(x: seq<Identifier>, y: seq<Identifier>): int {
    if x == [] && y == [] then 0
    else if x == [] then -1
    else if y == [] then 1
    else if IdentifierCmp(x[0], y[0]) != 0 then IdentifierCmp(x[0], y[0])
    else PreCmp(x[1..], y[1..])
  }

  function CoreCmp(x: seq<nat>, y: seq<nat>): int
    requires |x| == |y|
  {
    if x == [] then 0
    else if x[0] != y[0] then Sign(x[0], y[0])
    else CoreCmp(x[1..], y[1..])
  }

  /** Comparison of the tuples (major, minor, patch, not bool(pre), tuple(pre)). */
  function KeyCmp(x: Version, y: Version): int {
    var core := CoreCmp(x.Core(), y.Core());
    if core != 0 then core
    else if (x.pre == []) != (y.pre == []) then (if x.pre == [] then 1 else -1)
    else PreCmp(x.pre, y.pre)
  }

  // ----------------------------------------------- precedence as SemVer words it

  /** An identifier ranks below another: section 11.4, items 1 to 3. */
  ghost predicate IdentifierBelow(x: Identifier, y: Identifier) {
    || (x.Numeric? && y.Numeric? && x.number < y.number)
    || (x.Numeric? && y.Textual?)
    || (x.Textual? && y.Textual? && TextBelow(x.text, y.text))
  }

  /** ASCII order of two texts. */
  ghost predicate TextBelow(s: string, t: string) {
    || (s < t)
    || exists k :: 0 <= k < |s| && k < |t| && s[..k] == t[..k] && s[k] < t[k]
  }

  /** Left to right until a difference; a longer list ranks above its prefix: section 11.4, item 4. */
  ghost predicate PreBelow(x: seq<Identifier>, y: seq<Identifier>) {
    || (x < y)
    || exists k :: 0 <= k < |x| && k < |y| && x[..k] == y[..k] && IdentifierBelow(x[k], y[k])
  }

  /** Section 11 of Semantic Versioning 2.0.0. */
  ghost predicate Precedes(x: Version, y: Version) {
    || (exists k :: 0 <= k < 3 && x.Core()[..k] == y.Core()[..k] && x.Core()[k] < y.Core()[k])
    || (x.Core() == y.Core() && x.pre != [] && y.pre == [])
    || (x.Core() == y.Core() && x.pre != [] && y.pre != [] && PreBelow(x.pre, y.pre))
  }

  // ------------------------------------------------------------------ agreement

  lemma EqualPrefixes<T>(s: seq<T>, t: seq<T>)
    ensures forall k :: 0 < k <= |s| && k <= |t| && s[..k] == t[..k] ==> s[0] == t[0]
  {
    forall k | 0 < k <= |s| && k <= |t| && s[..k] == t[..k] ensures s[0] == t[0] {
      assert s[..k][0] == t[..k][0];
    }
  }

  lemma {:induction false} StrCmpIsTextOrder(s: string, t: string)
    ensures StrCmp(s, t) == -1 <==> TextBelow(s, t)
    ensures StrCmp(s, t) == 0 <==> s == t
    ensures StrCmp(s, t) == -StrCmp(t, s)
  {
    if s != "" && t != "" {
      if s[0] == t[0] {
        StrCmpIsTextOrder(s[1..], t[1..]);
        assert s == [s[0]] + s[1..] && t == [t[0]] + t[1..];
        if k :| 0 <= k < |s[1..]| && k < |t[1..]| && s[1..][..k] == t[1..][..k] && s[1..][k] < t[1..][k] {
          assert s[..k + 1] == [s[0]] + s[1..][..k] && t[..k + 1] == [t[0]] + t[1..][..k];
          assert s[k + 1] < t[k + 1];
        }
        if k :| 0 <= k < |s| && k < |t| && s[..k] == t[..k] && s[k] < t[k] {
          assert k > 0;
          assert s[1..][..k - 1] == s[..k][1..] && t[1..][..k - 1] == t[..k][1..];
          assert s[1..][k - 1] < t[1..][k - 1];
        }
      } else if s[0] < t[0] {
        assert s[..0] == t[..0];
      } else {
        EqualPrefixes(s, t);
      }
    }
  }

  lemma IdentifierCmpIsOrder(x: Identifier, y: Identifier)
    ensures -1 <= IdentifierCmp(x, y) <= 1
    ensures IdentifierCmp(x, y) == -1 <==> IdentifierBelow(x, y)
    ensures IdentifierCmp(x, y) == 0 <==> x == y
    ensures IdentifierCmp(x, y) == -IdentifierCmp(y, x)
  {
    if x.Textual? && y.Textual? {
      StrCmpIsTextOrder(x.text, y.text);
    }
  }

  lemma {:induction false} PreCmpIsOrder(x: seq<Identifier>, y: seq<Identifier>)
    ensures -1 <= PreCmp(x, y) <= 1
    ensures PreCmp(x, y) == -1 <==> PreBelow(x, y)
    ensures PreCmp(x, y) == 0 <==> x == y
    ensures PreCmp(x, y) == -PreCmp(y, x)
  {
    if x != [] && y != [] {
      IdentifierCmpIsOrder(x[0], y[0]);
      if x[0] == y[0] {
        PreCmpIsOrder(x[1..], y[1..]);
        assert x == [x[0]] + x[1..] && y == [y[0]] + y[1..];
        if k :|
          0 <= k < |x[1..]| && k < |y[1..]| && x[1..][..k] == y[1..][..k] && IdentifierBelow(x[1..][k], y[1..][k])
        {
          assert x[..k + 1] == [x[0]] + x[1..][..k] && y[..k + 1] == [y[0]] + y[1..][..k];
          assert IdentifierBelow(x[k + 1], y[k + 1]);
        }
        if k :| 0 <= k < |x| && k < |y| && x[..k] == y[..k] && IdentifierBelow(x[k], y[k]) {
          IdentifierCmpIsOrder(x[k], y[k]);
          assert k > 0;
          assert x[1..][..k - 1] == x[..k][1..] && y[1..][..k - 1] == y[..k][1..];
          assert IdentifierBelow(x[1..][k - 1], y[1..][k - 1]);
        }
      } else if IdentifierBelow(x[0], y[0]) {
        assert x[..0] == y[..0];
      } else {
        EqualPrefixes(x, y);
      }
    }
  }

  /** The tuples compare exactly as section 11 of Semantic Versioning 2.0.0 ranks the versions. */
  lemma KeyCmpIsPrecedence(x: Version, y: Version)
    ensures KeyCmp(x, y) < 0 <==> Precedes(x, y)
    ensures KeyCmp(x, y) == 0 <==> x == y
    ensures KeyCmp(x, y) == -KeyCmp(y, x)
  {
    PreCmpIsOrder(x.pre, y.pre);
    CoreCmpUnfolds(x.Core(), y.Core());
    CoreCmpUnfolds(y.Core(), x.Core());
    var a, b := x.Core(), y.Core();
    assert a[..0] == b[..0];
    assert a[0] == b[0] ==> a[..1] == b[..1];
    assert a[0] == b[0] && a[1] == b[1] ==> a[..2] == b[..2];
    forall k | 0 <= k < 3 && a[..k] == b[..k] ensures forall j :: 0 <= j < k ==> a[j] == b[j] {
      forall j | 0 <= j < k ensures a[j] == b[j] {
        assert a[..k][j] == b[..k][j];
      }
    }
  }

  lemma CoreCmpUnfolds(x: seq<nat>, y: seq<nat>)
    requires |x| == |y| == 3
    ensures CoreCmp(x, y) == if x[0] != y[0] then Sign(x[0], y[0])
                             else if x[1] != y[1] then Sign(x[1], y[1]) else Sign(x[2], y[2])
  {
    assert CoreCmp(x, y) == if x[0] != y[0] then Sign(x[0], y[0]) else CoreCmp(x[1..], y[1..]);
    assert CoreCmp(x[1..], y[1..]) == if x[1] != y[1] then Sign(x[1], y[1]) else CoreCmp(x[2..], y[2..]) by {
      assert x[1..][1..] == x[2..] && y[1..][1..] == y[2..];
    }
    assert CoreCmp(x[2..], y[2..]) == Sign(x[2], y[2]) by {
      assert x[2..][1..] == [] && y[2..][1..] == [];
    }
  }

  lemma {:induction false} PreCmpTransitive(x: seq<Identifier>, y: seq<Identifier>, z: seq<Identifier>)
    requires PreCmp(x, y) < 0 && PreCmp(y, z) < 0
    ensures PreCmp(x, z) < 0
  {
    if x != [] && y != [] && z != [] {
      IdentifierCmpIsOrder(x[0], y[0]);
      IdentifierCmpIsOrder(y[0], z[0]);
      IdentifierCmpIsOrder(x[0], z[0]);
      if x[0] == y[0] == z[0] {
        PreCmpTransitive(x[1..], y[1..], z[1..]);
      } else if x[0] != y[0] && y[0] != z[0] {
        if x[0].Textual? && z[0].Textual? {
          TextOrder(x[0].text, y[0].text, z[0].text);
        }
      }
    }
  }

  lemma KeyCmpTransitive(x: Version, y: Version, z: Version)
    requires KeyCmp(x, y) < 0 && KeyCmp(y, z) < 0
    ensures KeyCmp(x, z) < 0
  {
    CoreCmpUnfolds(x.Core(), y.Core());
    CoreCmpUnfolds(y.Core(), z.Core());
    CoreCmpUnfolds(x.Core(), z.Core());
    if CoreCmp(x.Core(), y.Core()) == 0 && CoreCmp(y.Core(), z.Core()) == 0 {
      if x.pre != [] && y.pre != [] && z.pre != [] {
        PreCmpTransitive(x.pre, y.pre, z.pre);
      }
    }
  }

  /** Precedence is a strict total order. */
  lemma PrecedenceIsStrictTotal(x: Version, y: Version, z: Version)
    ensures !Precedes(x, x)
    ensures x == y || Precedes(x, y) || Precedes(y, x)
    ensures Precedes(x, y) ==> !Precedes(y, x)
    ensures Precedes(x, y) && Precedes(y, z) ==> Precedes(x, z)
  {
    KeyCmpIsPrecedence(x, x);
    KeyCmpIsPrecedence(x, y);
    KeyCmpIsPrecedence(y, x);
    KeyCmpIsPrecedence(y, z);
    KeyCmpIsPrecedence(x, z);
    if KeyCmp(x, y) < 0 && KeyCmp(y, z) < 0 {
      KeyCmpTransitive(x, y, z);
    }
  }
}
