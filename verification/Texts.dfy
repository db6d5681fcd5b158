/** Texts as Python compares and searches them, and the decimal numbers they spell. */
module Texts {
  predicate Digit(c: char) { '0' <= c <= '9' }

  predicate AllDigits(s: string) { forall i :: 0 <= i < |s| ==> Digit(s[i]) }

  /** The number a run of digits denotes. */
  function Value(s: string): nat
    requires AllDigits(s)
  {
    if s == "" then 0
    else Value(s[..|s| - 1]) * 10 + (s[|s| - 1] as int - '0' as int)
  }

  /** The usual decimal notation. */
  function Decimal(n: nat): (s: string)
    ensures s != "" && AllDigits(s)
  {
    var digit := [('0' as int + n % 10) as char];
    if n < 10 then digit else Decimal(n / 10) + digit
  }

  lemma {:induction false} DecimalReads(n: nat)
    ensures Value(Decimal(n)) == n
  {
    var s := Decimal(n);
    if n < 10 {
      assert s[..0] == "";
    } else {
      DecimalReads(n / 10);
      assert s[..|s| - 1] == Decimal(n / 10);
    }
  }

  function Sign(x: int, y: int): int { if x > y then 1 else if x < y then -1 else 0 }

  /** Three-way comparison of strings by code point, as Python compares str. */
  function StrCmp(x: string, y: string): (r: int)
    ensures -1 <= r <= 1
  {
    if x == "" && y == "" then 0
    else if x == "" then -1
    else if y == "" then 1
    else if x[0] != y[0] then (if x[0] > y[0] then 1 else -1)
    else StrCmp(x[1..], y[1..])
  }

  /** It is a total order. */
  lemma {:induction false} TextOrder(x: string, y: string, z: string)
    ensures StrCmp(x, y) == -StrCmp(y, x)
    ensures StrCmp(x, y) == 0 <==> x == y
    ensures StrCmp(x, y) <= 0 && StrCmp(y, z) <= 0 ==>
              StrCmp(x, z) <= 0 && (StrCmp(x, z) == 0 <==> StrCmp(x, y) == 0 && StrCmp(y, z) == 0)
  {
    if x != "" && y != "" {
      assert x == [x[0]] + x[1..] && y == [y[0]] + y[1..];
      TextOrder(x[1..], y[1..], if z == "" then "" else z[1..]);
    }
  }

  /** str.isspace. */
  predicate Space(c: char) {
    var code := c as int;
    || 9 <= code <= 13 || 28 <= code <= 32 || code == 0x85 || code == 0xA0 || code == 0x1680
    || 0x2000 <= code <= 0x200A || code == 0x2028 || code == 0x2029 || code == 0x202F || code == 0x205F
       || code == 0x3000
  }

  /** str.lstrip() */
  function Stripped(s: string): (r: string)
    ensures |r| <= |s|
  {
    if s != "" && Space(s[0]) then Stripped(s[1..]) else s
  }

  /** str.strip() */
  function Trimmed(s: string): string
    decreases |s|
  {
    var t := Stripped(s);
    if t != "" && Space(t[|t| - 1]) then Trimmed(t[..|t| - 1]) else t
  }

  /** str.split, at one character. */
  function Pieces(line: string, separator: char): (parts: seq<string>)
    ensures |parts| >= 1
  {
    if line == "" then [""] else
      var parts := Pieces(line[1..], separator);
      if line[0] == separator then [""] + parts else [[line[0]] + parts[0]] + parts[1..]
  }

  lemma {:induction false} PiecesPlain(s: string, separator: char)
    requires separator !in s
    ensures Pieces(s, separator) == [s]
  {
    if s != "" {
      PiecesPlain(s[1..], separator);
      assert [s[0]] + s[1..] == s;
    }
  }

  lemma {:induction false} PiecesFirst(s: string, rest: string, separator: char)
    requires separator !in s
    ensures Pieces(s + [separator] + rest, separator) == [s] + Pieces(rest, separator)
  {
    var line := s + [separator] + rest;
    if s == "" {
      assert line[1..] == rest;
    } else {
      PiecesFirst(s[1..], rest, separator);
      assert line[1..] == s[1..] + [separator] + rest;
      assert [s[0]] + s[1..] == s;
    }
  }

  predicate OccursAt(text: string, part: string, pos: int) {
    0 <= pos && pos + |part| <= |text| && text[pos..pos + |part|] == part
  }

  /** What str.find returns. */
  ghost predicate Found(text: string, part: string, start: nat, p: int) {
    if p < 0 then forall q :: start <= q ==> !OccursAt(text, part, q)
    else start <= p && OccursAt(text, part, p) && forall q :: start <= q < p ==> !OccursAt(text, part, q)
  }

  /** str.find. */
  method Find(text: string, part: string, start: nat) returns (p: int)
    ensures Found(text, part, start, p)
  {
    p := start;
    while p + |part| <= |text|
      invariant start <= p && forall q :: start <= q < p ==> !OccursAt(text, part, q)
    {
      if OccursAt(text, part, p) {
        return;
      }
      p := p + 1;
    }
    p := -1;
  }
}
