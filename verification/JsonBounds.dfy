/** The byte scan in `json_object` of tools/inventory_apt.py, against JSON documents of
    RFC 8259 with arbitrary whitespace and escapes. */
module JsonBounds {
  import opened Octets
  import opened Outcomes

  const MAX_DEPTH := 64
  const MAX_NODES := 2000000

  const QUOTE: Byte := 34
  const COMMA: Byte := 44
  const COLON: Byte := 58
  const OPEN_ARRAY: Byte := 91
  const BACKSLASH: Byte := 92
  const CLOSE_ARRAY: Byte := 93
  const OPEN_OBJECT: Byte := 123
  const CLOSE_OBJECT: Byte := 125

  // ------------------------------------------------------------------- the scan

  datatype State = State(depth: int, nodes: int, quoted: bool, escaped: bool)

  /** One turn of the loop; None stands for the raised ValueError. */
  function Step(s: State, byte: Byte): Option<State> {
    if s.quoted then
      Some(if s.escaped then s.(escaped := false)
           else if byte == BACKSLASH then s.(escaped := true)
           else if byte == QUOTE then s.(quoted := false)
           else s)
    else
      var t := if byte == QUOTE then s.(quoted := true)
               else if byte in {OPEN_ARRAY, OPEN_OBJECT} then s.(depth := s.depth + 1, nodes := s.nodes + 1)
               else if byte in {CLOSE_ARRAY, CLOSE_OBJECT} then s.(depth := s.depth - 1)
               else if byte in {COMMA, COLON} then s.(nodes := s.nodes + 1)
               else s;
      if 0 <= t.depth <= MAX_DEPTH && t.nodes <= MAX_NODES then Some(t) else None
  }

  /** The loop over these bytes. */
  function Run(s: State, bytes: Bytes): Option<State>
    decreases |bytes|
  {
    if bytes == [] then Some(s)
    else match Step(s, bytes[0])
      case None => None
      case Some(t) => Run(t, bytes[1..])
  }

  const START := State(0, 0, false, false)

  method Scan(blob: Bytes) returns (r: Option<State>)
    ensures r == Run(START, blob)
  {
    var depth, nodes, quoted, escaped := 0, 0, false, false;
    for i := 0 to |blob|
      invariant Run(START, blob) == Run(State(depth, nodes, quoted, escaped), blob[i..])
    {
      var byte := blob[i];
      assert blob[i..][0] == byte && blob[i..][1..] == blob[i + 1..];
      if quoted {
        if escaped {
          escaped := false;
        } else if byte == BACKSLASH {
          escaped := true;
        } else if byte == QUOTE {
          quoted := false;
        }
        continue;
      }
      if byte == QUOTE {
        quoted := true;
      } else if byte in {OPEN_ARRAY, OPEN_OBJECT} {
        depth, nodes := depth + 1, nodes + 1;
      } else if byte in {CLOSE_ARRAY, CLOSE_OBJECT} {
        depth := depth - 1;
      } else if byte in {COMMA, COLON} {
        nodes := nodes + 1;
      }
      if !(0 <= depth <= MAX_DEPTH) || nodes > MAX_NODES {
        return None;
      }
    }
    return Some(State(depth, nodes, quoted, escaped));
  }

  // ------------------------------------------------------------------ documents

  /** One character of a string: plain, or a backslash and the byte it escapes. */
  datatype Character = Plain(byte: Byte) | Escape(byte: Byte)

  /** A JSON value together with the whitespace and escapes it is written with. */
  datatype Json =
    | Literal(token: Bytes)
    | Text(characters: seq<Character>)
    | Array(gap: Bytes, elements: Elements)
    | Object(gap: Bytes, members: Members)

  datatype Elements =
    | NoElement
    | Element(before: Bytes, value: Json, after: Bytes, rest: Elements)

  datatype Members =
    | NoMember
    | Member(before: Bytes, key: seq<Character>, beforeColon: Bytes, afterColon: Bytes, value: Json, after: Bytes,
        rest: Members)

  predicate Whitespace(w: Bytes) { forall i :: 0 <= i < |w| ==> w[i] in {32, 9, 10, 13} }

  /** Numbers, true, false and null use none of the bytes the scan reacts to. */
  predicate LiteralToken(w: Bytes) {
    forall i :: 0 <= i < |w| ==> w[i] !in {QUOTE, COMMA, COLON, OPEN_ARRAY, CLOSE_ARRAY, OPEN_OBJECT, CLOSE_OBJECT}
  }

  predicate ProperText(cs: seq<Character>) {
    forall i :: 0 <= i < |cs| ==> cs[i].Plain? ==> cs[i].byte !in {QUOTE, BACKSLASH}
  }

  predicate Proper(j: Json) {
    match j
    case Literal(token) => LiteralToken(token)
    case Text(cs) => ProperText(cs)
    case Array(gap, es) => Whitespace(gap) && ProperElements(es)
    case Object(gap, ms) => Whitespace(gap) && ProperMembers(ms)
  }

  predicate ProperElements(es: Elements) {
    match es
    case NoElement => true
    case Element(before, value, after, rest) =>
      Whitespace(before) && Proper(value) && Whitespace(after) && ProperElements(rest)
  }

  predicate ProperMembers(ms: Members) {
    match ms
    case NoMember => true
    case Member(before, key, c, d, value, after, rest) =>
      && Whitespace(before) && ProperText(key) && Whitespace(c) && Whitespace(d) && Proper(value)
      && Whitespace(after) && ProperMembers(rest)
  }

  function WriteText(cs: seq<Character>): Bytes { [QUOTE] + WriteCharacters(cs) + [QUOTE] }

  function WriteCharacters(cs: seq<Character>): Bytes {
    if cs == [] then []
    else (if cs[0].Plain? then [cs[0].byte] else [BACKSLASH, cs[0].byte]) + WriteCharacters(cs[1..])
  }

  function Write(j: Json): Bytes {
    match j
    case Literal(token) => token
    case Text(cs) => WriteText(cs)
    case Array(gap, es) => [OPEN_ARRAY] + (gap + WriteElements(es)) + [CLOSE_ARRAY]
    case Object(gap, ms) => [OPEN_OBJECT] + (gap + WriteMembers(ms)) + [CLOSE_OBJECT]
  }

  function WriteElements(es: Elements): Bytes {
    match es
    case NoElement => []
    case Element(before, value, after, rest) =>
      before + Write(value) + after + (if rest.NoElement? then [] else [COMMA] + WriteElements(rest))
  }

  function WriteMembers(ms: Members): Bytes {
    match ms
    case NoMember => []
    case Member(before, key, c, d, value, after, rest) =>
      before + WriteText(key) + c + [COLON] + d + Write(value) + after
      + (if rest.NoMember? then [] else [COMMA] + WriteMembers(rest))
  }

  // ------------------------------------------------- nesting and structure counts

  function Max(a: nat, b: nat): nat { if a >= b then a else b }

  /** How deeply containers nest. */
  function Depth(j: Json): nat {
    match j
    case Literal(_) => 0
    case Text(_) => 0
    case Array(_, es) => 1 + ElementsDepth(es)
    case Object(_, ms) => 1 + MembersDepth(ms)
  }

  function ElementsDepth(es: Elements): nat {
    match es
    case NoElement => 0
    case Element(_, value, _, rest) => Max(Depth(value), ElementsDepth(rest))
  }

  function MembersDepth(ms: Members): nat {
    match ms
    case NoMember => 0
    case Member(_, _, _, _, value, _, rest) => Max(Depth(value), MembersDepth(rest))
  }

  /** Containers, commas and colons. */
  function Count(j: Json): nat {
    match j
    case Literal(_) => 0
    case Text(_) => 0
    case Array(_, es) => 1 + ElementsCount(es)
    case Object(_, ms) => 1 + MembersCount(ms)
  }

  function ElementsCount(es: Elements): nat {
    match es
    case NoElement => 0
    case Element(_, value, _, rest) => Count(value) + if rest.NoElement? then 0 else 1 + ElementsCount(rest)
  }

  function MembersCount(ms: Members): nat {
    match ms
    case NoMember => 0
    case Member(_, _, _, _, value, _, rest) => 1 + Count(value) + if rest.NoMember? then 0 else 1 + MembersCount(rest)
  }

  // ------------------------------------------------------------------- the proof

  /** The scan is between tokens and within its bounds. */
  predicate Outside(s: State) {
    !s.quoted && !s.escaped && 0 <= s.depth <= MAX_DEPTH && s.nodes <= MAX_NODES
  }

  function Then(r: Option<State>, bytes: Bytes): Option<State> {
    match r
    case None => None
    case Some(s) => Run(s, bytes)
  }

  lemma {:induction false} RunSplits(s: State, a: Bytes, b: Bytes)
    ensures Run(s, a + b) == Then(Run(s, a), b)
    decreases |a|
  {
    if a == [] {
      assert a + b == b;
    } else {
      assert (a + b)[0] == a[0] && (a + b)[1..] == a[1..] + b;
      if Step(s, a[0]).Some? {
        RunSplits(Step(s, a[0]).value, a[1..], b);
      }
    }
  }

  lemma {:induction false} RunIgnores(s: State, w: Bytes)
    requires Outside(s) && LiteralToken(w)
    ensures Run(s, w) == Some(s)
  {
    if w != [] {
      RunIgnores(s, w[1..]);
    }
  }

  lemma {:induction false} RunCharacters(s: State, cs: seq<Character>)
    requires s.quoted && !s.escaped && ProperText(cs)
    ensures Run(s, WriteCharacters(cs)) == Some(s)
  {
    if cs != [] {
      var head := if cs[0].Plain? then [cs[0].byte] else [BACKSLASH, cs[0].byte];
      RunSplits(s, head, WriteCharacters(cs[1..]));
      RunCharacters(s, cs[1..]);
      if cs[0].Escape? {
        assert head[1..] == [cs[0].byte] && [cs[0].byte][1..] == [];
        assert Run(s, head) == Run(s.(escaped := true), [cs[0].byte]) == Some(s);
      } else {
        assert head[1..] == [];
      }
    }
  }

  lemma RunText(s: State, cs: seq<Character>)
    requires Outside(s) && ProperText(cs)
    ensures Run(s, WriteText(cs)) == Some(s)
  {
    var t := s.(quoted := true);
    RunSplits(s, [QUOTE] + WriteCharacters(cs), [QUOTE]);
    RunSplits(s, [QUOTE], WriteCharacters(cs));
    RunCharacters(t, cs);
    RunOne(s, QUOTE);
    RunOne(t, QUOTE);
  }

  lemma RunOne(s: State, byte: Byte)
    ensures Run(s, [byte]) == Step(s, byte)
  {
    assert [byte][1..] == [];
  }

  /** What the scan of a piece with this nesting and count does to a state outside tokens. */
  function Expected(s: State, depth: int, count: int): Option<State> {
    if s.depth + depth <= MAX_DEPTH && s.nodes + count <= MAX_NODES then Some(s.(nodes := s.nodes + count)) else None
  }

  /** From every state outside tokens, the scan of this piece passes exactly within the bounds
      and comes back to where it was, having counted the structure. */
  ghost predicate Behaves(piece: Bytes, depth: nat, count: nat) {
    forall s :: Outside(s) ==> Run(s, piece) == Expected(s, depth, count)
  }

  lemma Sequence(a: Bytes, d: nat, m: nat, b: Bytes, e: nat, n: nat)
    requires Behaves(a, d, m) && Behaves(b, e, n)
    ensures Behaves(a + b, Max(d, e), m + n)
  {
    forall s | Outside(s) ensures Run(s, a + b) == Expected(s, Max(d, e), m + n) {
      RunSplits(s, a, b);
      OneAfterTheOther(s, a, d, m, b, e, n);
    }
  }

  lemma OneAfterTheOther(s: State, a: Bytes, d: nat, m: nat, b: Bytes, e: nat, n: nat)
    requires Outside(s) && Behaves(a, d, m) && Behaves(b, e, n)
    ensures Then(Run(s, a), b) == Expected(s, Max(d, e), m + n)
  {
    assert Run(s, a) == Expected(s, d, m);
    if Expected(s, d, m).Some? {
      var t := s.(nodes := s.nodes + m);
      assert Outside(t);
      assert Run(t, b) == Expected(t, e, n);
    }
  }

  lemma WhitespaceBehaves(w: Bytes)
    requires Whitespace(w)
    ensures Behaves(w, 0, 0)
  {
    forall s | Outside(s) ensures Run(s, w) == Expected(s, 0, 0) {
      RunIgnores(s, w);
    }
  }

  lemma TextBehaves(cs: seq<Character>)
    requires ProperText(cs)
    ensures Behaves(WriteText(cs), 0, 0)
  {
    forall s | Outside(s) ensures Run(s, WriteText(cs)) == Expected(s, 0, 0) {
      RunText(s, cs);
    }
  }

  /** A separator counts one. */
  lemma SeparatorBehaves(byte: Byte)
    requires byte in {COMMA, COLON}
    ensures Behaves([byte], 0, 1)
  {
    forall s | Outside(s) ensures Run(s, [byte]) == Expected(s, 0, 1) {
      RunOne(s, byte);
    }
  }

  /** A container counts one and nests one deeper. */
  lemma ContainerBehaves(open: Byte, inner: Bytes, close: Byte, d: nat, n: nat)
    requires open in {OPEN_ARRAY, OPEN_OBJECT} && close in {CLOSE_ARRAY, CLOSE_OBJECT}
    requires Behaves(inner, d, n)
    ensures Behaves([open] + inner + [close], 1 + d, 1 + n)
  {
    forall s | Outside(s) ensures Run(s, [open] + inner + [close]) == Expected(s, 1 + d, 1 + n) {
      RunSplits(s, [open] + inner, [close]);
      RunSplits(s, [open], inner);
      RunOne(s, open);
      if Step(s, open).Some? {
        var t := Step(s, open).value;
        assert Outside(t);
        assert Run(t, inner) == Expected(t, d, n);
        if Expected(t, d, n).Some? {
          RunOne(t.(nodes := t.nodes + n), close);
        }
      }
    }
  }

  lemma PaddedBehaves(before: Bytes, piece: Bytes, after: Bytes, d: nat, n: nat)
    requires Whitespace(before) && Behaves(piece, d, n) && Whitespace(after)
    ensures Behaves(before + piece + after, d, n)
  {
    WhitespaceBehaves(before);
    WhitespaceBehaves(after);
    Sequence(before, 0, 0, piece, d, n);
    Sequence(before + piece, d, n, after, 0, 0);
  }

  /** A key, its colon and the whitespace around them. */
  lemma KeyBehaves(before: Bytes, key: seq<Character>, c: Bytes)
    requires Whitespace(before) && ProperText(key) && Whitespace(c)
    ensures Behaves(before + WriteText(key) + c + [COLON], 0, 1)
  {
    TextBehaves(key);
    PaddedBehaves(before, WriteText(key), c, 0, 0);
    SeparatorBehaves(COLON);
    Sequence(before + WriteText(key) + c, 0, 0, [COLON], 0, 1);
  }

  /** For every value, however it is written. */
  lemma {:induction false} JsonBehaves(j: Json)
    requires Proper(j)
    ensures Behaves(Write(j), Depth(j), Count(j))
    decreases j
  {
    match j
    case Literal(token) =>
      forall s | Outside(s) ensures Run(s, token) == Expected(s, 0, 0) {
        RunIgnores(s, token);
      }
    case Text(cs) => TextBehaves(cs);
    case Array(gap, es) =>
      WhitespaceBehaves(gap);
      ElementsBehave(es);
      Sequence(gap, 0, 0, WriteElements(es), ElementsDepth(es), ElementsCount(es));
      ContainerBehaves(OPEN_ARRAY, gap + WriteElements(es), CLOSE_ARRAY, ElementsDepth(es), ElementsCount(es));
    case Object(gap, ms) =>
      WhitespaceBehaves(gap);
      MembersBehave(ms);
      Sequence(gap, 0, 0, WriteMembers(ms), MembersDepth(ms), MembersCount(ms));
      ContainerBehaves(OPEN_OBJECT, gap + WriteMembers(ms), CLOSE_OBJECT, MembersDepth(ms), MembersCount(ms));
  }

  lemma {:induction false} ElementsBehave(es: Elements)
    requires ProperElements(es)
    ensures Behaves(WriteElements(es), ElementsDepth(es), ElementsCount(es))
    decreases es
  {
    match es
    case NoElement =>
    case Element(before, value, after, rest) =>
      JsonBehaves(value);
      PaddedBehaves(before, Write(value), after, Depth(value), Count(value));
      var piece := before + Write(value) + after;
      if rest.NoElement? {
        assert WriteElements(es) == piece;
      } else {
        ElementsBehave(rest);
        SeparatorBehaves(COMMA);
        var more := [COMMA] + WriteElements(rest);
        Sequence([COMMA], 0, 1, WriteElements(rest), ElementsDepth(rest), ElementsCount(rest));
        Sequence(piece, Depth(value), Count(value), more, ElementsDepth(rest), 1 + ElementsCount(rest));
        assert WriteElements(es) == piece + more;
      }
  }

  lemma {:induction false} MembersBehave(ms: Members)
    requires ProperMembers(ms)
    ensures Behaves(WriteMembers(ms), MembersDepth(ms), MembersCount(ms))
    decreases ms
  {
    match ms
    case NoMember =>
    case Member(before, key, c, d, value, after, rest) =>
      var head, tail := before + WriteText(key) + c + [COLON], d + Write(value) + after;
      KeyBehaves(before, key, c);
      JsonBehaves(value);
      PaddedBehaves(d, Write(value), after, Depth(value), Count(value));
      Sequence(head, 0, 1, tail, Depth(value), Count(value));
      var piece := before + WriteText(key) + c + [COLON] + d + Write(value) + after;
      assert piece == head + tail;
      if rest.NoMember? {
        assert WriteMembers(ms) == piece;
      } else {
        MembersBehave(rest);
        SeparatorBehaves(COMMA);
        var more := [COMMA] + WriteMembers(rest);
        Sequence([COMMA], 0, 1, WriteMembers(rest), MembersDepth(rest), MembersCount(rest));
        Sequence(piece, Depth(value), 1 + Count(value), more, MembersDepth(rest), 1 + MembersCount(rest));
        assert WriteMembers(ms) == piece + more;
      }
  }

  /** A whole document, with whitespace around it: the scan accepts it if and only if it nests
      at most 64 deep and has at most 2,000,000 containers, commas and colons; it then ends
      unquoted at depth 0. */
  lemma DocumentScan(before: Bytes, j: Json, after: Bytes)
    requires Whitespace(before) && Proper(j) && Whitespace(after)
    ensures Run(START, before + Write(j) + after)
            == if Depth(j) <= MAX_DEPTH && Count(j) <= MAX_NODES then Some(State(0, Count(j), false, false)) else None
  {
    JsonBehaves(j);
    PaddedBehaves(before, Write(j), after, Depth(j), Count(j));
    assert Outside(START);
  }
}
