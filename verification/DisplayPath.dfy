/**
 How a path is printed (crates/flux-cli/src/verify_report.rs, the Unix branch): a printed string is its UTF-8 bytes,
 a path the list of its components' bytes.
 */
module DisplayPath {
  import opened Basics
  import opened Joining
  import opened Utf8

  const SLASH: byte := 47
  const BACKSLASH: byte := 92
  const DOT: Bytes := [46]

  function HexDigit(n: nat): byte
    requires n < 16
  {
    if n < 10 then 48 + n else 87 + n
  }

  /** `\xNN`, lowercase. */
  function HexEscape(b: byte): Bytes {
    [BACKSLASH, 120, HexDigit(b / 16), HexDigit(b % 16)]
  }

  function HexEscapes(b: Bytes): Bytes {
    if b == [] then [] else HexEscape(b[0]) + HexEscapes(b[1..])
  }

  predicate Control(b: byte) { b < 0x20 || b == 0x7F }

  /** One character of a valid string. */
  function EscapeChar(u: Bytes): Bytes {
    if u == [BACKSLASH] then [BACKSLASH, BACKSLASH]
    else if u == [10] then [BACKSLASH, 110]
    else if u == [13] then [BACKSLASH, 114]
    else if u == [9] then [BACKSLASH, 116]
    else if |u| == 1 && Control(u[0]) then HexEscape(u[0])
    else u
  }

  /** A component: characters where there are any, and the bytes of everything else as escapes. */
  function Escaped(b: Bytes): Bytes {
    if b == [] then []
    else
      match FirstUnit(b)
      case Char(n) => EscapeChar(b[..n]) + Escaped(b[n..])
      case Invalid(n) => HexEscapes(b[..n]) + Escaped(b[n..])
      case CutOff => HexEscapes(b)
  }

  function Displayed(path: seq<Bytes>): Bytes {
    var out := Join(SLASH, EscapedAll(path));
    if out == [] then DOT else out
  }

  function EscapedAll(path: seq<Bytes>): (r: seq<Bytes>)
    ensures |r| == |path|
    ensures forall i | 0 <= i < |r| :: r[i] == Escaped(path[i])
  {
    if path == [] then [] else [Escaped(path[0])] + EscapedAll(path[1..])
  }

  // ---------------------------------------------------------------------------------------------
  // The code

  /** `escape_chars` over a valid string. */
  method EscapeChars(s: Bytes, out: Bytes) returns (r: Bytes)
    requires ValidUpTo(s) == |s|
    ensures r == out + Escaped(s)
  {
    hide FirstUnit, EscapeChar, HexEscapes;
    r := out;
    var rest := s;
    while rest != []
      invariant ValidUpTo(rest) == |rest|
      invariant r + Escaped(rest) == out + Escaped(s)
      decreases |rest|
    {
      var n := FirstUnit(rest).n;
      assert r + Escaped(rest) == r + EscapeChar(rest[..n]) + Escaped(rest[n..]);
      r := r + EscapeChar(rest[..n]);
      rest := rest[n..];
    }
  }

  /** The printing of bytes that are no characters. */
  method EscapeBytes(b: Bytes, out: Bytes) returns (r: Bytes)
    ensures r == out + HexEscapes(b)
  {
    r := out;
    for i := 0 to |b|
      invariant r + HexEscapes(b[i..]) == out + HexEscapes(b)
    {
      assert b[i..][1..] == b[i + 1..];
      assert r + HexEscapes(b[i..]) == r + HexEscape(b[i]) + HexEscapes(b[i + 1..]);
      r := r + HexEscape(b[i]);
    }
  }

  /** Cutting at the end of the valid part does not change the printing. */
  lemma {:induction false} EscapedInParts(b: Bytes)
    ensures Escaped(b) == Escaped(b[..ValidUpTo(b)]) + Escaped(b[ValidUpTo(b)..])
    ensures ValidUpTo(b[..ValidUpTo(b)]) == ValidUpTo(b)
    decreases |b|
  {
    hide FirstUnit, IsChar, EscapeChar;
    var m := ValidUpTo(b);
    if b == [] || !FirstUnit(b).Char? {
      assert b[..m] == [] && b[m..] == b;
    } else {
      var n := FirstUnit(b).n;
      var rest := b[n..];
      EscapedInParts(rest);
      var front := b[..m];
      assert front[..n] == b[..n] && front[n..] == rest[..m - n] && b[m..] == rest[m - n..];
      FirstUnitIsTheGrammar(b, n);
      FirstUnitIsTheGrammar(front, n);
      assert Escaped(front) == EscapeChar(b[..n]) + Escaped(rest[..m - n]);
    }
  }

  /** `escape_component`: every turn of the loop takes at least one byte, so it ends on every input. */
  method EscapeComponent(name: Bytes, out: Bytes) returns (r: Bytes)
    ensures r == out + Escaped(name)
  {
    hide FirstUnit, HexEscapes, EscapeChar;
    r := out;
    var rest := name;
    while rest != []
      invariant r + Escaped(rest) == out + Escaped(name)
      decreases |rest|
    {
      var m := ValidUpTo(rest);
      EscapedInParts(rest);
      ValidUpToIsTheLongest(rest);
      var bad := rest[m..];
      assert r + Escaped(rest) == r + Escaped(rest[..m]) + Escaped(bad);
      r := EscapeChars(rest[..m], r);
      if bad == [] {
        return;
      }
      r, rest := EscapeInvalid(bad, r);
    }
  }

  /** The invalid bytes at the start of `bad`, and what is left after them. */
  method EscapeInvalid(bad: Bytes, out: Bytes) returns (r: Bytes, rest: Bytes)
    requires bad != [] && !FirstUnit(bad).Char?
    ensures |rest| < |bad|
    ensures r + Escaped(rest) == out + Escaped(bad)
  {
    hide FirstUnit, HexEscapes, EscapeChar;
    var unit := FirstUnit(bad);
    var n := if unit.Invalid? then unit.n else |bad|;
    assert unit.CutOff? ==> bad[..n] == bad && bad[n..] == [];
    r := EscapeBytes(bad[..n], out);
    rest := bad[n..];
  }

  /** `display_path`. */
  method Display(path: seq<Bytes>) returns (r: Bytes)
    ensures r == Displayed(path)
  {
    r := [];
    for i := 0 to |path|
      invariant r == Join(SLASH, EscapedAll(path[..i]))
    {
      EscapedAllAppend(path[..i], path[i]);
      assert path[..i + 1] == path[..i] + [path[i]];
      JoinAppend(SLASH, EscapedAll(path[..i]), Escaped(path[i]));
      if i > 0 {
        r := r + [SLASH];
      }
      r := EscapeComponent(path[i], r);
    }
    assert path[..|path|] == path;
    if r == [] {
      r := DOT;
    }
  }

  lemma {:induction false} EscapedAllAppend(path: seq<Bytes>, p: Bytes)
    ensures EscapedAll(path + [p]) == EscapedAll(path) + [Escaped(p)]
  {
  }

  // ---------------------------------------------------------------------------------------------
  // What is printed

  /** How each byte of ASCII is printed, wherever it stands: most as they are, four by a letter, the rest in hex. */
  lemma AsciiForms(b: byte, rest: Bytes)
    requires b < 0x80
    ensures Escaped([b] + rest) ==
      (if b == 92 then [92, 92] else if b == 10 then [92, 110] else if b == 13 then [92, 114]
       else if b == 9 then [92, 116] else if 0x20 <= b < 0x7F then [b] else HexEscape(b)) + Escaped(rest)
  {
    var s := [b] + rest;
    assert s[..1] == [b] && s[1..] == rest;
  }

  function HexValue(d: byte): nat {
    if 48 <= d <= 57 then d - 48 else if 97 <= d <= 102 then d - 87 else 0
  }

  function Unescaped1(s: Bytes): (byte, nat)
    requires s != []
  {
    if s[0] != BACKSLASH || |s| < 2 then (s[0], 1)
    else if s[1] == 110 then (10, 2)
    else if s[1] == 114 then (13, 2)
    else if s[1] == 116 then (9, 2)
    else if s[1] == 120 && |s| >= 4 then (HexByte(s[2], s[3]), 4)
    else (s[1], 2)
  }

  function HexByte(h: byte, l: byte): byte {
    (HexValue(h) * 16 + HexValue(l)) % 256
  }

  /** The reading back of a printed component. */
  function Unescape(s: Bytes): Bytes
    decreases |s|
  {
    if s == [] then []
    else
      var (b, n) := Unescaped1(s);
      [b] + Unescape(s[n..])
  }

  lemma UnescapeNothing()
    ensures Unescape([]) == []
  {
  }

  lemma HexRoundTrip(b: byte, t: Bytes)
    ensures Unescape(HexEscape(b) + t) == [b] + Unescape(t)
  {
    var s := HexEscape(b) + t;
    assert s[0] == BACKSLASH && s[1] == 120 && s[2] == HexDigit(b / 16) && s[3] == HexDigit(b % 16);
    assert HexByte(s[2], s[3]) == b;
    assert s[4..] == t;
  }

  lemma {:induction false} HexesRoundTrip(b: Bytes, t: Bytes)
    ensures Unescape(HexEscapes(b) + t) == b + Unescape(t)
  {
    hide HexEscape, Unescape;
    if b == [] {
      assert HexEscapes(b) + t == t;
    } else {
      HexesRoundTrip(b[1..], t);
      HexRoundTrip(b[0], HexEscapes(b[1..]) + t);
      assert HexEscapes(b) + t == HexEscape(b[0]) + (HexEscapes(b[1..]) + t);
      assert b == [b[0]] + b[1..];
    }
  }

  lemma {:induction false} PlainRoundTrip(u: Bytes, t: Bytes)
    requires BACKSLASH !in u
    ensures Unescape(u + t) == u + Unescape(t)
  {
    if u == [] {
      assert u + t == t;
    } else {
      PlainRoundTrip(u[1..], t);
      assert (u + t)[1..] == u[1..] + t;
    }
  }

  lemma CharRoundTrip(u: Bytes, t: Bytes)
    requires IsChar(u)
    ensures Unescape(EscapeChar(u) + t) == u + Unescape(t)
  {
    if u == [BACKSLASH] || u == [10] || u == [13] || u == [9] {
      var s := EscapeChar(u) + t;
      assert s[0] == BACKSLASH && s[2..] == t;
    } else if |u| == 1 && Control(u[0]) {
      HexRoundTrip(u[0], t);
      assert u == [u[0]];
    } else {
      PlainRoundTrip(u, t);
    }
  }

  /** Every component, valid or not, can be read back from what was printed. */
  lemma {:induction false} UnescapeUndoesEscape(b: Bytes)
    ensures Unescape(Escaped(b)) == b
    decreases |b|
  {
    hide FirstUnit, IsChar, EscapeChar, HexEscapes, Unescape;
    assert Unescape([]) == [] by { UnescapeNothing(); }
    if b != [] {
      match FirstUnit(b)
      case Char(n) =>
        FirstUnitIsTheGrammar(b, n);
        UnescapeUndoesEscape(b[n..]);
        CharRoundTrip(b[..n], Escaped(b[n..]));
        assert b == b[..n] + b[n..];
      case Invalid(n) =>
        UnescapeUndoesEscape(b[n..]);
        HexesRoundTrip(b[..n], Escaped(b[n..]));
        assert b == b[..n] + b[n..];
      case CutOff =>
        HexesRoundTrip(b, []);
        assert HexEscapes(b) + [] == HexEscapes(b);
    }
  }

  /** Nothing that ends a line, no control character and, of a component, no separator. */
  predicate Printable(s: Bytes) {
    forall i | 0 <= i < |s| :: !Control(s[i]) && s[i] != SLASH
  }

  predicate Slashless(b: Bytes) { SLASH !in b }

  lemma PrintableAppend(a: Bytes, b: Bytes)
    requires Printable(a) && Printable(b)
    ensures Printable(a + b)
  {
  }

  lemma HexEscapeIsClean(b: byte)
    ensures Printable(HexEscape(b)) && Valid(HexEscape(b))
  {
    AsciiIsValid(HexEscape(b));
  }

  lemma {:induction false} HexEscapesAreClean(b: Bytes)
    ensures Printable(HexEscapes(b)) && Valid(HexEscapes(b))
    ensures |HexEscapes(b)| == 4 * |b|
  {
    if b != [] {
      HexEscapesAreClean(b[1..]);
      HexEscapeIsClean(b[0]);
      ValidAppend(HexEscape(b[0]), HexEscapes(b[1..]));
    }
  }

  predicate PlainByte(b: byte) { !Control(b) && b != BACKSLASH }

  predicate Plain(b: Bytes) {
    forall i | 0 <= i < |b| :: PlainByte(b[i])
  }

  lemma CharIsValid(u: Bytes)
    requires IsChar(u)
    ensures Valid(u)
    ensures |u| == 1 || forall i | 0 <= i < |u| :: u[i] >= 0x80
  {
    assert u[..|u|] == u && u[|u|..] == [];
    ValidCons(u, |u|);
  }

  lemma CharIsClean(u: Bytes)
    requires IsChar(u)
    ensures Slashless(u) ==> Printable(EscapeChar(u))
    ensures Valid(EscapeChar(u))
    ensures if Plain(u) then EscapeChar(u) == u else |EscapeChar(u)| > |u|
  {
    hide IsChar, Valid;
    CharIsValid(u);
    if |u| == 1 {
      assert u == [u[0]];
      if !PlainByte(u[0]) {
        AsciiIsValid(EscapeChar(u));
      }
    }
  }

  lemma SlashlessPart(b: Bytes, n: nat)
    requires n <= |b| && Slashless(b)
    ensures Slashless(b[..n]) && Slashless(b[n..])
  {
  }

  /** Whatever the name, its printing is valid UTF-8, breaks no line and adds no separator. */
  lemma {:induction false} PrintingIsClean(b: Bytes)
    ensures Valid(Escaped(b))
    ensures Slashless(b) ==> Printable(Escaped(b))
    ensures b != [] ==> Escaped(b) != []
    decreases |b|
  {
    hide FirstUnit, IsChar, EscapeChar, HexEscapes, Printable, Slashless;
    if b == [] {
      assert Printable([]) by { HexEscapesAreClean([]); EmptyHex(); }
    } else if FirstUnit(b).CutOff? {
      HexEscapesAreClean(b);
    } else {
      var n := FirstUnit(b).n;
      if Slashless(b) {
        SlashlessPart(b, n);
      }
      PrintingIsClean(b[n..]);
      var first := if FirstUnit(b).Char? then EscapeChar(b[..n]) else HexEscapes(b[..n]);
      FirstIsClean(b);
      ValidAppend(first, Escaped(b[n..]));
      if Slashless(b) {
        PrintableAppend(first, Escaped(b[n..]));
      }
    }
  }

  lemma EmptyHex()
    ensures HexEscapes([]) == []
  {
  }

  lemma FirstIsClean(b: Bytes)
    requires b != [] && !FirstUnit(b).CutOff?
    ensures var n := FirstUnit(b).n; var u := b[..n];
      var first := if FirstUnit(b).Char? then EscapeChar(u) else HexEscapes(u);
      && Valid(first)
      && (Slashless(u) ==> Printable(first))
      && |first| >= |u| > 0
      && (FirstUnit(b).Char? ==> if Plain(u) then first == u else |first| > |u|)
      && (FirstUnit(b).Invalid? ==> |first| > |u|)
  {
    hide EscapeChar, HexEscapes, FirstUnit, IsChar, Printable, Slashless, Plain;
    var n := FirstUnit(b).n;
    if FirstUnit(b).Char? {
      FirstUnitIsTheGrammar(b, n);
      CharIsClean(b[..n]);
    } else {
      HexEscapesAreClean(b[..n]);
    }
  }

  /** A name that is printed as it stands. */
  ghost predicate Ordinary(b: Bytes) { Valid(b) && Plain(b) }

  lemma PlainInParts(b: Bytes, n: nat)
    requires n <= |b|
    ensures Plain(b) <==> Plain(b[..n]) && Plain(b[n..])
  {
    if Plain(b[..n]) && Plain(b[n..]) {
      forall i | 0 <= i < |b|
        ensures PlainByte(b[i])
      {
        if i < n {
          assert PlainByte(b[..n][i]);
        } else {
          assert PlainByte(b[n..][i - n]);
        }
      }
    }
  }

  /** The printing is the identity on exactly the ordinary names, and longer than any other. */
  lemma {:induction false} OnlyOrdinaryNamesStayAsTheyAre(b: Bytes)
    ensures |Escaped(b)| >= |b|
    ensures Escaped(b) == b <==> Ordinary(b)
    ensures Ordinary(b) || |Escaped(b)| > |b|
    decreases |b|
  {
    hide FirstUnit, IsChar, EscapeChar, HexEscapes, Plain, Valid;
    if b == [] {
      assert Ordinary(b) by { HexEscapesAreClean([]); EmptyHex(); PlainNothing(); }
    } else {
      ValidStep(b);
      if FirstUnit(b).CutOff? {
        HexEscapesAreClean(b);
      } else {
        var n := FirstUnit(b).n;
        OnlyOrdinaryNamesStayAsTheyAre(b[n..]);
        FirstIsClean(b);
        PlainInParts(b, n);
        assert b == b[..n] + b[n..];
      }
    }
  }

  lemma PlainNothing()
    ensures Plain([])
  {
  }

  // ---------------------------------------------------------------------------------------------
  // Whole paths

  /** What a path's components are: never empty, never holding the separator. */
  predicate Components(path: seq<Bytes>) {
    forall i | 0 <= i < |path| :: path[i] != [] && Slashless(path[i])
  }

  lemma EscapedAllIsFree(path: seq<Bytes>)
    requires Components(path)
    ensures Free(SLASH, EscapedAll(path))
  {
    forall i | 0 <= i < |path|
      ensures SLASH !in Escaped(path[i])
    {
      assert Slashless(path[i]);
      PrintingIsClean(path[i]);
    }
  }

  lemma EscapedAllIsInjective(a: seq<Bytes>, b: seq<Bytes>)
    requires EscapedAll(a) == EscapedAll(b)
    ensures a == b
  {
    assert |a| == |EscapedAll(a)| == |EscapedAll(b)| == |b|;
    forall i | 0 <= i < |a|
      ensures a[i] == b[i]
    {
      assert Escaped(a[i]) == EscapedAll(a)[i] == EscapedAll(b)[i] == Escaped(b[i]);
      UnescapeUndoesEscape(a[i]);
      UnescapeUndoesEscape(b[i]);
    }
  }

  /** Only the empty path joins to nothing. */
  lemma JoinedIsEmpty(path: seq<Bytes>)
    requires Components(path)
    ensures Join(SLASH, EscapedAll(path)) == [] <==> path == []
  {
    if path != [] {
      assert path[0] != [];
      PrintingIsClean(path[0]);
    }
  }

  /** The path whose one component is the dot. */
  const CURRENT: seq<Bytes> := [DOT]

  lemma DotIsOrdinary()
    ensures Escaped(DOT) == DOT && Displayed(CURRENT) == DOT && Displayed([]) == DOT
  {
    AsciiIsValid(DOT);
    OnlyOrdinaryNamesStayAsTheyAre(DOT);
    assert EscapedAll(CURRENT) == [DOT];
  }

  /** The two paths that do print alike. */
  lemma TheEmptyPathPrintsAsTheDot()
    ensures Components([]) && Components(CURRENT) && CURRENT != []
    ensures Displayed([]) == Displayed(CURRENT)
  {
    DotIsOrdinary();
  }

  predicate BlankOrDot(path: seq<Bytes>) { path == [] || path == CURRENT }

  lemma JoinedIsInjective(a: seq<Bytes>, b: seq<Bytes>)
    requires Components(a) && Components(b)
    requires Join(SLASH, EscapedAll(a)) == Join(SLASH, EscapedAll(b))
    ensures a == b
  {
    JoinedIsEmpty(a);
    JoinedIsEmpty(b);
    if a != [] {
      EscapedAllIsFree(a);
      EscapedAllIsFree(b);
      SplitUndoesJoin(SLASH, EscapedAll(a));
      SplitUndoesJoin(SLASH, EscapedAll(b));
      EscapedAllIsInjective(a, b);
    }
  }

  /** Two distinct paths never print alike, but for the empty path and the dot. */
  lemma DistinctPathsPrintApart(a: seq<Bytes>, b: seq<Bytes>)
    requires Components(a) && Components(b)
    ensures Displayed(a) == Displayed(b) <==> a == b || (BlankOrDot(a) && BlankOrDot(b))
  {
    hide Escaped, EscapedAll, Join;
    JoinedIsEmpty(a);
    JoinedIsEmpty(b);
    DotIsOrdinary();
    assert Components(CURRENT);
    JoinedIsEmpty(CURRENT);
    if Displayed(a) == Displayed(b) {
      JoinedIsInjective(if a == [] then CURRENT else a, if b == [] then CURRENT else b);
    }
  }

  lemma {:induction false} JoinIsValid(parts: seq<Bytes>)
    requires forall i | 0 <= i < |parts| :: Valid(parts[i]) && Printable(parts[i])
    ensures Valid(Join(SLASH, parts))
    ensures forall i | 0 <= i < |Join(SLASH, parts)| :: !Control(Join(SLASH, parts)[i])
  {
    hide Valid;
    if parts == [] {
      AsciiIsValid([]);
    } else if |parts| > 1 {
      JoinIsValid(parts[1..]);
      AsciiIsValid([SLASH]);
      ValidAppend(parts[0], [SLASH]);
      ValidAppend(parts[0] + [SLASH], Join(SLASH, parts[1..]));
    }
  }

  /** Every path is printed on one line of valid text. */
  lemma EveryPathIsOneLine(path: seq<Bytes>)
    requires Components(path)
    ensures Valid(Displayed(path)) && Displayed(path) != []
    ensures forall i | 0 <= i < |Displayed(path)| :: !Control(Displayed(path)[i])
  {
    var parts := EscapedAll(path);
    forall i | 0 <= i < |parts|
      ensures Valid(parts[i]) && Printable(parts[i])
    {
      assert Slashless(path[i]);
      PrintingIsClean(path[i]);
    }
    JoinIsValid(parts);
    AsciiIsValid(DOT);
  }
}
