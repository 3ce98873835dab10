/** A printer of constants, whose output the parser of the configuration reads back. */
module CfgPrinter {
  import opened Basics
  import opened CfgConstants

  // ---------------------------------------------------------------------------------------------
  // The section of a file

  /** The tokens of the `CONSTANT` sections; `inside` says whether the tokens begin in one. */
  function Section(file: seq<Token>, inside: bool): seq<Token> {
    if file == [] then []
    else if Comment(file[0].text) then Section(file[1..], inside)
    else if Keyword(file[0].text) then Section(file[1..], file[0].text in CONSTANT_WORDS)
    else if inside then [file[0]] + Section(file[1..], inside)
    else Section(file[1..], inside)
  }

  /** The first loop of `cfg_constants`. */
  method Select(file: seq<Token>) returns (t: seq<Token>)
    ensures t == Section(file, false)
  {
    t := [];
    var inside := false;
    for i := 0 to |file|
      invariant t + Section(file[i..], inside) == Section(file, false)
    {
      assert file[i..][1..] == file[i + 1..];
      var text := file[i].text;
      if !Comment(text) {
        if Keyword(text) {
          inside := text in CONSTANT_WORDS;
        } else if inside {
          t := t + [file[i]];
        }
      }
    }
  }

  /** `cfg_constants`: what the `CONSTANT` sections of a file assign, or nothing if they cannot be read. */
  method CfgConstantsOf(file: seq<Token>) returns (r: Option<map<string, Value>>, ghost items: seq<Item>)
    ensures r.Some? ==>
      Spells(items, Section(file, false)) && Distinct(items) && AllProper(items) && r.value == Meaning(items)
    ensures r.None? ==> !Readable(Section(file, false))
  {
    var t := Select(file);
    r, items := ParseConstants(t);
  }

  /** Between `a` and `b` the token makes no difference. */
  predicate Unseen(a: seq<Token>, c: Token, b: seq<Token>) {
    Section(a + [c] + b, false) == Section(a + b, false)
  }

  lemma {:induction false} CommentsAreDropped(a: seq<Token>, c: Token, b: seq<Token>, inside: bool)
    requires Comment(c.text)
    ensures Section(a + [c] + b, inside) == Section(a + b, inside)
  {
    hide Comment, Keyword;
    var file, plain := a + [c] + b, a + b;
    if a == [] {
      assert file[0] == c && file[1..] == b == plain;
    } else {
      assert file[0] == plain[0] == a[0] && file[1..] == a[1..] + [c] + b && plain[1..] == a[1..] + b;
      CommentsAreDropped(a[1..], c, b, inside);
      CommentsAreDropped(a[1..], c, b, a[0].text in CONSTANT_WORDS);
    }
  }

  /** Of the tokens that are no keywords, exactly the comments make no difference wherever they stand. */
  lemma CommentsAreUnseen(c: Token)
    requires !Keyword(c.text)
    ensures "(*" <= c.text || "\\*" <= c.text <==> forall a, b :: Unseen(a, c, b)
  {
    if Comment(c.text) {
      forall a, b
        ensures Unseen(a, c, b)
      {
        CommentsAreDropped(a, c, b, false);
      }
    } else {
      var word := Token("CONSTANT", 0, 8);
      assert Section([c], true) == [c];
      assert ([word] + [c] + [])[1..] == [c] && ([word] + [])[1..] == [];
      assert !Unseen([word], c, []);
    }
  }

  lemma {:induction false} SectionKeepsAll(t: seq<Token>)
    requires forall i | 0 <= i < |t| :: !Comment(t[i].text) && !Keyword(t[i].text)
    ensures Section(t, true) == t
  {
    hide Comment, Keyword;
    if t != [] {
      SectionKeepsAll(t[1..]);
      assert t == [t[0]] + t[1..];
    }
  }

  // ---------------------------------------------------------------------------------------------
  // Printing

  function Decimal(n: nat): string {
    var digit := [('0' as int + n % 10) as char];
    if n < 10 then digit else Decimal(n / 10) + digit
  }

  lemma {:induction false} DecimalIsRead(n: nat)
    ensures Digits(Decimal(n)) && Number(Decimal(n)) == n
  {
    var s := Decimal(n);
    if n < 10 {
      assert s[..0] == "";
    } else {
      DecimalIsRead(n / 10);
      assert s[..|s| - 1] == Decimal(n / 10);
    }
  }

  function FormTexts(f: Form): (texts: seq<string>)
    ensures |texts| == FormLength(f)
  {
    match f
    case Numeral(digits) => [digits]
    case Negative(digits) => ["-", digits]
    case Truth(b) => [if b then "TRUE" else "FALSE"]
    case Text(token) => [token]
    case Listing(elements) => seq(FormLength(f), i requires 0 <= i < FormLength(f) => ListingText(elements, i))
    case ModelValue(id) => [id]
  }

  function ListingText(elements: seq<string>, i: nat): string
    requires i < FormLength(Listing(elements))
  {
    if i == 0 then "{"
    else if elements == [] || i == 2 * |elements| then "}"
    else if i % 2 == 1 then elements[i / 2]
    else ","
  }

  function Texts(items: seq<Item>): seq<string> {
    if items == [] then [] else [items[0].name, "="] + FormTexts(items[0].form) + Texts(items[1..])
  }

  /** The texts set out from `pos` with a space after each, but none after a minus sign. */
  function Place(texts: seq<string>, pos: nat): (t: seq<Token>)
    ensures |t| == |texts|
  {
    if texts == [] then []
    else
      var end := pos + |texts[0]|;
      [Token(texts[0], pos, end)] + Place(texts[1..], if texts[0] == "-" then end else end + 1)
  }

  lemma {:induction false} PlacedTexts(texts: seq<string>, pos: nat)
    ensures forall i | 0 <= i < |texts| :: Place(texts, pos)[i].text == texts[i]
  {
    if texts != [] {
      var end := pos + |texts[0]|;
      PlacedTexts(texts[1..], if texts[0] == "-" then end else end + 1);
    }
  }

  lemma {:induction false} PlaceInParts(a: seq<string>, b: seq<string>, pos: nat) returns (mid: nat)
    ensures Place(a + b, pos) == Place(a, pos) + Place(b, mid)
  {
    if a == [] {
      assert a + b == b;
      mid := pos;
    } else {
      var end := pos + |a[0]|;
      var next := if a[0] == "-" then end else end + 1;
      mid := PlaceInParts(a[1..], b, next);
      assert (a + b)[0] == a[0] && (a + b)[1..] == a[1..] + b;
      var first := [Token(a[0], pos, end)];
      assert Place(a + b, pos) == first + (Place(a[1..], next) + Place(b, mid));
      assert Place(a, pos) == first + Place(a[1..], next);
    }
  }

  lemma FormIsPlaced(f: Form, rest: seq<Token>, pos: nat)
    requires Proper(f)
    ensures Opens(f, Place(FormTexts(f), pos) + rest)
  {
    hide Ident, Digits, Quoted;
    var t := Place(FormTexts(f), pos) + rest;
    PlacedTexts(FormTexts(f), pos);
    if f.Listing? {
      var es := f.elements;
      forall k | 0 <= k < |es|
        ensures ElementAt(es, k, t)
      {
        assert t[2 * k + 1].text == ListingText(es, 2 * k + 1);
        assert t[2 * k + 2].text == ListingText(es, 2 * k + 2);
      }
    }
  }

  predicate Printable(items: seq<Item>) {
    forall i | 0 <= i < |items| :: Ident(items[i].name) && Proper(items[i].form)
  }

  /** What the printer sets out is those items. */
  lemma {:induction false} PrintedIsSpelled(items: seq<Item>, pos: nat)
    requires Printable(items)
    ensures Spells(items, Place(Texts(items), pos))
  {
    hide Opens, FormTexts, Proper, Ident, Place;
    if items == [] {
      assert Place(Texts(items), pos) == [];
    } else {
      var head, body, tail := [items[0].name, "="], FormTexts(items[0].form), Texts(items[1..]);
      var mid := PlaceInParts(head + body, tail, pos);
      var from := PlaceInParts(head, body, pos);
      FormIsPlaced(items[0].form, Place(tail, mid), from);
      PrintedIsSpelled(items[1..], mid);
      var t := Place(Texts(items), pos);
      PlacedTexts(Texts(items), pos);
      assert t[2..] == Place(body, from) + Place(tail, mid);
      assert t[Length(items[0])..] == Place(tail, mid);
    }
  }

  /** There is one way to read a sequence of tokens. */
  lemma {:induction false} SpellingIsDetermined(a: seq<Item>, b: seq<Item>, t: seq<Token>)
    requires Spells(a, t) && Spells(b, t)
    ensures a == b
    decreases |a|
  {
    hide Opens;
    if t != [] {
      FormIsDetermined(a[0].form, b[0].form, t[2..]);
      StartsFits(a[0], t);
      SpellingIsDetermined(a[1..], b[1..], t[Length(a[0])..]);
      assert a == [a[0]] + a[1..] && b == [b[0]] + b[1..];
    }
  }

  // ---------------------------------------------------------------------------------------------
  // Maps of constants

  predicate Safe(s: string) { Ident(s) && !Keyword(s) }

  /** The maps there are files for: names, and elements of sets, that are identifiers and no keywords. */
  predicate Writable(m: map<string, Value>) {
    forall name | name in m :: Safe(name) && (m[name].SetOf? ==> forall e | e in m[name].elements :: Safe(e))
  }

  method InSomeOrder(s: set<string>) returns (r: seq<string>)
    ensures (set e | e in r) == s
  {
    r := [];
    var rest := s;
    while rest != {}
      invariant rest <= s && forall e :: e in r <==> e in s - rest
    {
      var e :| e in rest;
      r := r + [e];
      rest := rest - {e};
    }
  }

  method FormOf(v: Value) returns (f: Form)
    requires v.SetOf? ==> forall e | e in v.elements :: Safe(e)
    ensures Proper(f) && Literal(f) == Some(v)
    ensures forall i | 0 <= i < FormLength(f) :: !Keyword(FormTexts(f)[i]) && !Comment(FormTexts(f)[i])
  {
    hide Keyword;
    NoKeywords();
    match v
    case Int(n) =>
      var size := if n < 0 then -n else n;
      DecimalIsRead(size);
      NumeralIsNoKeyword(Decimal(size));
      f := if n < 0 then Negative(Decimal(size)) else Numeral(Decimal(size));
    case Bool(b) => f := Truth(b);
    case Str(s) =>
      QuotedIsNoKeyword("\"" + s + "\"");
      f := Text("\"" + s + "\"");
      assert Unquoted(f.token) == s;
    case SetOf(elements) =>
      var es := InSomeOrder(elements);
      assert forall i | 0 <= i < |es| :: Safe(es[i]) by {
        assert forall i | 0 <= i < |es| :: es[i] in (set e | e in es);
      }
      ListingIsSafe(es);
      f := Listing(es);
  }

  lemma NoKeywords()
    ensures forall s | s == "-" || s == "TRUE" || s == "FALSE" || s == "{" || s == "}" || s == "," || s == "=" ::
      !Keyword(s) && !Comment(s)
  {
    hide Keyword;
    forall s | s == "-" || s == "TRUE" || s == "FALSE" || s == "{" || s == "}" || s == "," || s == "="
      ensures !Keyword(s) && !Comment(s)
    {
      assert |s| == 4 ==> s[1] == 'R';
      assert |s| == 5 ==> s[0] == 'F';
      if Keyword(s) {
        KeywordIsIdent(s);
      }
    }
  }

  lemma KeywordIsIdent(s: string)
    requires Keyword(s)
    ensures |s| >= 4 && Letter(s[0]) && (|s| == 4 ==> s[1] != 'R') && (|s| == 5 ==> s[0] != 'F')
  {
  }

  lemma NumeralIsNoKeyword(s: string)
    requires Digits(s)
    ensures !Keyword(s) && !Comment(s)
  {
    hide Keyword;
    assert Digit(s[0]);
    if Keyword(s) {
      KeywordIsIdent(s);
    }
  }

  lemma QuotedIsNoKeyword(s: string)
    requires Quoted(s)
    ensures !Keyword(s) && !Comment(s)
  {
    hide Keyword;
    if Keyword(s) {
      KeywordIsIdent(s);
    }
  }

  lemma ListingIsSafe(es: seq<string>)
    requires forall e | e in es :: Safe(e)
    ensures forall i | 0 <= i < FormLength(Listing(es)) :: !Keyword(ListingText(es, i)) && !Comment(ListingText(es, i))
  {
    hide Keyword;
    NoKeywords();
    forall i | 0 <= i < FormLength(Listing(es))
      ensures !Keyword(ListingText(es, i)) && !Comment(ListingText(es, i))
    {
      if ListingText(es, i) in es {
        assert Safe(ListingText(es, i));
      }
    }
  }

  predicate Plain(texts: seq<string>) {
    forall i | 0 <= i < |texts| :: !Keyword(texts[i]) && !Comment(texts[i])
  }

  lemma {:induction false} TextsAppend(items: seq<Item>, item: Item)
    ensures Texts(items + [item]) == Texts(items) + ([item.name, "="] + FormTexts(item.form))
  {
    hide FormTexts;
    if items == [] {
      assert ([item])[1..] == [];
      assert Texts([item]) == [item.name, "="] + FormTexts(item.form) + [];
    } else {
      TextsAppend(items[1..], item);
      assert (items + [item])[1..] == items[1..] + [item];
    }
  }

  /** The items for a map, one for each name in some order. */
  method Print(m: map<string, Value>) returns (items: seq<Item>)
    requires Writable(m)
    ensures Printable(items) && Distinct(items) && Plain(Texts(items))
    ensures AllProper(items) && Meaning(items) == m
  {
    hide Keyword, Texts, FormTexts, Literal, Comment;
    items := [];
    var rest := m.Keys;
    assert Plain(Texts(items)) by { NoTexts(); }
    while rest != {}
      invariant rest <= m.Keys
      invariant Printable(items) && Distinct(items) && Plain(Texts(items)) && AllProper(items)
      invariant forall i | 0 <= i < |items| :: items[i].name in m.Keys - rest
      invariant Meaning(items) == m - rest
    {
      var name :| name in rest;
      var form := FormOf(m[name]);
      var item := Item(name, form);
      MeaningOfOneMore(items, item);
      TextsAppend(items, item);
      NameIsPlain(name, FormTexts(form));
      assert Safe(name);
      items := items + [item];
      rest := rest - {name};
      assert Meaning(items) == m - rest;
    }
    assert m - {} == m;
  }

  lemma NoTexts()
    ensures Texts([]) == []
  {
  }

  lemma NameIsPlain(name: string, texts: seq<string>)
    requires Safe(name) && Plain(texts)
    ensures Plain([name, "="] + texts)
  {
    hide Keyword;
    NoKeywords();
  }

  /** The file can be read in one way only, and so read says `m`. */
  ghost predicate Says(file: seq<Token>, m: map<string, Value>) {
    && Readable(Section(file, false))
    && forall items | Spells(items, Section(file, false)) :: AllProper(items) && Meaning(items) == m
  }

  /** Every writable map can be printed, after the keyword, to a file that says just that map. */
  method PrintFile(m: map<string, Value>) returns (file: seq<Token>)
    requires Writable(m)
    ensures Says(file, m)
  {
    hide Spells, Keyword, Meaning, Comment, Distinct, Texts, AllProper;
    var items := Print(m);
    var word := "CONSTANT";
    file := Place([word] + Texts(items), 0);
    ghost var mid := PlaceInParts([word], Texts(items), 0);
    PlacedTexts(Texts(items), mid);
    PlacedTexts([word], 0);
    SectionKeepsAll(Place(Texts(items), mid));
    Header(Place([word], 0), Place(Texts(items), mid));
    PrintedIsSpelled(items, mid);
    forall others | Spells(others, Section(file, false))
      ensures AllProper(others) && Meaning(others) == m
    {
      SpellingIsDetermined(items, others, Section(file, false));
    }
  }

  /** What a printed file says is what the parser reads from it. */
  method PrintAndRead(m: map<string, Value>) returns (file: seq<Token>, r: Option<map<string, Value>>)
    requires Writable(m)
    ensures Says(file, m) && r == Some(m)
  {
    hide Spells, Meaning, Section, AllProper;
    file := PrintFile(m);
    ghost var read;
    r, read := CfgConstantsOf(file);
  }

  lemma Header(word: seq<Token>, t: seq<Token>)
    requires |word| == 1 && word[0].text == "CONSTANT"
    ensures Section(word + t, false) == Section(t, true)
  {
    assert (word + t)[1..] == t;
  }
}
