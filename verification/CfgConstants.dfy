/**
 The constants of a model checker's configuration (models/lockproto/run.py), from the tokens of the file: a token is
 its text and where it stands.
 */
module CfgConstants {
  import opened Basics

  datatype Token = Token(text: string, start: nat, end: nat)

  /** A literal value. */
  datatype Value = Int(n: int) | Bool(b: bool) | Str(s: string) | SetOf(elements: set<string>)

  const CONSTANT_WORDS: set<string> := {"CONSTANT", "CONSTANTS"}

  const OTHER_WORDS: set<string> := {
    "INIT", "NEXT", "SPECIFICATION", "INVARIANT", "INVARIANTS", "PROPERTY", "PROPERTIES", "SYMMETRY", "CONSTRAINT",
    "CONSTRAINTS", "ACTION_CONSTRAINT", "ACTION_CONSTRAINTS", "VIEW", "CHECK_DEADLOCK", "POSTCONDITION", "ALIAS",
    "TYPE", "TYPE_CONSTRAINT" }

  predicate Keyword(s: string) { s in CONSTANT_WORDS || s in OTHER_WORDS }

  predicate Comment(s: string) { |s| >= 2 && (s[0] == '(' || s[0] == '\\') && s[1] == '*' }

  predicate Letter(c: char) { 'A' <= c <= 'Z' || 'a' <= c <= 'z' || c == '_' }

  predicate Digit(c: char) { '0' <= c <= '9' }

  predicate Ident(s: string) {
    s != "" && Letter(s[0]) && forall i | 0 <= i < |s| :: Letter(s[i]) || Digit(s[i])
  }

  predicate Digits(s: string) {
    s != "" && forall i | 0 <= i < |s| :: Digit(s[i])
  }

  predicate Quoted(s: string) { s != "" && s[0] == '"' }

  function Number(s: string): nat
    requires forall i | 0 <= i < |s| :: Digit(s[i])
  {
    if s == "" then 0 else Number(s[..|s| - 1]) * 10 + DigitValue(s[|s| - 1])
  }

  function DigitValue(c: char): nat
    requires Digit(c)
  {
    c as int - '0' as int
  }

  /** The text of a quoted token without its first and last character; of a quote alone, nothing. */
  function Unquoted(s: string): string
    requires s != ""
  {
    if |s| == 1 then "" else s[1..|s| - 1]
  }

  // ---------------------------------------------------------------------------------------------
  // The grammar

  datatype Form =
    | Numeral(digits: string)
    | Negative(digits: string)
    | Truth(b: bool)
    | Text(token: string)
    | Listing(elements: seq<string>)
    | ModelValue(id: string)

  /** `NAME = VALUE`. */
  datatype Item = Item(name: string, form: Form)

  predicate Proper(f: Form) {
    match f
    case Numeral(digits) => Digits(digits)
    case Negative(digits) => Digits(digits)
    case Truth(_) => true
    case Text(token) => Quoted(token)
    case Listing(elements) => forall i | 0 <= i < |elements| :: Ident(elements[i])
    case ModelValue(id) => Ident(id) && id != "TRUE" && id != "FALSE"
  }

  function FormLength(f: Form): nat {
    match f
    case Negative(_) => 2
    case Listing(elements) => if elements == [] then 2 else 2 * |elements| + 1
    case _ => 1
  }

  /** The k-th element of a listing and what follows it: a comma, or after the last one the end. */
  predicate ElementAt(elements: seq<string>, k: nat, t: seq<Token>)
    requires k < |elements| && 2 * k + 2 < |t|
  {
    t[2 * k + 1].text == elements[k] && t[2 * k + 2].text == if k == |elements| - 1 then "}" else ","
  }

  /** The tokens begin with a value of this form. */
  predicate Opens(f: Form, t: seq<Token>) {
    && Proper(f) && FormLength(f) <= |t|
    && match f {
      case Numeral(digits) => t[0].text == digits
      case Negative(digits) => t[0].text == "-" && t[1].text == digits && t[1].start == t[0].end
      case Truth(b) => t[0].text == if b then "TRUE" else "FALSE"
      case Text(token) => t[0].text == token
      case Listing(elements) =>
        && t[0].text == "{"
        && (elements == [] ==> t[1].text == "}")
        && forall k | 0 <= k < |elements| :: ElementAt(elements, k, t)
      case ModelValue(id) => t[0].text == id
    }
  }

  predicate Starts(item: Item, t: seq<Token>) {
    |t| >= 2 && Ident(item.name) && t[0].text == item.name && t[1].text == "=" && Opens(item.form, t[2..])
  }

  function Length(item: Item): nat { 2 + FormLength(item.form) }

  /** The tokens are these items, one after another, and nothing else. */
  predicate Spells(items: seq<Item>, t: seq<Token>) {
    if items == [] then t == []
    else Starts(items[0], t) && Spells(items[1..], t[Length(items[0])..])
  }

  predicate Distinct(items: seq<Item>) {
    forall i, j | 0 <= i < j < |items| :: items[i].name != items[j].name
  }

  function Literal(f: Form): Option<Value>
    requires Proper(f)
  {
    match f
    case Numeral(digits) => Some(Int(Number(digits)))
    case Negative(digits) => Some(Int(0 - Number(digits)))
    case Truth(b) => Some(Bool(b))
    case Text(token) => Some(Str(Unquoted(token)))
    case Listing(elements) => Some(SetOf(set e | e in elements))
    case ModelValue(_) => None
  }

  predicate AllProper(items: seq<Item>) {
    forall i | 0 <= i < |items| :: Proper(items[i].form)
  }

  /** What the items assign: the literal values under their names, model values left out. */
  function Meaning(items: seq<Item>): map<string, Value>
    requires AllProper(items)
  {
    if items == [] then map[]
    else
      var last := items[|items| - 1];
      var most := Meaning(items[..|items| - 1]);
      if Literal(last.form).Some? then most[last.name := Literal(last.form).value] else most
  }

  // ---------------------------------------------------------------------------------------------
  // The grammar is deterministic

  lemma ListingsDiffer(a: seq<string>, b: seq<string>, t: seq<Token>)
    requires Opens(Listing(a), t) && Opens(Listing(b), t)
    ensures |a| <= |b|
    ensures forall k | 0 <= k < |a| :: a[k] == b[k]
  {
    if a != [] {
      assert ElementAt(a, 0, t) && Ident(a[0]);
    }
    if 0 < |b| <= |a| {
      assert ElementAt(a, |b| - 1, t) && ElementAt(b, |b| - 1, t);
    }
    forall k | 0 <= k < |a| && k < |b|
      ensures a[k] == b[k]
    {
      assert ElementAt(a, k, t) && ElementAt(b, k, t);
    }
  }

  /** The tokens a value may begin with are of different kinds. */
  lemma KindsDiffer(s: string)
    ensures Quoted(s) ==> !Ident(s) && !Digits(s)
    ensures Digits(s) ==> !Ident(s)
    ensures s == "{" || s == "-" || s == "}" || s == "," ==> !Quoted(s) && !Digits(s) && !Ident(s)
    ensures s == "TRUE" || s == "FALSE" ==> !Quoted(s) && !Digits(s)
  {
    assert Digits(s) ==> Digit(s[0]);
    assert Ident(s) ==> Letter(s[0]);
  }

  lemma FormIsDetermined(f: Form, g: Form, t: seq<Token>)
    requires Opens(f, t) && Opens(g, t)
    ensures f == g
  {
    hide Ident, Digits, Quoted;
    KindsDiffer(t[0].text);
    if f.Listing? && g.Listing? {
      ListingsDiffer(f.elements, g.elements, t);
      ListingsDiffer(g.elements, f.elements, t);
      assert f.elements == g.elements;
    }
  }

  // ---------------------------------------------------------------------------------------------
  // Reading one value

  /** A value at the front of the tokens, or none. */
  method ReadValue(t: seq<Token>, first: nat) returns (form: Option<Form>, next: nat)
    requires first < |t|
    ensures form.Some? ==> Opens(form.value, t[first..]) && next == first + FormLength(form.value)
    ensures form.None? ==> forall f :: !Opens(f, t[first..])
  {
    var value, i := t[first], first + 1;
    assert forall k | 0 <= k < |t| - first :: t[first..][k] == t[first + k];
    if Quoted(value.text) {
      return Some(Text(value.text)), i;
    } else if value.text == "{" {
      form, next := ReadListing(t[first..]);
      next := first + next;
    } else if Digits(value.text) {
      return Some(Numeral(value.text)), i;
    } else if value.text == "-" && i < |t| && Digits(t[i].text) && t[i].start == value.end {
      return Some(Negative(t[i].text)), i + 1;
    } else if value.text == "TRUE" || value.text == "FALSE" {
      return Some(Truth(value.text == "TRUE")), i;
    } else if Ident(value.text) {
      return Some(ModelValue(value.text)), i;
    } else {
      return None, i;
    }
  }

  /** What the loop over a set has read: identifiers, and a comma after each, but perhaps not after the last. */
  predicate ReadSoFar(elements: seq<string>, due: bool, t: seq<Token>, i: nat) {
    && i == (if elements == [] then 1 else if due then 2 * |elements| + 1 else 2 * |elements|)
    && i <= |t|
    && (elements == [] ==> due)
    && (forall k | 0 <= k < |elements| :: Ident(elements[k]) && t[2 * k + 1].text == elements[k])
    && (forall k | 0 <= k < (if due then |elements| else |elements| - 1) :: CommaAfter(k, t))
  }

  predicate CommaAfter(k: nat, t: seq<Token>) { 2 * k + 2 < |t| && t[2 * k + 2].text == "," }

  lemma Agrees(elements: seq<string>, due: bool, t: seq<Token>, i: nat, f: Form)
    requires t != [] && t[0].text == "{" && ReadSoFar(elements, due, t, i) && Opens(f, t)
    ensures f.Listing? && i < |t|
    ensures if due then (if elements == f.elements then elements == [] && t[i].text == "}" else Ident(t[i].text))
            else t[i].text == "," || t[i].text == "}"
  {
    hide Ident;
    KindsDiffer("{");
    KindsDiffer("}");
    var es := f.elements;
    if elements != [] {
      assert t[1].text == elements[0] && Ident(elements[0]);
    }
    if es != [] {
      MustCover(elements, due, t, i, es);
      if due {
        assert ElementAt(es, |elements|, t);
      } else {
        assert ElementAt(es, |elements| - 1, t);
      }
    }
  }

  lemma MustCover(elements: seq<string>, due: bool, t: seq<Token>, i: nat, es: seq<string>)
    requires t != [] && ReadSoFar(elements, due, t, i) && Opens(Listing(es), t) && es != []
    ensures if due then |elements| < |es| else |elements| <= |es|
    ensures i < |t|
  {
    var last := |es| - 1;
    assert ElementAt(es, last, t);
    var comma := CommaAfter(last, t);
  }

  lemma Closes(elements: seq<string>, due: bool, t: seq<Token>, i: nat)
    requires t != [] && t[0].text == "{" && ReadSoFar(elements, due, t, i) && i < |t| && t[i].text == "}"
    requires !due || elements == []
    ensures Opens(Listing(elements), t) && i + 1 == FormLength(Listing(elements))
  {
    hide Ident;
    forall k | 0 <= k < |elements|
      ensures ElementAt(elements, k, t)
    {
      var comma := CommaAfter(k, t);
    }
  }

  /** The loop over a set, from its opening brace. */
  method ReadListing(t: seq<Token>) returns (form: Option<Form>, next: nat)
    requires t != [] && t[0].text == "{"
    ensures form.Some? ==> form.value.Listing? && Opens(form.value, t) && next == FormLength(form.value)
    ensures form.None? ==> forall f :: !Opens(f, t)
  {
    hide Ident;
    var elements, due, i := [], true, 1;
    while i < |t|
      invariant ReadSoFar(elements, due, t, i)
    {
      var tok := t[i].text;
      if tok == "}" {
        if due && elements != [] {
          forall f
            ensures !Opens(f, t)
          {
            if Opens(f, t) {
              Agrees(elements, due, t, i, f);
              KindsDiffer("}");
            }
          }
          return None, i;
        }
        Closes(elements, due, t, i);
        return Some(Listing(elements)), i + 1;
      }
      if due {
        if !Ident(tok) {
          forall f
            ensures !Opens(f, t)
          {
            if Opens(f, t) {
              Agrees(elements, due, t, i, f);
            }
          }
          return None, i;
        }
        elements := elements + [tok];
        due := false;
      } else {
        if tok != "," {
          forall f
            ensures !Opens(f, t)
          {
            if Opens(f, t) {
              Agrees(elements, due, t, i, f);
            }
          }
          return None, i;
        }
        due := true;
      }
      i := i + 1;
    }
    forall f
      ensures !Opens(f, t)
    {
      if Opens(f, t) {
        Agrees(elements, due, t, i, f);
      }
    }
    return None, i;
  }


  // ---------------------------------------------------------------------------------------------
  // Reading them all

  /** The items read so far are the beginning of every reading of the tokens, and `i` is where they end. */
  ghost predicate Begun(done: seq<Item>, t: seq<Token>, i: nat) {
    && i <= |t|
    && (forall rest | Spells(rest, t[i..]) :: Spells(done + rest, t))
    && (forall items | Spells(items, t) :: done <= items && Spells(items[|done|..], t[i..]))
  }

  lemma NotBegun(t: seq<Token>)
    ensures Begun([], t, 0)
  {
    assert t[0..] == t;
    forall rest | Spells(rest, t[0..])
      ensures Spells([] + rest, t)
    {
      assert [] + rest == rest;
    }
    forall items: seq<Item> | Spells(items, t)
      ensures Spells(items[0..], t[0..])
    {
      assert items[0..] == items;
    }
  }

  lemma StartsFits(item: Item, t: seq<Token>)
    requires Starts(item, t)
    ensures Length(item) <= |t|
  {
  }

  lemma OneMoreItem(done: seq<Item>, t: seq<Token>, i: nat, item: Item)
    requires Begun(done, t, i) && i < |t| && Starts(item, t[i..])
    ensures Begun(done + [item], t, i + Length(item))
  {
    hide Opens;
    var left, n := t[i..], Length(item);
    StartsFits(item, left);
    assert left[n..] == t[i + n..];
    forall rest | Spells(rest, t[i + n..])
      ensures Spells((done + [item]) + rest, t)
    {
      assert ([item] + rest)[1..] == rest;
      assert Spells([item] + rest, left);
      assert (done + [item]) + rest == done + ([item] + rest);
    }
    forall items: seq<Item> | Spells(items, t)
      ensures done + [item] <= items && Spells(items[|done + [item]|..], t[i + n..])
    {
      var tail := items[|done|..];
      assert Spells(tail, left) && tail != [];
      FormIsDetermined(tail[0].form, item.form, left[2..]);
      assert tail[0] == item && tail[1..] == items[|done| + 1..];
    }
  }

  lemma ItemThere(done: seq<Item>, t: seq<Token>, i: nat, items: seq<Item>)
    requires Begun(done, t, i) && i < |t| && Spells(items, t)
    ensures exists item :: Starts(item, t[i..])
  {
    var tail := items[|done|..];
    assert Spells(tail, t[i..]) && tail != [];
    assert Starts(tail[0], t[i..]);
  }

  /** No item starts where there should be one. */
  lemma NoItem(done: seq<Item>, t: seq<Token>, i: nat)
    requires Begun(done, t, i) && i < |t| && forall item :: !Starts(item, t[i..])
    ensures forall items :: !Spells(items, t)
  {
    forall items: seq<Item>
      ensures !Spells(items, t)
    {
      if Spells(items, t) {
        ItemThere(done, t, i, items);
      }
    }
  }

  lemma NameTaken(done: seq<Item>, t: seq<Token>, i: nat, k: nat)
    requires Begun(done, t, i) && i < |t| && k < |done| && done[k].name == t[i].text
    ensures forall items | Spells(items, t) :: !Distinct(items)
  {
    forall items: seq<Item> | Spells(items, t)
      ensures !Distinct(items)
    {
      var tail := items[|done|..];
      assert Spells(tail, t[i..]) && t[i..] != [];
      assert items[|done|].name == items[k].name;
    }
  }

  ghost predicate Readable(t: seq<Token>) {
    exists items :: Spells(items, t) && Distinct(items)
  }

  /**
   The parsing of a `CONSTANT` section. It accepts exactly the sequences of `NAME = VALUE` with distinct names, and
   gives what they assign.
   */
  method ParseConstants(t: seq<Token>) returns (r: Option<map<string, Value>>, ghost items: seq<Item>)
    ensures r.Some? ==> Spells(items, t) && Distinct(items) && AllProper(items) && r.value == Meaning(items)
    ensures r.None? ==> !Readable(t)
  {
    hide Begun, Starts, Spells, Opens, Literal;
    var result: map<string, Value>, seen: set<string>, i := map[], {}, 0;
    items := [];
    assert Begun(items, t, i) by { NotBegun(t); }
    while i < |t|
      invariant i <= |t| && Begun(items, t, i) && Distinct(items) && AllProper(items)
      invariant forall s :: s in seen <==> exists k | 0 <= k < |items| :: items[k].name == s
      invariant result == Meaning(items)
    {
      var name := t[i].text;
      if !Ident(name) || i + 1 >= |t| || t[i + 1].text != "=" {
        Headless(t, i);
        NoItem(items, t, i);
        return None, items;
      }
      if name in seen {
        ghost var k :| 0 <= k < |items| && items[k].name == name;
        NameTaken(items, t, i, k);
        return None, items;
      }
      seen := seen + {name};
      if i + 2 >= |t| {
        Headless(t, i);
        NoItem(items, t, i);
        return None, items;
      }
      var form, next := ReadValue(t, i + 2);
      if form.None? {
        Valueless(t, i, t[i + 2..]);
        NoItem(items, t, i);
        return None, items;
      }
      ghost var item := Item(name, form.value);
      ItemStarts(t, i, item);
      OneMoreItem(items, t, i, item);
      MeaningOfOneMore(items, item);
      var value := Literal(form.value);
      if value.Some? {
        result := result[name := value.value];
      }
      items := items + [item];
      i := next;
    }
    AllRead(items, t, i);
    return Some(result), items;
  }

  lemma Headless(t: seq<Token>, i: nat)
    requires i < |t| && (!Ident(t[i].text) || i + 1 >= |t| || t[i + 1].text != "=" || i + 2 >= |t|)
    ensures forall item :: !Starts(item, t[i..])
  {
  }

  lemma Valueless(t: seq<Token>, i: nat, values: seq<Token>)
    requires i + 2 < |t| && values == t[i + 2..] && forall f :: !Opens(f, values)
    ensures forall item :: !Starts(item, t[i..])
  {
    assert t[i..][2..] == t[i + 2..];
  }

  lemma ItemStarts(t: seq<Token>, i: nat, item: Item)
    requires i + 2 < |t| && Ident(item.name) && t[i].text == item.name && t[i + 1].text == "="
    requires Opens(item.form, t[i + 2..])
    ensures Starts(item, t[i..]) && Proper(item.form) && i + Length(item) <= |t|
  {
    assert t[i..][2..] == t[i + 2..];
  }

  lemma MeaningOfOneMore(items: seq<Item>, item: Item)
    requires AllProper(items) && Proper(item.form)
    ensures AllProper(items + [item])
    ensures Meaning(items + [item]) ==
            if Literal(item.form).Some? then Meaning(items)[item.name := Literal(item.form).value] else Meaning(items)
  {
    assert (items + [item])[..|items|] == items;
  }

  lemma AllRead(items: seq<Item>, t: seq<Token>, i: nat)
    requires Begun(items, t, i) && i == |t|
    ensures Spells(items, t)
  {
    assert Spells([], t[i..]);
    assert items + [] == items;
  }

  // ---------------------------------------------------------------------------------------------
  // A quote that is never closed

  const QUOTE: string := "\""

  predicate ClosedText(s: string) { |s| >= 2 && s[0] == '"' && s[|s| - 1] == '"' }

  /** What the scanner makes of a quote: a whole string, or the quote alone where the string is not closed. */
  predicate Scanned(t: seq<Token>) {
    forall k | 0 <= k < |t| :: Quoted(t[k].text) ==> t[k].text == QUOTE || ClosedText(t[k].text)
  }

  predicate NoLoneQuote(t: seq<Token>) {
    forall k | 0 <= k < |t| :: t[k].text != QUOTE
  }

  /** Every string that was read has both its quotes. */
  predicate AllClosed(items: seq<Item>) {
    forall i | 0 <= i < |items| :: items[i].form.Text? ==> ClosedText(items[i].form.token)
  }

  /** A quote alone is read as the empty string, though no string was closed: `X = " Y = 3`. */
  lemma ALoneQuoteIsRead() returns (items: seq<Item>, t: seq<Token>)
    ensures Scanned(t) && Spells(items, t) && Distinct(items) && AllProper(items) && !AllClosed(items)
    ensures Meaning(items) == map["X" := Str(""), "Y" := Int(3)]
  {
    var x, y := Item("X", Text(QUOTE)), Item("Y", Numeral("3"));
    items := [x, y];
    t := [Token("X", 0, 1), Token("=", 2, 3), Token(QUOTE, 4, 5),
          Token("Y", 6, 7), Token("=", 8, 9), Token("3", 10, 11)];
    var rest := t[3..];
    assert Starts(x, t);
    assert rest == [Token("Y", 6, 7), Token("=", 8, 9), Token("3", 10, 11)];
    assert Starts(y, rest);
    assert items[1..] == [y] && t[3..][3..] == [];
    assert Spells([y], t[3..]);
    MeaningOfOneMore([], x);
    MeaningOfOneMore([x], y);
    assert [] + [x] == [x] && [x] + [y] == items;
    assert Number("3") == 3 by { assert "3"[..0] == ""; }
    assert items[0].form.Text?;
  }

  lemma FirstItemQuotes(item: Item, t: seq<Token>)
    requires Starts(item, t) && Scanned(t)
    ensures (forall k | 0 <= k < Length(item) :: k < |t| && t[k].text != QUOTE) <==>
            (item.form.Text? ==> ClosedText(item.form.token))
  {
    assert !Ident(QUOTE) && !Digits(QUOTE) by { KindsDiffer(QUOTE); }
    StartsFits(item, t);
    var v := t[2..];
    match item.form
    case Text(token) => assert t[2].text == token;
    case Listing(es) => ListingHasNoQuote(es, v);
    case Negative(_) => assert v[0] == t[2] && v[1] == t[3];
    case _ => assert v[0] == t[2];
  }

  lemma ListingHasNoQuote(es: seq<string>, v: seq<Token>)
    requires Opens(Listing(es), v)
    ensures forall k | 0 <= k < FormLength(Listing(es)) :: v[k].text != QUOTE
  {
    KindsDiffer(QUOTE);
    forall k | 0 <= k < FormLength(Listing(es))
      ensures v[k].text != QUOTE
    {
      if k > 0 && es != [] {
        assert ElementAt(es, (k - 1) / 2, v);
      }
    }
  }

  /** The parser fails closed on strings exactly when no quote stands alone among the tokens. */
  lemma {:induction false} FailsClosedIffNoLoneQuote(items: seq<Item>, t: seq<Token>)
    requires Spells(items, t) && Scanned(t)
    ensures AllClosed(items) <==> NoLoneQuote(t)
    decreases |items|
  {
    hide Opens, Ident, ClosedText;
    if items != [] {
      var n := Length(items[0]);
      StartsFits(items[0], t);
      FirstItemQuotes(items[0], t);
      FailsClosedIffNoLoneQuote(items[1..], t[n..]);
      assert AllClosed(items) <==> (items[0].form.Text? ==> ClosedText(items[0].form.token)) && AllClosed(items[1..]);
      assert NoLoneQuote(t) <==> NoLoneQuote(t[..n]) && NoLoneQuote(t[n..]) by {
        assert forall k | 0 <= k < n :: t[..n][k] == t[k];
        assert forall k | n <= k < |t| :: t[n..][k - n] == t[k];
      }
      assert forall k | 0 <= k < n :: t[..n][k] == t[k];
    }
  }
}
