/**
 When the parser of a configuration keeps its promise to refuse what it cannot read
 (models/lockproto/run.py): the tokens of all `CONSTANT` sections are read as one, and a quote that is never closed is
 a token of its own.
 */
module CfgSections {
  import opened Basics
  import opened CfgConstants
  import opened CfgPrinter

  function WithFirst(t: Token, sections: seq<seq<Token>>): seq<seq<Token>> {
    if sections == [] then [[t]] else [[t] + sections[0]] + sections[1..]
  }

  /** The `CONSTANT` sections of a file, each begun by its keyword; the first is what follows `inside` one. */
  function Sections(file: seq<Token>, inside: bool): (r: seq<seq<Token>>)
    ensures inside ==> r != []
  {
    if file == [] then if inside then [[]] else []
    else if Comment(file[0].text) then Sections(file[1..], inside)
    else if Keyword(file[0].text) then
      var rest := Sections(file[1..], file[0].text in CONSTANT_WORDS);
      if inside then [[]] + rest else rest
    else if inside then WithFirst(file[0], Sections(file[1..], inside))
    else Sections(file[1..], inside)
  }

  function Concat(sections: seq<seq<Token>>): seq<Token> {
    if sections == [] then [] else sections[0] + Concat(sections[1..])
  }

  /** What the parser reads is all the sections, one after another. */
  lemma {:induction false} SectionsAreReadAsOne(file: seq<Token>, inside: bool)
    ensures Concat(Sections(file, inside)) == Section(file, inside)
  {
    hide Comment, Keyword;
    if file != [] {
      if Comment(file[0].text) {
        SectionsAreReadAsOne(file[1..], inside);
      } else if Keyword(file[0].text) {
        SectionsAreReadAsOne(file[1..], file[0].text in CONSTANT_WORDS);
      } else {
        SectionsAreReadAsOne(file[1..], inside);
      }
    }
  }

  // ---------------------------------------------------------------------------------------------
  // Items and sections

  /** Each section, by itself, is a sequence of `NAME = VALUE`. */
  ghost predicate EachReadable(sections: seq<seq<Token>>) {
    forall k | 0 <= k < |sections| :: Spelled(sections[k])
  }

  ghost predicate Spelled(t: seq<Token>) {
    exists items :: Spells(items, t)
  }

  /** The number of tokens of some items. */
  function Width(items: seq<Item>): nat {
    if items == [] then 0 else Length(items[0]) + Width(items[1..])
  }

  /** A place among the tokens of `items` that is between two of them, or at an end. */
  ghost predicate Between(items: seq<Item>, place: nat) {
    exists j | 0 <= j <= |items| :: Width(items[..j]) == place
  }

  /** Every keyword that ends a section, or begins the next one, stands between items. */
  ghost predicate KeywordsFallBetween(items: seq<Item>, sections: seq<seq<Token>>) {
    forall k | 0 <= k <= |sections| :: Between(items, |Concat(sections[..k])|)
  }

  lemma {:induction false} SpelledWidth(items: seq<Item>, t: seq<Token>)
    requires Spells(items, t)
    ensures Width(items) == |t|
    decreases |items|
  {
    hide Starts, Length;
    if items != [] {
      StartsFits(items[0], t);
      SpelledWidth(items[1..], t[Length(items[0])..]);
    }
  }

  lemma StartsSooner(item: Item, t: seq<Token>, more: seq<Token>)
    requires Length(item) <= |t|
    ensures Starts(item, t + more) <==> Starts(item, t)
  {
    hide Ident, Digits, Quoted;
    var v, w := t[2..], (t + more)[2..];
    assert forall i | 0 <= i < |v| :: w[i] == v[i];
    if item.form.Listing? {
      var es := item.form.elements;
      assert forall k | 0 <= k < |es| :: ElementAt(es, k, v) <==> ElementAt(es, k, w);
    }
  }

  /** Tokens that are items, cut at a place between two of them, are items before and after it. */
  lemma {:induction false} SpellsApart(items: seq<Item>, t: seq<Token>, j: nat)
    requires Spells(items, t) && j <= |items|
    ensures Width(items[..j]) <= |t|
    ensures Spells(items[..j], t[..Width(items[..j])]) && Spells(items[j..], t[Width(items[..j])..])
    decreases j
  {
    hide Starts, Length;
    if j == 0 {
      assert items[..0] == [] && items[0..] == items && t[..0] == [] && t[0..] == t;
    } else {
      var n := Length(items[0]);
      StartsFits(items[0], t);
      SpellsApart(items[1..], t[n..], j - 1);
      assert items[..j][1..] == items[1..][..j - 1] && items[1..][j - 1..] == items[j..];
      SpellsOneMore(items[..j], t, n);
    }
  }

  lemma SpellsOneMore(head: seq<Item>, t: seq<Token>, n: nat)
    requires head != [] && n == Length(head[0]) <= |t| && Starts(head[0], t)
    requires Width(head[1..]) <= |t[n..]| && Spells(head[1..], t[n..][..Width(head[1..])])
    ensures Width(head) <= |t| && Spells(head, t[..Width(head)])
    ensures t[n..][Width(head[1..])..] == t[Width(head)..]
  {
    hide Starts, Length;
    var m := Width(head);
    assert t[..m][n..] == t[n..][..m - n];
    assert t[..m] + t[m..] == t;
    StartsSooner(head[0], t[..m], t[m..]);
  }

  /** Items that make up the beginning of the tokens are the first of the items that make up all of them. */
  lemma {:induction false} SpelledFirst(a: seq<Item>, t: seq<Token>, items: seq<Item>, u: seq<Token>)
    requires Spells(a, t) && Spells(items, t + u)
    ensures a <= items && Spells(items[|a|..], u)
    decreases |a|
  {
    hide Starts, Length, Opens;
    if a == [] {
      assert t + u == u && items[0..] == items;
    } else {
      var n := Length(a[0]);
      StartsFits(a[0], t);
      StartsSooner(a[0], t, u);
      FirstIsTheSame(a[0], items, t + u);
      assert (t + u)[n..] == t[n..] + u;
      SpelledFirst(a[1..], t[n..], items[1..], u);
      assert items[1..][|a| - 1..] == items[|a|..];
      assert a == [a[0]] + a[1..] && items == [items[0]] + items[1..];
    }
  }

  lemma FirstIsTheSame(item: Item, items: seq<Item>, t: seq<Token>)
    requires Starts(item, t) && Spells(items, t)
    ensures items != [] && items[0] == item
  {
    hide Opens;
    FormIsDetermined(items[0].form, item.form, t[2..]);
  }

  lemma {:induction false} ConcatInParts(sections: seq<seq<Token>>, k: nat)
    requires k <= |sections|
    ensures Concat(sections) == Concat(sections[..k]) + Concat(sections[k..])
    decreases k
  {
    if k == 0 {
      assert sections[0..] == sections && sections[..0] == [];
    } else {
      ConcatInParts(sections[1..], k - 1);
      assert sections[..k][1..] == sections[1..][..k - 1] && sections[1..][k - 1..] == sections[k..];
    }
  }

  /** Sections that are readable one by one are cut between items. */
  lemma {:induction false} ReadableIsCutBetween(items: seq<Item>, sections: seq<seq<Token>>, k: nat)
    requires EachReadable(sections) && Spells(items, Concat(sections)) && k <= |sections|
    ensures Between(items, |Concat(sections[..k])|)
    decreases k
  {
    hide Spells;
    if k == 0 {
      assert items[..0] == [] && Width(items[..0]) == 0;
    } else {
      assert Spelled(sections[0]);
      var first :| Spells(first, sections[0]);
      var rest := sections[1..];
      SpelledFirst(first, sections[0], items, Concat(rest));
      var others := items[|first|..];
      assert EachReadable(rest) by {
        assert forall i | 0 <= i < |rest| :: rest[i] == sections[i + 1];
      }
      ReadableIsCutBetween(others, rest, k - 1);
      var j :| 0 <= j <= |others| && Width(others[..j]) == |Concat(rest[..k - 1])|;
      WidthTogether(first, others[..j]);
      SpelledWidth(first, sections[0]);
      assert items[..|first| + j] == first + others[..j];
      assert sections[..k][1..] == rest[..k - 1];
      assert Width(items[..|first| + j]) == |Concat(sections[..k])|;
    }
  }

  lemma {:induction false} WidthTogether(a: seq<Item>, b: seq<Item>)
    ensures Width(a + b) == Width(a) + Width(b)
  {
    if a == [] {
      assert a + b == b;
    } else {
      WidthTogether(a[1..], b);
      assert (a + b)[1..] == a[1..] + b;
    }
  }

  /** A section that lies between two places between items is readable by itself. */
  lemma CutBetweenIsReadable(items: seq<Item>, sections: seq<seq<Token>>, k: nat)
    requires Spells(items, Concat(sections)) && KeywordsFallBetween(items, sections) && k < |sections|
    ensures Spelled(sections[k])
  {
    hide Spells;
    var t := Concat(sections);
    ConcatInParts(sections, k);
    ConcatInParts(sections, k + 1);
    ConcatInParts(sections[..k + 1], k);
    var before, upto := Concat(sections[..k]), Concat(sections[..k + 1]);
    assert sections[..k + 1][..k] == sections[..k] && sections[..k + 1][k..] == [sections[k]];
    assert Concat([sections[k]]) == sections[k] + Concat([]);
    assert upto == before + sections[k];
    var j :| 0 <= j <= |items| && Width(items[..j]) == |upto|;
    SpellsApart(items, t, j);
    assert t[..|upto|] == upto;
    var head := items[..j];
    var i :| 0 <= i <= |items| && Width(items[..i]) == |before|;
    SpellsApart(items, t, i);
    assert t[..|before|] == before;
    SpelledFirst(items[..i], before, head, sections[k]);
  }

  /** The items each lie in one section exactly when no keyword falls inside one of them. */
  lemma InOneSectionIff(items: seq<Item>, sections: seq<seq<Token>>)
    requires Spells(items, Concat(sections))
    ensures EachReadable(sections) <==> KeywordsFallBetween(items, sections)
  {
    hide Spells, Spelled, Between;
    if EachReadable(sections) {
      forall k | 0 <= k <= |sections|
        ensures Between(items, |Concat(sections[..k])|)
      {
        ReadableIsCutBetween(items, sections, k);
      }
    }
    if KeywordsFallBetween(items, sections) {
      forall k | 0 <= k < |sections|
        ensures Spelled(sections[k])
      {
        CutBetweenIsReadable(items, sections, k);
      }
    }
  }

  // ---------------------------------------------------------------------------------------------
  // The promise to refuse

  /** What an accepted file must be for nothing unreadable to have been let through. */
  ghost predicate AsPromised(items: seq<Item>, file: seq<Token>) {
    AllClosed(items) && EachReadable(Sections(file, false))
  }

  /**
   A file that is accepted is one that should be, if and only if no quote stands alone in its `CONSTANT` sections and
   no keyword falls inside an item.
   */
  lemma RefusesAsPromisedIff(items: seq<Item>, file: seq<Token>)
    requires Spells(items, Section(file, false)) && Scanned(Section(file, false))
    ensures AsPromised(items, file) <==>
      NoLoneQuote(Section(file, false)) && KeywordsFallBetween(items, Sections(file, false))
  {
    hide Spells, EachReadable, KeywordsFallBetween, AllClosed, NoLoneQuote;
    SectionsAreReadAsOne(file, false);
    FailsClosedIffNoLoneQuote(items, Section(file, false));
    InOneSectionIff(items, Sections(file, false));
  }

  /** An assignment cut in two by other sections: `CONSTANT X = INIT Foo CONSTANT 3` assigns 3. */
  lemma ACutAssignmentIsRead() returns (items: seq<Item>, file: seq<Token>)
    ensures var t := Section(file, false);
      && Spells(items, t) && Distinct(items) && AllProper(items) && Meaning(items) == map["X" := Int(3)]
      && Scanned(t) && NoLoneQuote(t) && !EachReadable(Sections(file, false))
  {
    var x, eq, three := Token("X", 9, 10), Token("=", 11, 12), Token("3", 31, 32);
    var again := [Token("CONSTANT", 22, 30)] + [three];
    var init := [Token("INIT", 13, 17)] + ([Token("Foo", 18, 21)] + again);
    file := [Token("CONSTANT", 0, 8)] + ([x] + ([eq] + init));
    items := [Item("X", Numeral("3"))];
    CutTail(three, again, init);
    CutFile(x, eq, three, init, file);
    hide Section, Sections, Spells, Meaning, AllProper, Scanned, NoLoneQuote;
    WholeIsRead(x, eq, three);
    HalfIsNotRead(x, eq);
    assert Sections(file, false)[0] == [x, eq];
  }

  lemma WholeIsRead(x: Token, eq: Token, three: Token)
    requires x.text == "X" && eq.text == "=" && three.text == "3"
    ensures var items, t := [Item("X", Numeral("3"))], [x, eq, three];
      && Spells(items, t) && Distinct(items) && AllProper(items) && Meaning(items) == map["X" := Int(3)]
      && Scanned(t) && NoLoneQuote(t)
  {
    var item, t := Item("X", Numeral("3")), [x, eq, three];
    assert Starts(item, t) && t[3..] == [];
    assert Spells([], t[Length(item)..]);
    MeaningOfOneMore([], item);
    assert [] + [item] == [item];
    assert Number("3") == 3 by { assert "3"[..0] == ""; }
  }

  lemma HalfIsNotRead(x: Token, eq: Token)
    ensures !Spelled([x, eq])
  {
    forall some: seq<Item>
      ensures !Spells(some, [x, eq])
    {
      if Spells(some, [x, eq]) {
        SpelledWidth(some, [x, eq]);
        NoItemIsThatShort(some);
      }
    }
  }

  lemma NoItemIsThatShort(items: seq<Item>)
    ensures Width(items) == 0 || Width(items) >= 3
  {
  }

  lemma OneMoreToken(t: Token, rest: seq<Token>, inside: bool)
    requires !Comment(t.text)
    ensures var word := Keyword(t.text); var begins := t.text in CONSTANT_WORDS;
      && Section([t] + rest, inside) ==
         (if word then Section(rest, begins) else (if inside then [t] else []) + Section(rest, inside))
      && Sections([t] + rest, inside) ==
         (if word then (if inside then [[]] else []) + Sections(rest, begins)
          else if inside then WithFirst(t, Sections(rest, inside)) else Sections(rest, inside))
  {
    assert ([t] + rest)[1..] == rest;
  }

  lemma CutTail(three: Token, again: seq<Token>, init: seq<Token>)
    requires three.text == "3" && again == [Token("CONSTANT", 22, 30)] + [three]
    requires init == [Token("INIT", 13, 17)] + ([Token("Foo", 18, 21)] + again)
    ensures Section(init, true) == [three] && Sections(init, true) == [[], [three]]
  {
    PlainWords();
    hide Keyword, Comment, Section, Sections;
    NothingLeft();
    OneMoreToken(three, [], true);
    assert [three] + [] == [three];
    OneMoreToken(Token("CONSTANT", 22, 30), [three], false);
    OneMoreToken(Token("Foo", 18, 21), again, false);
    OneMoreToken(Token("INIT", 13, 17), [Token("Foo", 18, 21)] + again, true);
  }

  lemma CutFile(x: Token, eq: Token, three: Token, init: seq<Token>, file: seq<Token>)
    requires x.text == "X" && eq.text == "="
    requires Section(init, true) == [three] && Sections(init, true) == [[], [three]]
    requires file == [Token("CONSTANT", 0, 8)] + ([x] + ([eq] + init))
    ensures Section(file, false) == [x, eq, three]
    ensures Sections(file, false) == [[x, eq], [three]]
  {
    PlainWords();
    hide Keyword, Comment, Section, Sections;
    OneMoreToken(eq, init, true);
    OneMoreToken(x, [eq] + init, true);
    assert [eq] + [] == [eq] && [x] + [eq] == [x, eq];
    assert WithFirst(eq, [[], [three]]) == [[eq], [three]] && WithFirst(x, [[eq], [three]]) == [[x, eq], [three]];
    OneMoreToken(Token("CONSTANT", 0, 8), [x] + ([eq] + init), false);
  }

  lemma NothingLeft()
    ensures Section([], true) == [] && Sections([], true) == [[]]
  {
  }

  /** Which words of the example are keywords. */
  lemma PlainWords()
    ensures !Keyword("X") && !Keyword("=") && !Keyword("3") && !Keyword("Foo")
    ensures Keyword("INIT") && "INIT" !in CONSTANT_WORDS && Keyword("CONSTANT") && "CONSTANT" in CONSTANT_WORDS
    ensures !Comment("X") && !Comment("=") && !Comment("3") && !Comment("Foo") && !Comment("INIT")
    ensures !Comment("CONSTANT")
  {
    hide Keyword;
    assert "INIT"[0] == 'I' && "CONSTANT"[0] == 'C' && "CONSTANTS"[0] == 'C';
    assert Keyword("INIT") && Keyword("CONSTANT") by { SomeKeywords(); }
    forall s | s == "X" || s == "=" || s == "3" || s == "Foo"
      ensures !Keyword(s)
    {
      if Keyword(s) {
        KeywordIsIdent(s);
      }
    }
  }

  lemma SomeKeywords()
    ensures Keyword("INIT") && Keyword("CONSTANT")
  {
  }
}
