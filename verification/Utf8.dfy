/**
 UTF-8 as section 4 of RFC 3629 defines it, and the validation of Rust's `str::from_utf8` with its two answers about
 an invalid input: where the valid part ends, and how many bytes of an invalid sequence follow.
 */
module Utf8 {
  import opened Basics

  predicate Tail(b: byte) { 0x80 <= b <= 0xBF }

  /** The production `UTF8-char`. */
  predicate IsChar(u: Bytes) {
    || (|u| == 1 && u[0] <= 0x7F)
    || (|u| == 2 && 0xC2 <= u[0] <= 0xDF && Tail(u[1]))
    || (|u| == 3 && Tail(u[2]) &&
        (|| (u[0] == 0xE0 && 0xA0 <= u[1] <= 0xBF)
         || (0xE1 <= u[0] <= 0xEC && Tail(u[1]))
         || (u[0] == 0xED && 0x80 <= u[1] <= 0x9F)
         || (0xEE <= u[0] <= 0xEF && Tail(u[1]))))
    || (|u| == 4 && Tail(u[2]) && Tail(u[3]) &&
        (|| (u[0] == 0xF0 && 0x90 <= u[1] <= 0xBF)
         || (0xF1 <= u[0] <= 0xF3 && Tail(u[1]))
         || (u[0] == 0xF4 && 0x80 <= u[1] <= 0x8F)))
  }

  /** The production `UTF8-octets`: a sequence of characters. */
  ghost predicate Valid(b: Bytes) {
    b == [] || exists n | 1 <= n <= |b| :: IsChar(b[..n]) && Valid(b[n..])
  }

  /** The start of a byte string: a character, an invalid sequence of known length, or a character cut off. */
  datatype Unit = Char(n: nat) | Invalid(n: nat) | CutOff

  function Width(first: byte): nat {
    if first <= 0x7F then 1
    else if 0xC2 <= first <= 0xDF then 2
    else if 0xE0 <= first <= 0xEF then 3
    else if 0xF0 <= first <= 0xF4 then 4
    else 0
  }

  /** Whether the second byte of a wider character may follow its first. */
  predicate SecondFits(first: byte, second: byte) {
    if first == 0xE0 then 0xA0 <= second <= 0xBF
    else if first == 0xED then 0x80 <= second <= 0x9F
    else if first == 0xF0 then 0x90 <= second <= 0xBF
    else if first == 0xF4 then 0x80 <= second <= 0x8F
    else Tail(second)
  }

  function FirstUnit(b: Bytes): (u: Unit)
    requires b != []
    ensures !u.CutOff? ==> 1 <= u.n <= |b|
  {
    var w := Width(b[0]);
    if w == 0 then Invalid(1)
    else if w == 1 then Char(1)
    else if |b| < 2 then CutOff
    else if !SecondFits(b[0], b[1]) then Invalid(1)
    else if w == 2 then Char(2)
    else if |b| < 3 then CutOff
    else if !Tail(b[2]) then Invalid(2)
    else if w == 3 then Char(3)
    else if |b| < 4 then CutOff
    else if !Tail(b[3]) then Invalid(3)
    else Char(4)
  }

  /** The validation finds exactly the characters of the grammar. */
  lemma FirstUnitIsTheGrammar(b: Bytes, n: nat)
    requires b != []
    ensures FirstUnit(b) == Char(n) <==> n <= |b| && IsChar(b[..n])
  {
    if n <= |b| && 1 <= n <= 4 {
      var u := b[..n];
      assert forall i | 0 <= i < n :: u[i] == b[i];
    }
  }

  lemma {:induction false} ValidStep(b: Bytes)
    requires b != []
    ensures Valid(b) <==> FirstUnit(b).Char? && Valid(b[FirstUnit(b).n..])
  {
    if FirstUnit(b).Char? {
      FirstUnitIsTheGrammar(b, FirstUnit(b).n);
    }
    if Valid(b) {
      var n :| 1 <= n <= |b| && IsChar(b[..n]) && Valid(b[n..]);
      FirstUnitIsTheGrammar(b, n);
    }
  }

  lemma ValidCons(b: Bytes, n: nat)
    requires 1 <= n <= |b| && IsChar(b[..n]) && Valid(b[n..])
    ensures Valid(b)
  {
  }

  lemma {:induction false} ValidAppend(a: Bytes, b: Bytes)
    requires Valid(a) && Valid(b)
    ensures Valid(a + b)
    decreases |a|
  {
    hide IsChar;
    if a == [] {
      assert a + b == b;
    } else {
      var n :| 1 <= n <= |a| && IsChar(a[..n]) && Valid(a[n..]);
      ValidAppend(a[n..], b);
      assert (a + b)[..n] == a[..n] && (a + b)[n..] == a[n..] + b;
      ValidCons(a + b, n);
    }
  }

  /** Any byte string of ASCII is valid. */
  lemma {:induction false} AsciiIsValid(b: Bytes)
    requires forall i | 0 <= i < |b| :: b[i] <= 0x7F
    ensures Valid(b)
  {
    if b != [] {
      AsciiIsValid(b[1..]);
      assert IsChar(b[..1]);
    }
  }

  /** `str::from_utf8`: the length of the longest valid prefix. */
  function ValidUpTo(b: Bytes): (n: nat)
    ensures n <= |b|
  {
    if b == [] || !FirstUnit(b).Char? then 0
    else FirstUnit(b).n + ValidUpTo(b[FirstUnit(b).n..])
  }

  lemma {:induction false} ValidUpToIsTheLongest(b: Bytes)
    ensures Valid(b[..ValidUpTo(b)])
    ensures Valid(b) <==> ValidUpTo(b) == |b|
    ensures ValidUpTo(b) < |b| ==> !FirstUnit(b[ValidUpTo(b)..]).Char?
    decreases |b|
  {
    if b != [] {
      ValidStep(b);
      if FirstUnit(b).Char? {
        var n := FirstUnit(b).n;
        ValidUpToIsTheLongest(b[n..]);
        FirstUnitIsTheGrammar(b, n);
        var m := ValidUpTo(b);
        assert b[..m][..n] == b[..n] && b[..m][n..] == b[n..][..m - n];
        assert b[m..] == b[n..][m - n..];
      }
    }
  }
}
