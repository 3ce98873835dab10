/** The line splitter of the log writer (crates/flux-cli/src/logging.rs). */
module LineBuffer {
  import opened Basics
  import opened Joining

  const NEWLINE: byte := 10

  /** The lines of a whole stream: what stands between newlines, and a last piece only if there is one. */
  function Lines(stream: Bytes): seq<Bytes> {
    var parts := Split(NEWLINE, stream);
    if parts[|parts| - 1] == [] then parts[..|parts| - 1] else parts
  }

  /** The lines already complete, and the piece still open. */
  function Complete(stream: Bytes): seq<Bytes> {
    var parts := Split(NEWLINE, stream);
    parts[..|parts| - 1]
  }

  function Open(stream: Bytes): Bytes {
    var parts := Split(NEWLINE, stream);
    parts[|parts| - 1]
  }

  lemma SplitCons(x: byte, s: Bytes)
    ensures var rest := Split(NEWLINE, s);
      Split(NEWLINE, [x] + s) == if x == NEWLINE then [[]] + rest else [[x] + rest[0]] + rest[1..]
  {
    assert ([x] + s)[1..] == s;
  }

  lemma LongerInit(first: Bytes, rest: seq<Bytes>, t: seq<Bytes>)
    requires |rest| >= 2
    ensures var whole, parts := rest[..|rest| - 1] + t, [first] + rest[1..];
      [first] + whole[1..] == parts[..|parts| - 1] + t && whole[0] == rest[0] && parts[|parts| - 1] == rest[|rest| - 1]
  {
  }

  lemma SplitLonger(x: byte, s: Bytes, b: Bytes)
    requires Split(NEWLINE, s + b) == Complete(s) + Split(NEWLINE, Open(s) + b)
    ensures Split(NEWLINE, [x] + (s + b)) == Complete([x] + s) + Split(NEWLINE, Open([x] + s) + b)
  {
    hide Split;
    SplitCons(x, s);
    SplitCons(x, s + b);
    var rest := Split(NEWLINE, s);
    var t := Split(NEWLINE, Open(s) + b);
    if x == NEWLINE {
      assert Complete([x] + s) == [[]] + Complete(s);
    } else if |rest| == 1 {
      SplitCons(x, rest[0] + b);
      assert [x] + (rest[0] + b) == ([x] + rest[0]) + b;
      assert Complete(s) == [] && Complete([x] + s) == [];
      assert Split(NEWLINE, s + b) == t;
    } else {
      LongerInit([x] + rest[0], rest, t);
    }
  }

  /** More bytes only ever extend the open piece. */
  lemma {:induction false} SplitGoesOn(a: Bytes, b: Bytes)
    ensures Split(NEWLINE, a + b) == Complete(a) + Split(NEWLINE, Open(a) + b)
  {
    hide Split, Complete, Open;
    if a == [] {
      NothingComplete();
      assert a + b == b && Open(a) + b == b && [] + Split(NEWLINE, b) == Split(NEWLINE, b);
    } else {
      SplitGoesOn(a[1..], b);
      SplitLonger(a[0], a[1..], b);
      assert a == [a[0]] + a[1..] && a + b == [a[0]] + (a[1..] + b);
    }
  }

  function Flatten(writes: seq<Bytes>): Bytes {
    if writes == [] then [] else Flatten(writes[..|writes| - 1]) + writes[|writes| - 1]
  }

  class Buffer {
    var buf: Bytes
    /** The lines handed on, before they are rendered as text. */
    var delivered: seq<Bytes>
    /** What was delivered before the last flush, and what has been written since. */
    ghost var before: seq<Bytes>
    ghost var stream: Bytes

    /** Between calls every complete line is out, and the buffer holds just the open piece: never a newline. */
    ghost predicate Valid()
      reads this
    {
      buf == Open(stream) && delivered == before + Complete(stream) && NEWLINE !in buf
    }

    constructor ()
      ensures Valid() && delivered == [] && before == [] && stream == []
    {
      buf, delivered, before, stream := [], [], [], [];
    }

    /** The first newline. */
    method Position() returns (found: bool, pos: nat)
      ensures !found ==> NEWLINE !in buf
      ensures found ==> pos < |buf| && buf[pos] == NEWLINE && NEWLINE !in buf[..pos]
    {
      for i := 0 to |buf|
        invariant NEWLINE !in buf[..i]
      {
        if buf[i] == NEWLINE {
          return true, i;
        }
      }
      return false, 0;
    }

    method Write(bytes: Bytes) returns (n: nat)
      requires Valid()
      modifies this
      ensures Valid() && n == |bytes|
      ensures before == old(before) && stream == old(stream) + bytes
    {
      hide Split, Complete, Open;
      SplitGoesOn(stream, bytes);
      buf := buf + bytes;
      ghost var all, out := buf, [];
      assert out + Split(NEWLINE, buf) == Split(NEWLINE, all);
      var found, pos := Position();
      while found
        invariant before == old(before) && stream == old(stream) && 0 <= pos
        invariant out + Split(NEWLINE, buf) == Split(NEWLINE, all)
        invariant delivered == old(delivered) + out
        invariant !found ==> NEWLINE !in buf
        invariant found ==> pos < |buf| && buf[pos] == NEWLINE && NEWLINE !in buf[..pos]
        decreases |buf|
      {
        var line, rest := buf[..pos + 1], buf[pos + 1..];
        line := line[..|line| - 1];
        SplitFirst(NEWLINE, line, rest);
        assert buf == line + [NEWLINE] + rest;
        assert out + ([line] + Split(NEWLINE, rest)) == out + [line] + Split(NEWLINE, rest);
        buf := rest;
        delivered := delivered + [line];
        out := out + [line];
        found, pos := Position();
      }
      SplitOne(NEWLINE, buf);
      stream := stream + bytes;
      LastPart(stream, Complete(old(stream)) + out, buf);
      return |bytes|;
    }

    /** `flush`, and `drop`: the open piece goes out once, if there is one. */
    method Flush()
      requires Valid()
      modifies this
      ensures Valid()
      ensures delivered == old(before) + Lines(old(stream))
      ensures before == delivered && stream == []
    {
      if buf != [] {
        var rest := buf;
        buf := [];
        delivered := delivered + [rest];
      }
      assert Split(NEWLINE, stream) == Complete(stream) + [Open(stream)];
      before, stream := delivered, [];
    }

    /** However a stream is cut into writes, one flush after them has delivered its lines, each once and in order. */
    method WriteAll(writes: seq<Bytes>)
      requires Valid() && stream == []
      modifies this
      ensures Valid() && delivered == old(delivered) + Lines(Flatten(writes))
    {
      hide Split, Lines;
      assert before == delivered by { NothingComplete(); }
      for i := 0 to |writes|
        invariant Valid() && before == old(delivered) && stream == Flatten(writes[..i])
      {
        assert writes[..i + 1][..i] == writes[..i];
        var n := Write(writes[i]);
      }
      assert writes[..|writes|] == writes;
      Flush();
    }
  }

  lemma NothingComplete()
    ensures Complete([]) == [] && Open([]) == []
  {
  }

  lemma LastPart(stream: Bytes, init: seq<Bytes>, last: Bytes)
    requires Split(NEWLINE, stream) == init + [last]
    ensures Complete(stream) == init && Open(stream) == last
  {
  }
}
