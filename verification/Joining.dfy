/** Joining byte strings with a separator and splitting them again; used for displayed paths and for path keys. */
module Joining {
  import opened Basics

  function Join(sep: byte, parts: seq<Bytes>): Bytes {
    if parts == [] then []
    else if |parts| == 1 then parts[0]
    else parts[0] + [sep] + Join(sep, parts[1..])
  }

  /** The pieces between separators: always at least one, as `slice::split` gives. */
  function Split(sep: byte, b: Bytes): (parts: seq<Bytes>)
    ensures |parts| >= 1
  {
    if b == [] then [[]]
    else
      var rest := Split(sep, b[1..]);
      if b[0] == sep then [[]] + rest else [[b[0]] + rest[0]] + rest[1..]
  }

  ghost predicate Free(sep: byte, parts: seq<Bytes>) {
    forall i | 0 <= i < |parts| :: sep !in parts[i]
  }

  lemma {:induction false} SplitOne(sep: byte, b: Bytes)
    requires sep !in b
    ensures Split(sep, b) == [b]
  {
    if b != [] {
      SplitOne(sep, b[1..]);
      assert [b[0]] + b[1..] == b;
    }
  }

  lemma {:induction false} SplitFirst(sep: byte, b: Bytes, rest: Bytes)
    requires sep !in b
    ensures Split(sep, b + [sep] + rest) == [b] + Split(sep, rest)
  {
    var all := b + [sep] + rest;
    if b == [] {
      assert all[1..] == rest;
    } else {
      SplitFirst(sep, b[1..], rest);
      assert all[1..] == b[1..] + [sep] + rest;
      assert [b[0]] + b[1..] == b;
    }
  }

  /** Splitting undoes joining, on every non-empty list of parts without the separator. */
  lemma {:induction false} SplitUndoesJoin(sep: byte, parts: seq<Bytes>)
    requires parts != [] && Free(sep, parts)
    ensures Split(sep, Join(sep, parts)) == parts
  {
    if |parts| == 1 {
      SplitOne(sep, parts[0]);
    } else {
      assert Free(sep, parts[1..]);
      SplitUndoesJoin(sep, parts[1..]);
      SplitFirst(sep, parts[0], Join(sep, parts[1..]));
    }
  }

  /** Joining undoes splitting, on every byte string. */
  lemma {:induction false} JoinUndoesSplit(sep: byte, b: Bytes)
    ensures Join(sep, Split(sep, b)) == b && Free(sep, Split(sep, b))
  {
    if b != [] {
      JoinUndoesSplit(sep, b[1..]);
      var rest := Split(sep, b[1..]);
      var all := Split(sep, b);
      if b[0] == sep {
        assert all[1..] == rest;
      } else {
        assert all[1..] == rest[1..];
      }
    }
  }

  lemma {:induction false} JoinAppend(sep: byte, parts: seq<Bytes>, p: Bytes)
    ensures Join(sep, parts + [p]) == if parts == [] then p else Join(sep, parts) + [sep] + p
  {
    if parts == [] {
      assert parts + [p] == [p];
    } else {
      JoinAppend(sep, parts[1..], p);
      assert (parts + [p])[1..] == parts[1..] + [p];
    }
  }
}
