/**
 Byte sources under adversarial fragmentation: a read may return any non-empty part of what is asked, may be
 interrupted, may fail, and over a file that is being changed may return any bytes at all.
 Models `read_full` (checkpoint/decide.rs) and `hash_reader` (flux-hash).
 */
module Readers {
  import opened Basics
  import opened Protocol

  datatype ReadResult = Data(bytes: Bytes) | Eof | Interrupted | Broken(code: Code)

  /**
   An open file. `fixed` is its content when nothing changes it while it is read, `None` when something may.
   `fuel` bounds the answers that are not an end or an error: every finite run has such a bound. A `calm` reader's
   content is fixed, and it is read without a failure or an interruption.
   */
  class Reader {
    const fixed: Option<Bytes>
    const calm: bool
    var fuel: nat
    var pos: nat
    ghost var taken: Bytes
    ghost var ended: bool
    ghost var broken: bool
    /** The code of the last read, when it failed; an interruption has no code of its own. */
    ghost var answer: Option<Code>

    ghost predicate Valid()
      reads this
    {
      && pos == |taken|
      && (fixed.Some? ==> taken <= fixed.value)
      && (fixed.Some? && ended ==> taken == fixed.value)
      && (calm ==> fixed.Some? && |fixed.value| - pos <= fuel)
    }

    constructor (fixed: Option<Bytes>, fuel: nat, calm: bool)
      requires calm ==> fixed.Some? && |fixed.value| <= fuel
      ensures Valid() && this.fixed == fixed && this.calm == calm && taken == [] && !ended && !broken && answer == None
    {
      this.fixed, this.calm := fixed, calm;
      this.fuel := fuel;
      pos, taken, ended, broken, answer := 0, [], false, false, None;
    }

    /** `Read::read` into a buffer of `n` bytes. A zero-length buffer reads nothing, and that proves nothing. */
    method Read(n: nat) returns (r: ReadResult)
      requires Valid()
      modifies this
      ensures Valid()
      ensures r.Data? ==> 0 < |r.bytes| <= n && taken == old(taken) + r.bytes && fuel < old(fuel)
      ensures !r.Data? ==> taken == old(taken) && fuel <= old(fuel)
      ensures r.Interrupted? ==> fuel < old(fuel)
      ensures r.Eof? ==> n == 0 || ended
      ensures broken == (old(broken) || r.Broken?)
      ensures old(ended) ==> ended
      ensures calm ==> !r.Broken? && !r.Interrupted?
      ensures answer ==
        match r
        case Broken(c) => Some(c)
        case Interrupted => Some(IoError)
        case _ => None
    {
      var choice: nat :| true;
      answer := None;
      if calm {
        choice := 2;
      }
      if choice == 0 {
        var c: Code :| true;
        r := Broken(c);
        broken, answer := true, Some(c);
        return;
      }
      if n == 0 {
        return Eof;
      }
      if fixed.Some? && pos == |fixed.value| {
        ended := true;
        return Eof;
      }
      if fuel == 0 {
        r := Broken(IoError);
        broken, answer := true, Some(IoError);
        return;
      }
      if choice == 1 {
        fuel := fuel - 1;
        answer := Some(IoError);
        return Interrupted;
      }
      if fixed.Some? {
        assert |taken| <= |fixed.value|;
        var k: nat :| true;
        if k == 0 || k > n || k > |fixed.value| - pos {
          k := 1;
        }
        r := Data(fixed.value[pos..pos + k]);
        assert taken + r.bytes == fixed.value[..pos + k];
      } else {
        var any: Bytes :| true;
        if any == [] || |any| > n {
          ended := true;
          return Eof;
        }
        r := Data(any);
      }
      taken := taken + r.bytes;
      pos := pos + |r.bytes|;
      fuel := fuel - 1;
    }
  }

  datatype Filled = Got(bytes: Bytes) | FillFailed(code: Code)

  /**
   `read_full`: short reads are joined and interruptions retried, so fewer than `n` bytes means the end of the
   stream. What a failed call consumed stays consumed.
   */
  method ReadFull(r: Reader, n: nat) returns (f: Filled)
    requires r.Valid()
    modifies r
    ensures r.Valid()
    ensures f.Got? ==> |f.bytes| <= n && r.taken == old(r.taken) + f.bytes && (|f.bytes| < n ==> r.ended)
    ensures f.FillFailed? ==> r.broken && r.answer == Some(f.code)
    ensures f.Got? ==> r.broken == old(r.broken)
    ensures old(r.taken) <= r.taken && (old(r.ended) ==> r.ended)
    ensures r.calm ==> f.Got?
  {
    var got: Bytes := [];
    while |got| < n
      invariant r.Valid() && |got| <= n
      invariant r.taken == old(r.taken) + got
      invariant r.broken == old(r.broken) && (old(r.ended) ==> r.ended)
      decreases r.fuel
    {
      var x := r.Read(n - |got|);
      match x
      case Eof => break;
      case Data(b) => got := got + b;
      case Interrupted =>
      case Broken(c) => return FillFailed(c);
    }
    f := Got(got);
  }
}
