/**
 Which bytes of an earlier run's partial a resumed run may keep: `decide` and `decide_full`
 (crates/flux-core/src/checkpoint/decide.rs) and `plan_resume` (crates/flux-core/src/copy.rs).
 */
module Resume {
  import opened Basics
  import opened Protocol
  import opened Readers
  import opened Destination
  import opened Keeping

  datatype Start = StartFresh | StartAt(offset: nat)
  {
    function Offset(): nat {
      if StartAt? then offset else 0
    }
  }

  datatype Verdict = Verdict(start: Start, carry: Bytes, discard: Option<Discard>, proven: seq<Digest>)

  function Chunk(b: Bytes, i: nat): Bytes
    requires i * CHUNK_SIZE <= |b|
  {
    b[i * CHUNK_SIZE..Min((i + 1) * CHUNK_SIZE, |b|)]
  }

  /** The digests of every chunk of `b`, the last one possibly short. */
  ghost predicate ChunkDigests(hash: Bytes -> Digest, b: Bytes, ds: seq<Digest>) {
    && |ds| == DivCeil(|b|, CHUNK_SIZE)
    && forall i | 0 <= i < |ds| :: ds[i] == hash(Chunk(b, i))
  }

  /**
   What a verdict promises its caller, given what has been taken from the source: the carry is exactly what was
   read past the resume offset, and the offset is a chunk boundary or the source's length.
   */
  ghost predicate Positioned(v: Verdict, taken: Bytes, len: nat) {
    && |taken| == v.start.Offset() + |v.carry|
    && taken[v.start.Offset()..] == v.carry
    && (v.start.StartAt? ==> 0 < v.start.offset <= len)
    && (v.start.Offset() % CHUNK_SIZE == 0 || v.start.Offset() == len)
  }

  /** The digest of the source has been fed the proven prefix, and nothing else. */
  ghost predicate FedPrefix(before: Option<Bytes>, after: Option<Bytes>, v: Verdict, taken: Bytes)
    requires v.start.Offset() <= |taken|
  {
    match before
    case None => after == None
    case Some(b) => after == Some(b + taken[..v.start.Offset()])
  }

  datatype Decided = Ok(verdict: Verdict) | DecideFailed(step: CopyStep, code: Code)

  function Fed(h: Option<Bytes>, b: Bytes): Option<Bytes> {
    match h
    case None => None
    case Some(x) => Some(x + b)
  }

  /** A stretch of `len` bytes that both files hold differs. */
  ghost predicate Differs(source: Reader, partial: Reader, at: nat, len: nat) {
    && source.fixed.Some? && partial.fixed.Some?
    && at + len <= |source.fixed.value| && at + len <= |partial.fixed.value|
    && source.fixed.value[at..at + len] != partial.fixed.value[at..at + len]
  }

  datatype Pair = Pair(mine: Bytes, theirs: Option<Bytes>) | PairFailed(step: CopyStep, code: Code)

  /** What a pair of reads leaves, from `s` and `t` taken before: a partial that cannot be read is not an error. */
  ghost predicate PairRead(source: Reader, partial: Reader, s: Bytes, t: Bytes, p: Pair, len: nat)
    reads source, partial
  {
    && source.Valid() && partial.Valid() && p.Pair?
    && |p.mine| <= len && source.taken == s + p.mine && (|p.mine| < len ==> source.ended)
    && (p.theirs.Some? ==> |p.theirs.value| == len && partial.taken == t + p.theirs.value && !partial.broken)
    && (p.theirs.None? ==> partial.broken || (partial.ended && |partial.taken| < |t| + len))
    && t <= partial.taken
  }

  /** The heartbeat and the two reads that precede every comparison. */
  method ReadPair(w: World, source: Reader, partial: Reader, len: nat) returns (p: Pair)
    requires w.Valid() && w.watch.phase == Owned && Ready(source, partial)
    modifies w`trace, w`watch, source, partial
    ensures w.Valid() && source.Valid()
    ensures p.Pair? ==> w.watch.(cleared := false) == old(w.watch).(cleared := false)
    ensures p.PairFailed? ==> w.watch == Blamed(old(w.watch).(cleared := false), Over, Blame(p.step, p.code))
    ensures p.Pair? ==> PairRead(source, partial, old(source.taken), old(partial.taken), p, len)
    ensures w.calm && source.calm ==> p.Pair?
    ensures partial.calm ==> partial.broken == old(partial.broken)
  {
    hide World.Valid, Lawful, Steady;
    var f := w.Beat();
    if f.Some? {
      return PairFailed(AtHeartbeat, f.value);
    }
    var got := ReadFull(source, len);
    if got.FillFailed? {
      w.ReadFault(source);
      return PairFailed(AtSource, got.code);
    }
    var have := ReadFull(partial, len);
    p := Pair(got.bytes, if have.Got? && |have.bytes| == len then Some(have.bytes) else None);
  }

  /** The end of chunk `k` of a file of `len` bytes. */
  function ChunkEnd(k: nat, len: nat): nat {
    Min((k + 1) * CHUNK_SIZE, len)
  }

  /** What both deciders know after accepting `k` chunks, `s` of the source and `t` of the partial. */
  ghost predicate Agreed(hash: Bytes -> Digest, s: Bytes, t: Bytes, k: nat, len: nat, fed: Option<Bytes>,
                         hasher: Option<Bytes>) {
    && |s| == |t| == Min(k * CHUNK_SIZE, len)
    && fed == Fed(hasher, s)
    && (CollisionFree(hash) ==> s == t)
  }

  ghost predicate Ready(source: Reader, partial: Reader)
    reads source, partial
  {
    source != partial && source.Valid() && partial.Valid() && !partial.broken
  }

  /** Both files have a known content of a known length, and the partial could be read. */
  ghost predicate Known(source: Reader, partial: Reader, sourceLen: nat, partialLen: nat) {
    && source.fixed.Some? && |source.fixed.value| == sourceLen
    && partial.fixed.Some? && |partial.fixed.value| == partialLen
  }

  ghost predicate AlikeAt(hash: Bytes -> Digest, ds: Option<map<nat, Digest>>, source: Reader, partial: Reader, k: nat)
    requires source.fixed.Some? && partial.fixed.Some?
  {
    Alike(hash, source.fixed.value, partial.fixed.value, ds, k)
  }

  /** The first `k` chunks were alike. */
  ghost predicate AlikeUpTo(hash: Bytes -> Digest, ds: Option<map<nat, Digest>>, source: Reader, partial: Reader,
                            sourceLen: nat, partialLen: nat, k: nat)
  {
    Known(source, partial, sourceLen, partialLen) ==> forall i: nat | i < k :: AlikeAt(hash, ds, source, partial, i)
  }

  /** The verdict is the one the two files call for. */
  ghost predicate Judged(hash: Bytes -> Digest, v: Verdict, ds: Option<map<nat, Digest>>, source: Reader,
                         partial: Reader, sourceLen: nat, partialLen: nat)
    reads partial
  {
    Known(source, partial, sourceLen, partialLen) && !partial.broken ==>
      var s, p := source.fixed.value, partial.fixed.value;
      v.start.Offset() == KeptBytes(hash, s, p, ds) && v.discard == Reason(hash, s, p, ds)
  }

  lemma ReadIsTheChunk(source: Reader, s: Bytes, mine: Bytes, from: nat, end: nat)
    requires source.Valid() && source.fixed.Some? && source.taken == s + mine && |s| == from
    requires |mine| <= end - from && end <= |source.fixed.value| && (|mine| < end - from ==> source.ended)
    ensures mine == source.fixed.value[from..end]
  {
    assert source.taken == source.fixed.value[..|source.taken|];
    assert source.taken[from..] == mine;
  }

  /** A chunk that was read of both files is alike exactly if its digests say so. */
  lemma JudgesTheChunk(hash: Bytes -> Digest, ds: Option<map<nat, Digest>>, source: Reader, partial: Reader,
                       sourceLen: nat, partialLen: nat, s: Bytes, t: Bytes, k: nat, p: Pair)
    requires k * CHUNK_SIZE < sourceLen && ChunkEnd(k, sourceLen) <= partialLen && |s| == |t| == k * CHUNK_SIZE
    requires PairRead(source, partial, s, t, p, ChunkEnd(k, sourceLen) - k * CHUNK_SIZE)
    requires Known(source, partial, sourceLen, partialLen) && !partial.broken
    ensures p.theirs.Some? && |p.mine| == |p.theirs.value| == ChunkEnd(k, sourceLen) - k * CHUNK_SIZE
    ensures AlikeAt(hash, ds, source, partial, k) <==>
      match ds
      case None => hash(p.mine) == hash(p.theirs.value)
      case Some(m) => k in m && hash(p.mine) == m[k] && hash(p.theirs.value) == m[k]
  {
    var from, end := k * CHUNK_SIZE, ChunkEnd(k, sourceLen);
    ReadIsTheChunk(source, s, p.mine, from, end);
    assert p.theirs.Some?;
    ReadIsTheChunk(partial, t, p.theirs.value, from, end);
  }

  lemma OneMoreAlike(hash: Bytes -> Digest, ds: Option<map<nat, Digest>>, source: Reader, partial: Reader,
                     sourceLen: nat, partialLen: nat, s: Bytes, t: Bytes, k: nat, p: Pair)
    requires k * CHUNK_SIZE < sourceLen && ChunkEnd(k, sourceLen) <= partialLen && |s| == |t| == k * CHUNK_SIZE
    requires PairRead(source, partial, s, t, p, ChunkEnd(k, sourceLen) - k * CHUNK_SIZE) && !partial.broken
    requires AlikeUpTo(hash, ds, source, partial, sourceLen, partialLen, k) && p.theirs.Some?
    requires ds.None? ==> hash(p.mine) == hash(p.theirs.value)
    requires ds.Some? ==> k in ds.value && hash(p.mine) == ds.value[k] && hash(p.theirs.value) == ds.value[k]
    ensures AlikeUpTo(hash, ds, source, partial, sourceLen, partialLen, k + 1)
  {
    hide AlikeAt, PairRead;
    if Known(source, partial, sourceLen, partialLen) {
      JudgesTheChunk(hash, ds, source, partial, sourceLen, partialLen, s, t, k, p);
    }
  }

  lemma JudgedAtMismatch(hash: Bytes -> Digest, v: Verdict, ds: Option<map<nat, Digest>>, source: Reader,
                         partial: Reader, sourceLen: nat, partialLen: nat, s: Bytes, t: Bytes, k: nat, p: Pair)
    requires k * CHUNK_SIZE < sourceLen && ChunkEnd(k, sourceLen) <= partialLen && |s| == |t| == k * CHUNK_SIZE
    requires PairRead(source, partial, s, t, p, ChunkEnd(k, sourceLen) - k * CHUNK_SIZE)
    requires AlikeUpTo(hash, ds, source, partial, sourceLen, partialLen, k) && (ds.Some? ==> k in ds.value)
    requires var whole := |p.mine| == ChunkEnd(k, sourceLen) - k * CHUNK_SIZE && p.theirs.Some?;
      whole ==>
      match ds
      case None => hash(p.mine) != hash(p.theirs.value)
      case Some(m) => hash(p.mine) != m[k] || hash(p.theirs.value) != m[k]
    requires v.start.Offset() == k * CHUNK_SIZE && v.discard == Some(MismatchAt(k * CHUNK_SIZE))
    ensures Judged(hash, v, ds, source, partial, sourceLen, partialLen)
  {
    hide PairRead, Alike, FirstUnlike;
    if Known(source, partial, sourceLen, partialLen) && !partial.broken {
      JudgesTheChunk(hash, ds, source, partial, sourceLen, partialLen, s, t, k, p);
      EndOfRun(hash, ds, source, partial, sourceLen, partialLen, k);
    }
  }

  lemma EndOfRun(hash: Bytes -> Digest, ds: Option<map<nat, Digest>>, source: Reader, partial: Reader,
                 sourceLen: nat, partialLen: nat, k: nat)
    requires Known(source, partial, sourceLen, partialLen) && !AlikeAt(hash, ds, source, partial, k)
    requires AlikeUpTo(hash, ds, source, partial, sourceLen, partialLen, k)
    ensures FirstUnlike(hash, source.fixed.value, partial.fixed.value, ds, 0) == k
    ensures KeptBytes(hash, source.fixed.value, partial.fixed.value, ds) == Min(k * CHUNK_SIZE, sourceLen)
  {
    hide Alike, FirstUnlike;
    forall i: nat | i < k
      ensures Alike(hash, source.fixed.value, partial.fixed.value, ds, i)
    {
      assert AlikeAt(hash, ds, source, partial, i);
    }
    StopsThere(hash, source.fixed.value, partial.fixed.value, ds, k);
  }

  lemma AcceptChunk(hash: Bytes -> Digest, s: Bytes, t: Bytes, k: nat, len: nat, fed: Option<Bytes>,
                    hasher: Option<Bytes>,
                    mine: Bytes, theirs: Bytes)
    requires Agreed(hash, s, t, k, len, fed, hasher) && k * CHUNK_SIZE < len && hash(mine) == hash(theirs)
    requires |mine| == |theirs| == ChunkEnd(k, len) - k * CHUNK_SIZE
    ensures Agreed(hash, s + mine, t + theirs, k + 1, len, Fed(fed, mine), hasher)
  {
    FedStep(hasher, s, mine);
  }

  lemma FedStep(h: Option<Bytes>, a: Bytes, b: Bytes)
    ensures Fed(Fed(h, a), b) == Fed(h, a + b)
    ensures Fed(h, []) == h
  {
    if h.Some? {
      assert h.value + a + b == h.value + (a + b);
      assert h.value + [] == h.value;
    }
  }

  /** The verdict at a chunk that was not accepted carries what was read of it. */
  lemma MismatchIsPositioned(v: Verdict, s: Bytes, mine: Bytes, k: nat, len: nat, hasher: Option<Bytes>)
    requires |s| == k * CHUNK_SIZE < len
    requires v.start == (if k == 0 then StartFresh else StartAt(k * CHUNK_SIZE)) && v.carry == mine
    ensures Positioned(v, s + mine, len) && (s + mine)[..v.start.Offset()] == s
    ensures FedPrefix(hasher, Fed(hasher, s), v, s + mine)
  {
    assert (s + mine)[..|s|] == s && (s + mine)[|s|..] == mine;
  }

  lemma EndIsPositioned(v: Verdict, s: Bytes, k: nat, len: nat, hasher: Option<Bytes>)
    requires |s| == Min(k * CHUNK_SIZE, len)
    requires v.start == (if |s| == 0 then StartFresh else StartAt(|s|)) && v.carry == []
    ensures Positioned(v, s, len) && s[..v.start.Offset()] == s
    ensures FedPrefix(hasher, Fed(hasher, s), v, s)
  {
    assert s[..|s|] == s;
  }

  /** Everything a verdict of `decide_full` promises. */
  ghost predicate FullyProven(hash: Bytes -> Digest, v: Verdict, sourceLen: nat, partialLen: nat, source: Reader,
                              partial: Reader, hasher: Option<Bytes>, fed: Option<Bytes>)
    reads source, partial
  {
    && Positioned(v, source.taken, sourceLen) && v.start.Offset() <= partialLen
    && FedPrefix(hasher, fed, v, source.taken)
    && ChunkDigests(hash, source.taken[..v.start.Offset()], v.proven)
    && (partial.fixed.Some? ==>
          && v.start.Offset() <= |partial.fixed.value|
          && ChunkDigests(hash, partial.fixed.value[..v.start.Offset()], v.proven))
    && (CollisionFree(hash) && partial.fixed.Some? ==> source.taken[..v.start.Offset()] <= partial.fixed.value)
    && Honest(v, sourceLen, partialLen, source, partial)
  }

  datatype Step = Accepted | Stopped(decided: Decided)

  lemma StopAtMismatch(hash: Bytes -> Digest, v: Verdict, sourceLen: nat, partialLen: nat, source: Reader,
                       partial: Reader,
                       s: Bytes, t: Bytes, k: nat, p: Pair, hasher: Option<Bytes>, fed: Option<Bytes>)
    requires Agreed(hash, s, t, k, sourceLen, fed, hasher)
    requires ChunkDigests(hash, s, v.proven) && ChunkDigests(hash, t, v.proven)
    requires k * CHUNK_SIZE < sourceLen && ChunkEnd(k, sourceLen) <= partialLen
    requires PairRead(source, partial, s, t, p, ChunkEnd(k, sourceLen) - k * CHUNK_SIZE)
    requires var whole := |p.mine| == ChunkEnd(k, sourceLen) - k * CHUNK_SIZE;
      !(whole && p.theirs.Some? && hash(p.mine) == hash(p.theirs.value))
    requires v.start == (if k == 0 then StartFresh else StartAt(k * CHUNK_SIZE)) && v.carry == p.mine
    requires v.discard == Some(MismatchAt(k * CHUNK_SIZE))
    ensures FullyProven(hash, v, sourceLen, partialLen, source, partial, hasher, fed)
  {
    MismatchIsPositioned(v, s, p.mine, k, sourceLen, hasher);
    DifferenceIsReal(hash, source, partial, s, t, p.mine, p.theirs, ChunkEnd(k, sourceLen) - k * CHUNK_SIZE);
    assert partial.fixed.Some? ==> partial.fixed.value[..|t|] == t;
  }

  /** One turn of the loop of `decide_full`: chunk `k` of both files, the partial being long enough to hold it. */
  method TryChunk(w: World, sourceLen: nat, partialLen: nat, source: Reader, partial: Reader, k: nat,
                  fed: Option<Bytes>, proven: seq<Digest>, hasher: Option<Bytes>)
    returns (r: Step, fed': Option<Bytes>, proven': seq<Digest>)
    requires w.Valid() && w.watch.phase == Owned && Ready(source, partial)
    requires Agreed(w.hash, source.taken, partial.taken, k, sourceLen, fed, hasher)
    requires ChunkDigests(w.hash, source.taken, proven) && ChunkDigests(w.hash, partial.taken, proven)
    requires k * CHUNK_SIZE < sourceLen && ChunkEnd(k, sourceLen) <= partialLen
    requires AlikeUpTo(w.hash, None, source, partial, sourceLen, partialLen, k)
    modifies w`trace, w`watch, source, partial
    ensures w.Valid() && source.Valid()
    ensures partial.calm ==> partial.broken == old(partial.broken)
    ensures r.Accepted? ==> AlikeUpTo(w.hash, None, source, partial, sourceLen, partialLen, k + 1)
    ensures r.Stopped? && r.decided.Ok? ==>
      Judged(w.hash, r.decided.verdict, None, source, partial, sourceLen, partialLen)
    ensures r.Stopped? && r.decided.DecideFailed? ==>
      w.watch == Blamed(old(w.watch).(cleared := false), Over, Blame(r.decided.step, r.decided.code))
    ensures r.Accepted? || r.decided.Ok? ==> w.watch.(cleared := false) == old(w.watch).(cleared := false)
    ensures r.Accepted? ==> Ready(source, partial)
    ensures r.Accepted? ==> ChunkDigests(w.hash, source.taken, proven') && ChunkDigests(w.hash, partial.taken, proven')
    ensures r.Accepted? ==> Agreed(w.hash, source.taken, partial.taken, k + 1, sourceLen, fed', hasher)
    ensures r.Stopped? && r.decided.Ok? ==>
      FullyProven(w.hash, r.decided.verdict, sourceLen, partialLen, source, partial, hasher, fed')
    ensures w.calm && source.calm && r.Stopped? ==> r.decided.Ok?
  {
    hide World.Valid, Lawful, Steady, FullyProven, ChunkDigests, AlikeUpTo, Judged;
    var len := ChunkEnd(k, sourceLen) - k * CHUNK_SIZE;
    ghost var s, t := source.taken, partial.taken;
    fed', proven' := fed, proven;
    var p := ReadPair(w, source, partial, len);
    if p.PairFailed? {
      r := Stopped(DecideFailed(p.step, p.code));
    } else if !(|p.mine| == len && p.theirs.Some? && w.hash(p.mine) == w.hash(p.theirs.value)) {
      var start := if k == 0 then StartFresh else StartAt(k * CHUNK_SIZE);
      var v := Verdict(start, p.mine, Some(MismatchAt(k * CHUNK_SIZE)), proven);
      StopAtMismatch(w.hash, v, sourceLen, partialLen, source, partial, s, t, k, p, hasher, fed);
      JudgedAtMismatch(w.hash, v, None, source, partial, sourceLen, partialLen, s, t, k, p);
      r := Stopped(Ok(v));
    } else {
      ExtendDigests(w.hash, s, k, p.mine, proven);
      ExtendDigests(w.hash, t, k, p.theirs.value, proven);
      AcceptChunk(w.hash, s, t, k, sourceLen, fed, hasher, p.mine, p.theirs.value);
      OneMoreAlike(w.hash, None, source, partial, sourceLen, partialLen, s, t, k, p);
      r, fed', proven' := Accepted, Fed(fed, p.mine), proven + [w.hash(p.mine)];
    }
  }

  /**
   `decide_full`: a chunk of the partial is kept only while it hashes like the same chunk of the source.
   `hasher` is the bytes fed to the caller's digest so far, when it keeps one.
   */
  method DecideFull(w: World, sourceLen: nat, partialLen: nat, source: Reader, partial: Reader, hasher: Option<Bytes>)
    returns (d: Decided, fed: Option<Bytes>)
    requires w.Valid() && w.watch.phase == Owned && Ready(source, partial) && source.taken == partial.taken == []
    modifies w`trace, w`watch, source, partial
    ensures w.Valid() && source.Valid()
    ensures d.Ok? ==> w.watch.(cleared := false) == old(w.watch).(cleared := false)
    ensures d.DecideFailed? ==> w.watch == Blamed(old(w.watch).(cleared := false), Over, Blame(d.step, d.code))
    ensures d.Ok? ==> FullyProven(w.hash, d.verdict, sourceLen, partialLen, source, partial, hasher, fed)
    ensures d.Ok? ==> Judged(w.hash, d.verdict, None, source, partial, sourceLen, partialLen)
    ensures partial.calm ==> !partial.broken
    ensures w.calm && source.calm ==> d.Ok?
  {
    hide World.Valid, Lawful, Steady, FullyProven, Judged;
    var k: nat := 0;
    var proven: seq<Digest> := [];
    fed := hasher;
    FedStep(hasher, [], []);
    while k * CHUNK_SIZE < sourceLen && ChunkEnd(k, sourceLen) <= partialLen
      invariant w.Valid() && w.watch.(cleared := false) == old(w.watch).(cleared := false)
      invariant Ready(source, partial) && Agreed(w.hash, source.taken, partial.taken, k, sourceLen, fed, hasher)
      invariant k > 0 ==> (k - 1) * CHUNK_SIZE < sourceLen && |source.taken| <= partialLen
      invariant ChunkDigests(w.hash, source.taken, proven) && ChunkDigests(w.hash, partial.taken, proven)
      invariant AlikeUpTo(w.hash, None, source, partial, sourceLen, partialLen, k)
      decreases sourceLen - k
    {
      var r;
      r, fed, proven := TryChunk(w, sourceLen, partialLen, source, partial, k, fed, proven, hasher);
      if r.Stopped? {
        return r.decided, fed;
      }
      k := k + 1;
    }
    var pos := Min(k * CHUNK_SIZE, sourceLen);
    var shorter := k * CHUNK_SIZE < sourceLen;
    var why := if shorter then Some(PartialShorter(pos)) else None;
    var v := Verdict(if pos == 0 then StartFresh else StartAt(pos), [], why, proven);
    EndOfChunks(w.hash, v, sourceLen, partialLen, source, partial, k, hasher, fed);
    JudgedAtEnd(w.hash, v, source, partial, sourceLen, partialLen, k);
    d := Ok(v);
  }

  lemma JudgedAtEnd(hash: Bytes -> Digest, v: Verdict, source: Reader, partial: Reader, sourceLen: nat,
                    partialLen: nat, k: nat)
    requires !(k * CHUNK_SIZE < sourceLen && ChunkEnd(k, sourceLen) <= partialLen)
    requires AlikeUpTo(hash, None, source, partial, sourceLen, partialLen, k)
    requires v.start.Offset() == Min(k * CHUNK_SIZE, sourceLen)
    requires v.discard == if k * CHUNK_SIZE < sourceLen then Some(PartialShorter(v.start.Offset())) else None
    ensures Judged(hash, v, None, source, partial, sourceLen, partialLen)
  {
    hide FirstUnlike;
    if Known(source, partial, sourceLen, partialLen) {
      EndOfRun(hash, None, source, partial, sourceLen, partialLen, k);
    }
  }

  lemma EndOfChunks(hash: Bytes -> Digest, v: Verdict, sourceLen: nat, partialLen: nat, source: Reader, partial: Reader,
                    k: nat, hasher: Option<Bytes>, fed: Option<Bytes>)
    requires Ready(source, partial) && Agreed(hash, source.taken, partial.taken, k, sourceLen, fed, hasher)
    requires ChunkDigests(hash, source.taken, v.proven) && ChunkDigests(hash, partial.taken, v.proven)
    requires k > 0 ==> |source.taken| <= partialLen
    requires v.start == (if |source.taken| == 0 then StartFresh else StartAt(|source.taken|)) && v.carry == []
    requires v.discard.None? ==> k * CHUNK_SIZE >= sourceLen
    requires v.discard.Some? ==> v.discard == Some(PartialShorter(|source.taken|))
    requires v.discard.Some? ==> k * CHUNK_SIZE < sourceLen && partialLen < ChunkEnd(k, sourceLen)
    ensures FullyProven(hash, v, sourceLen, partialLen, source, partial, hasher, fed)
  {
    hide ChunkDigests, Positioned, FedPrefix, Differs, Honest, Agreed;
    AgreedLengths(hash, source.taken, partial.taken, k, sourceLen, fed, hasher);
    EndIsPositioned(v, source.taken, k, sourceLen, hasher);
    if partial.fixed.Some? {
      TakenIsThePrefix(partial);
    }
    EndIsHonest(v, sourceLen, partialLen, source, partial, k);
    if CollisionFree(hash) {
      AgreedIsTheSame(hash, source.taken, partial.taken, k, sourceLen, fed, hasher);
    }
  }

  lemma AgreedLengths(hash: Bytes -> Digest, s: Bytes, t: Bytes, k: nat, len: nat, fed: Option<Bytes>,
                      hasher: Option<Bytes>)
    requires Agreed(hash, s, t, k, len, fed, hasher)
    ensures |s| == |t| == Min(k * CHUNK_SIZE, len) && fed == Fed(hasher, s)
  {
  }

  lemma AgreedIsTheSame(hash: Bytes -> Digest, s: Bytes, t: Bytes, k: nat, len: nat, fed: Option<Bytes>,
                        hasher: Option<Bytes>)
    requires Agreed(hash, s, t, k, len, fed, hasher) && CollisionFree(hash)
    ensures s == t
  {
  }

  lemma TakenIsThePrefix(r: Reader)
    requires r.Valid() && r.fixed.Some?
    ensures |r.taken| <= |r.fixed.value| && r.fixed.value[..|r.taken|] == r.taken
  {
  }

  lemma EndIsHonest(v: Verdict, sourceLen: nat, partialLen: nat, source: Reader, partial: Reader, k: nat)
    requires |source.taken| == Min(k * CHUNK_SIZE, sourceLen)
    requires v.start == (if |source.taken| == 0 then StartFresh else StartAt(|source.taken|))
    requires v.discard.None? ==> k * CHUNK_SIZE >= sourceLen
    requires v.discard.Some? ==> v.discard == Some(PartialShorter(|source.taken|))
    requires v.discard.Some? ==> k * CHUNK_SIZE < sourceLen && partialLen < ChunkEnd(k, sourceLen)
    ensures Honest(v, sourceLen, partialLen, source, partial)
  {
    hide Differs;
  }

  /** The verdict says why it stopped, and the reason is a fact about the two files. */
  ghost predicate Honest(v: Verdict, sourceLen: nat, partialLen: nat, source: Reader, partial: Reader)
    reads partial
  {
    var at := v.start.Offset();
    match v.discard
    case None => at == sourceLen
    case Some(PartialShorter(kept)) =>
      kept == at < sourceLen && partialLen < at + Min(CHUNK_SIZE, sourceLen - at)
    case Some(MismatchAt(there)) =>
      && there == at < sourceLen
      && (source.fixed.Some? && |source.fixed.value| == sourceLen
          && partial.fixed.Some? && |partial.fixed.value| == partialLen && !partial.broken
          ==> Differs(source, partial, at, Min(CHUNK_SIZE, sourceLen - at)))
    case _ => false
  }

  /** The digests the log recorded are those of the chunks of `b`. */
  ghost predicate Recorded(hash: Bytes -> Digest, b: Bytes, digests: map<nat, Digest>) {
    forall i: nat | i < DivCeil(|b|, CHUNK_SIZE) :: i in digests && digests[i] == hash(Chunk(b, i))
  }

  /** Everything a verdict of `decide` promises once it has looked at the partial. */
  ghost predicate ProvenByLog(hash: Bytes -> Digest, v: Verdict, digests: map<nat, Digest>, sourceLen: nat,
                              partialLen: nat,
                              source: Reader, partial: Reader, hasher: Option<Bytes>, fed: Option<Bytes>)
    reads source, partial
  {
    var at := v.start.Offset();
    && Positioned(v, source.taken, sourceLen) && at <= partialLen && v.proven == []
    && FedPrefix(hasher, fed, v, source.taken)
    && Recorded(hash, source.taken[..at], digests)
    && (partial.fixed.Some? ==> at <= |partial.fixed.value| && Recorded(hash, partial.fixed.value[..at], digests))
    && (CollisionFree(hash) && partial.fixed.Some? ==> source.taken[..at] <= partial.fixed.value)
    && (v.discard.None? ==> at == sourceLen || DivCeil(at, CHUNK_SIZE) !in digests)
    && (v.discard.Some? ==> v.discard == Some(MismatchAt(at)) || v.discard == Some(PartialShorter(at)))
    && (v.discard == Some(PartialShorter(at)) ==> partialLen < at + CHUNK_SIZE)
  }

  method TryRecorded(w: World, sourceLen: nat, partialLen: nat, source: Reader, partial: Reader, k: nat,
                     digests: map<nat, Digest>, fed: Option<Bytes>, hasher: Option<Bytes>)
    returns (r: Step, fed': Option<Bytes>)
    requires w.Valid() && w.watch.phase == Owned && Ready(source, partial) && k in digests
    requires Agreed(w.hash, source.taken, partial.taken, k, sourceLen, fed, hasher)
    requires Recorded(w.hash, source.taken, digests) && Recorded(w.hash, partial.taken, digests)
    requires k * CHUNK_SIZE < sourceLen && ChunkEnd(k, sourceLen) <= partialLen
    requires AlikeUpTo(w.hash, Some(digests), source, partial, sourceLen, partialLen, k)
    modifies w`trace, w`watch, source, partial
    ensures w.Valid() && source.Valid()
    ensures partial.calm ==> partial.broken == old(partial.broken)
    ensures r.Accepted? ==> AlikeUpTo(w.hash, Some(digests), source, partial, sourceLen, partialLen, k + 1)
    ensures r.Stopped? && r.decided.Ok? ==>
      Judged(w.hash, r.decided.verdict, Some(digests), source, partial, sourceLen, partialLen)
    ensures r.Stopped? && r.decided.DecideFailed? ==>
      w.watch == Blamed(old(w.watch).(cleared := false), Over, Blame(r.decided.step, r.decided.code))
    ensures r.Accepted? || r.decided.Ok? ==> w.watch.(cleared := false) == old(w.watch).(cleared := false)
    ensures r.Accepted? ==> Ready(source, partial)
    ensures r.Accepted? ==> Recorded(w.hash, source.taken, digests) && Recorded(w.hash, partial.taken, digests)
    ensures r.Accepted? ==> Agreed(w.hash, source.taken, partial.taken, k + 1, sourceLen, fed', hasher)
    ensures r.Stopped? && r.decided.Ok? ==>
      ProvenByLog(w.hash, r.decided.verdict, digests, sourceLen, partialLen, source, partial, hasher, fed')
    ensures w.calm && source.calm && r.Stopped? ==> r.decided.Ok?
  {
    hide World.Valid, Lawful, Steady, AlikeUpTo, Judged;
    var len := ChunkEnd(k, sourceLen) - k * CHUNK_SIZE;
    ghost var s, t := source.taken, partial.taken;
    fed' := fed;
    var p := ReadPair(w, source, partial, len);
    if p.PairFailed? {
      r := Stopped(DecideFailed(p.step, p.code));
      return;
    }
    var sourceOk := |p.mine| == len && w.hash(p.mine) == digests[k];
    var partialOk := p.theirs.Some? && w.hash(p.theirs.value) == digests[k];
    if !(sourceOk && partialOk) {
      var start := if k == 0 then StartFresh else StartAt(k * CHUNK_SIZE);
      var v := Verdict(start, p.mine, Some(MismatchAt(k * CHUNK_SIZE)), []);
      MismatchIsPositioned(v, s, p.mine, k, sourceLen, hasher);
      assert partial.fixed.Some? ==> partial.fixed.value[..|t|] == t;
      JudgedAtMismatch(w.hash, v, Some(digests), source, partial, sourceLen, partialLen, s, t, k, p);
      r := Stopped(Ok(v));
    } else {
      ExtendRecorded(w.hash, s, k, p.mine, digests);
      ExtendRecorded(w.hash, t, k, p.theirs.value, digests);
      AcceptChunk(w.hash, s, t, k, sourceLen, fed, hasher, p.mine, p.theirs.value);
      OneMoreAlike(w.hash, Some(digests), source, partial, sourceLen, partialLen, s, t, k, p);
      r, fed' := Accepted, Fed(fed, p.mine);
    }
  }

  /** `decide` past its checks of the source: the partial is validated against the recorded digests. */
  method DecideByLog(w: World, digests: map<nat, Digest>, sourceLen: nat, partialLen: nat, source: Reader,
                     partial: Reader, hasher: Option<Bytes>)
    returns (d: Decided, fed: Option<Bytes>)
    requires w.Valid() && w.watch.phase == Owned && Ready(source, partial) && source.taken == partial.taken == []
    requires digests != map[]
    modifies w`trace, w`watch, source, partial
    ensures w.Valid() && source.Valid()
    ensures d.Ok? ==> w.watch.(cleared := false) == old(w.watch).(cleared := false)
    ensures d.DecideFailed? ==> w.watch == Blamed(old(w.watch).(cleared := false), Over, Blame(d.step, d.code))
    ensures d.Ok? ==> ProvenByLog(w.hash, d.verdict, digests, sourceLen, partialLen, source, partial, hasher, fed)
    ensures d.Ok? ==> Judged(w.hash, d.verdict, Some(digests), source, partial, sourceLen, partialLen)
    ensures partial.calm ==> !partial.broken
    ensures w.calm && source.calm ==> d.Ok?
  {
    hide World.Valid, Lawful, Steady, ProvenByLog, Judged, AlikeUpTo, Agreed, Recorded;
    NothingCompared(w.hash, Some(digests), source, partial, sourceLen, partialLen);
    NothingRead(w.hash, digests, sourceLen, hasher);
    var highest := Highest(digests.Keys);
    var want, have := highest + 1, DivCeil(partialLen, CHUNK_SIZE);
    var k: nat, shorter := 0, have < want;
    fed := hasher;
    FedStep(hasher, [], []);
    while k < Min(want, have)
      invariant w.Valid() && w.watch.(cleared := false) == old(w.watch).(cleared := false)
      invariant Ready(source, partial) && Agreed(w.hash, source.taken, partial.taken, k, sourceLen, fed, hasher)
      invariant Recorded(w.hash, source.taken, digests) && Recorded(w.hash, partial.taken, digests)
      invariant k > 0 ==> (k - 1) * CHUNK_SIZE < sourceLen && |source.taken| <= partialLen
      invariant k <= Min(want, have) && shorter == (have < want)
      invariant AlikeUpTo(w.hash, Some(digests), source, partial, sourceLen, partialLen, k)
    {
      if k !in digests || k * CHUNK_SIZE >= sourceLen {
        shorter := false;
        break;
      }
      if partialLen < ChunkEnd(k, sourceLen) {
        shorter := true;
        break;
      }
      var r;
      r, fed := TryRecorded(w, sourceLen, partialLen, source, partial, k, digests, fed, hasher);
      if r.Accepted? {
        AgreedLengths(w.hash, source.taken, partial.taken, k + 1, sourceLen, fed, hasher);
      }
      if r.Stopped? {
        return r.decided, fed;
      }
      k := k + 1;
    }
    AgreedLengths(w.hash, source.taken, partial.taken, k, sourceLen, fed, hasher);
    var pos := Min(k * CHUNK_SIZE, sourceLen);
    var why := if shorter then Some(PartialShorter(pos)) else None;
    var v := Verdict(if pos == 0 then StartFresh else StartAt(pos), [], why, []);
    EndByLog(w.hash, v, digests, sourceLen, partialLen, source, partial, k, hasher, fed);
    JudgedAtEndByLog(w.hash, v, digests, source, partial, sourceLen, partialLen, highest, k, shorter);
    d := Ok(v);
  }

  lemma NothingRead(hash: Bytes -> Digest, digests: map<nat, Digest>, len: nat, hasher: Option<Bytes>)
    ensures Agreed(hash, [], [], 0, len, hasher, hasher) && Recorded(hash, [], digests)
  {
    FedStep(hasher, [], []);
  }

  lemma NothingCompared(hash: Bytes -> Digest, ds: Option<map<nat, Digest>>, source: Reader, partial: Reader,
                        sourceLen: nat, partialLen: nat)
    ensures AlikeUpTo(hash, ds, source, partial, sourceLen, partialLen, 0)
  {
  }

  lemma JudgedAtEndByLog(hash: Bytes -> Digest, v: Verdict, ds: map<nat, Digest>, source: Reader, partial: Reader,
                         sourceLen: nat, partialLen: nat, highest: nat, k: nat, shorter: bool)
    requires highest in ds && forall i | i in ds :: i <= highest
    requires AlikeUpTo(hash, Some(ds), source, partial, sourceLen, partialLen, k)
    requires v.start.Offset() == Min(k * CHUNK_SIZE, sourceLen)
    requires v.discard == if shorter then Some(PartialShorter(v.start.Offset())) else None
    requires var have := DivCeil(partialLen, CHUNK_SIZE);
      if k >= Min(highest + 1, have) then shorter == (have < highest + 1)
      else if k !in ds || k * CHUNK_SIZE >= sourceLen then !shorter
      else shorter && partialLen < ChunkEnd(k, sourceLen)
    ensures Judged(hash, v, Some(ds), source, partial, sourceLen, partialLen)
  {
    hide FirstUnlike;
    if Known(source, partial, sourceLen, partialLen) {
      assert k >= highest + 1 ==> k !in ds;
      EndOfRun(hash, Some(ds), source, partial, sourceLen, partialLen, k);
      assert DivCeil(partialLen, CHUNK_SIZE) < highest + 1 <==> RecordedPast(ds, partial.fixed.value);
    }
  }

  lemma WholeChunks(k: nat)
    ensures DivCeil(k * CHUNK_SIZE, CHUNK_SIZE) == k
  {
  }

  lemma EndByLog(hash: Bytes -> Digest, v: Verdict, digests: map<nat, Digest>, sourceLen: nat, partialLen: nat,
                 source: Reader, partial: Reader, k: nat, hasher: Option<Bytes>, fed: Option<Bytes>)
    requires Ready(source, partial) && Agreed(hash, source.taken, partial.taken, k, sourceLen, fed, hasher)
    requires Recorded(hash, source.taken, digests) && Recorded(hash, partial.taken, digests)
    requires k > 0 ==> (k - 1) * CHUNK_SIZE < sourceLen && |source.taken| <= partialLen
    requires v.start == (if |source.taken| == 0 then StartFresh else StartAt(|source.taken|)) && v.carry == []
    requires v.proven == []
    requires v.discard.None? ==> k !in digests || k * CHUNK_SIZE >= sourceLen
    requires v.discard.Some? ==> v.discard == Some(PartialShorter(|source.taken|))
    requires v.discard.Some? ==> partialLen < ChunkEnd(k, sourceLen) || partialLen <= k * CHUNK_SIZE
    ensures ProvenByLog(hash, v, digests, sourceLen, partialLen, source, partial, hasher, fed)
  {
    hide Recorded, Positioned, FedPrefix, Agreed, DivCeil, Min, ChunkEnd;
    AgreedLengths(hash, source.taken, partial.taken, k, sourceLen, fed, hasher);
    EndIsPositioned(v, source.taken, k, sourceLen, hasher);
    EndReasons(v, digests, sourceLen, partialLen, |source.taken|, k);
    if partial.fixed.Some? {
      TakenIsThePrefix(partial);
    }
    if CollisionFree(hash) {
      AgreedIsTheSame(hash, source.taken, partial.taken, k, sourceLen, fed, hasher);
    }
  }

  lemma EndReasons(v: Verdict, digests: map<nat, Digest>, sourceLen: nat, partialLen: nat, at: nat, k: nat)
    requires at == Min(k * CHUNK_SIZE, sourceLen) && (k > 0 ==> at <= partialLen && (k - 1) * CHUNK_SIZE < sourceLen)
    requires v.discard.None? ==> k !in digests || k * CHUNK_SIZE >= sourceLen
    requires v.discard.Some? ==> partialLen < ChunkEnd(k, sourceLen) || partialLen <= k * CHUNK_SIZE
    ensures at <= partialLen
    ensures v.discard.None? ==> at == sourceLen || DivCeil(at, CHUNK_SIZE) !in digests
    ensures v.discard.Some? ==> partialLen < at + CHUNK_SIZE
  {
    WholeChunks(k);
  }

  method Highest(keys: set<nat>) returns (m: nat)
    requires keys != {}
    ensures m in keys && forall k | k in keys :: k <= m
  {
    m :| m in keys;
    var rest := keys - {m};
    while rest != {}
      invariant m in keys && rest <= keys
      invariant forall k | k in keys && k !in rest :: k <= m
      decreases |rest|
    {
      var k :| k in rest;
      rest := rest - {k};
      if m < k {
        m := k;
      }
    }
  }

  lemma ExtendRecorded(hash: Bytes -> Digest, b: Bytes, k: nat, more: Bytes, digests: map<nat, Digest>)
    requires |b| == k * CHUNK_SIZE && 0 < |more| <= CHUNK_SIZE && Recorded(hash, b, digests)
    requires k in digests && digests[k] == hash(more)
    ensures Recorded(hash, b + more, digests)
  {
    assert DivCeil(|b|, CHUNK_SIZE) == k;
    assert DivCeil(|b + more|, CHUNK_SIZE) == k + 1;
    assert Chunk(b + more, k) == more;
    forall i: nat | i < k
      ensures Chunk(b + more, i) == Chunk(b, i)
    {
    }
  }

  lemma ExtendDigests(hash: Bytes -> Digest, b: Bytes, k: nat, more: Bytes, ds: seq<Digest>)
    requires |b| == k * CHUNK_SIZE && 0 < |more| <= CHUNK_SIZE && ChunkDigests(hash, b, ds)
    ensures ChunkDigests(hash, b + more, ds + [hash(more)])
  {
    assert DivCeil(|b|, CHUNK_SIZE) == k;
    assert DivCeil(|b + more|, CHUNK_SIZE) == k + 1;
    assert Chunk(b + more, k) == more;
    forall i | 0 <= i < k
      ensures Chunk(b + more, i) == Chunk(b, i)
    {
    }
  }

  lemma DifferenceIsReal(hash: Bytes -> Digest, source: Reader, partial: Reader, s: Bytes, p: Bytes,
                         mine: Bytes, theirs: Option<Bytes>, len: nat)
    requires source.Valid() && partial.Valid() && |s| == |p| && p <= partial.taken
    requires source.taken == s + mine && |mine| <= len && (|mine| < len ==> source.ended)
    requires theirs.Some? ==> partial.taken == p + theirs.value && |theirs.value| == len
    requires theirs.None? ==> partial.broken || (partial.ended && |partial.taken| < |p| + len)
    requires !(|mine| == len && theirs.Some? && hash(mine) == hash(theirs.value))
    ensures var both := source.fixed.Some? && partial.fixed.Some? && !partial.broken;
      both && |s| + len <= |source.fixed.value| && |s| + len <= |partial.fixed.value| ==>
      Differs(source, partial, |s|, len)
  {
    var both := source.fixed.Some? && partial.fixed.Some? && !partial.broken;
    if both && |s| + len <= |source.fixed.value| && |s| + len <= |partial.fixed.value| {
      assert source.taken[|s|..] == mine;
      assert source.fixed.value[|s|..|s| + len] == mine;
      assert partial.taken[|p|..] == theirs.value;
      assert partial.fixed.value[|p|..|p| + len] == theirs.value;
    }
  }

  // ---------------------------------------------------------------------------------------------
  // plan_resume

  datatype Level = ByChunks | ByContent

  /** What a file checkpoints through: nothing, the run's log, or no log at all (a single file). */
  datatype Hook = NoHook | Logged(level: Level, minLen: nat, strictLog: bool) | LogFree(minLen: nat)
  {
    /** Whether a source of `len` bytes is checkpointed, and so may resume. */
    predicate Covers(len: nat) {
      match this
      case NoHook => false
      case Logged(_, m, _) => len >= m
      case LogFree(m) => len >= m
    }
  }

  datatype Planning =
    | Planning(verdict: Verdict, identity: Option<FileIdentity>)
    | PlanFailed(step: CopyStep, code: Code)

  function Afresh(why: Option<Discard>): Verdict {
    Verdict(StartFresh, [], why, [])
  }

  /**
   What `stage_file` may rely on: the source is read to exactly where the verdict says, the digest was fed the kept
   prefix, and a resume is over an identified regular file that has no second name and begins with that prefix.
   */
  ghost predicate Usable(hash: Bytes -> Digest, disk: Disk, p: Planning, taken: Bytes, len: nat,
                         hasher: Option<Bytes>, fed: Option<Bytes>)
    requires p.Planning? && disk.WellFormed()
  {
    var v := p.verdict;
    var at := v.start.Offset();
    && Positioned(v, taken, len) && FedPrefix(hasher, fed, v, taken)
    && (v.proven != [] ==> |v.proven| == DivCeil(at, CHUNK_SIZE))
    && (v.start.StartAt? ==>
          && p.identity.Some? && disk.SoleTemp() && Reopens(disk, p.identity.value) && at <= |disk.TempBytes()|
          && (CollisionFree(hash) ==> taken[..at] <= disk.TempBytes()))
  }

  lemma AfreshIsUsable(hash: Bytes -> Digest, disk: Disk, why: Option<Discard>, i: Option<FileIdentity>, len: nat,
                       hasher: Option<Bytes>)
    requires disk.WellFormed()
    ensures Usable(hash, disk, Planning(Afresh(why), i), [], len, hasher, hasher)
  {
    FedStep(hasher, [], []);
  }

  /** What is kept, and why no more. */
  type Resumed = (nat, Option<Discard>)

  ghost predicate Says(v: Verdict, r: Resumed) {
    v.start.Offset() == r.0 && v.discard == r.1
  }

  /** What the state of the log calls for, over a source `s` and a partial, if there is one. */
  ghost function ByState(hash: Bytes -> Digest, state: FileState, src: Metadata, identity: Bytes, s: Bytes,
                         partial: Option<Bytes>): Resumed
  {
    if state.len != src.len then (0, Some(SourceHasChanged(ChangedLength)))
    else if state.mtime != src.modified then (0, Some(SourceHasChanged(ChangedTime)))
    else if state.identity != identity then (0, Some(SourceHasChanged(ChangedIdentity)))
    else if partial.None? then (0, Some(PartialMissing))
    else (KeptBytes(hash, s, partial.value, Some(state.digests)), Reason(hash, s, partial.value, Some(state.digests)))
  }

  /** A partial that can be continued: an identified regular file of one name. */
  predicate Continuable(d: Disk, m: Metadata)
    requires d.WellFormed()
  {
    && Temp in d.names && d.Backed(Temp) && d.kinds[d.names[Temp]] == File && d.links[d.names[Temp]] == 1
    && !m.identity.Unavailable? && m.nlink.Some?
  }

  /**
   What a run over this disk resumes where nothing fails of itself: for a file that is long enough, the longest run of
   chunks that the log, or else the source, vouches for.
   */
  ghost function Resumption(w: World, hook: Hook, d: Disk): Resumed
    requires d.WellFormed()
  {
    if hook.NoHook? || |w.source| < hook.minLen then (0, None)
    else if hook.Logged? && hook.level == ByChunks then
      match w.log
      case LoadNothing => (0, None)
      case LoadFailed => (0, Some(Unreadable))
      case LoadState(st) => FromDisk(w, hook, Some(st), d)
    else FromDisk(w, hook, None, d)
  }

  ghost function FromDisk(w: World, hook: Hook, state: Option<FileState>, d: Disk): Resumed
    requires d.WellFormed()
  {
    var p := if Temp in d.names then Some(d.TempBytes()) else None;
    if p.Some? && !Continuable(d, w.tempMeta) then (0, Some(Unreadable))
    else if state.Some? then
      ByState(w.hash, state.value, w.sourceMeta, w.identityText(w.sourceMeta.identity), w.source, p)
    else if p.Some? then (KeptBytes(w.hash, w.source, p.value, None), Reason(w.hash, w.source, p.value, None))
    else (0, if hook.Logged? && w.log.LoadState? then Some(PartialMissing) else None)
  }

  /** `decide`: any change of the source since the log began the file is a fresh copy, before anything is read. */
  method Decide(w: World, state: FileState, src: Metadata, partialLen: nat, source: Reader, partial: Reader?,
                hasher: Option<Bytes>)
    returns (d: Decided, fed: Option<Bytes>)
    requires w.Valid() && w.watch.phase == Owned && source.Valid() && source.taken == []
    requires partial != null ==> source != partial && partial.Valid() && partial.taken == [] && !partial.broken
    modifies w`trace, w`watch, source, partial
    ensures w.Valid() && source.Valid()
    ensures d.Ok? ==> w.watch.(cleared := false) == old(w.watch).(cleared := false)
    ensures d.DecideFailed? ==> w.watch == Blamed(old(w.watch).(cleared := false), Over, Blame(d.step, d.code))
    ensures
      var another := state.identity != w.identityText(src.identity);
      var changed := state.len != src.len || state.mtime != src.modified || another;
      d.Ok? && changed ==>
      d.verdict.start.StartFresh? && d.verdict.discard.Some? && d.verdict.discard.value.SourceHasChanged?
    ensures d.Ok? && (partial == null || state.digests == map[]) ==> d.verdict.start.StartFresh?
    ensures d.Ok? ==>
      || (d.verdict == Afresh(d.verdict.discard) && source.taken == [] && fed == hasher)
      || (&& partial != null
          && ProvenByLog(w.hash, d.verdict, state.digests, src.len, partialLen, source, partial, hasher, fed))
    ensures w.calm && source.calm ==> d.Ok?
    ensures var p := if partial == null then None else partial.fixed;
      var known := source.fixed.Some? && |source.fixed.value| == src.len;
      var there := partial != null ==> partial.calm && p.Some? && |p.value| == partialLen;
      d.Ok? && known && there ==>
      Says(d.verdict, ByState(w.hash, state, src, w.identityText(src.identity), source.fixed.value, p))
  {
    hide World.Valid, Lawful, Steady, ProvenByLog, KeptBytes, Reason;
    if source.fixed.Some? && partial != null && partial.fixed.Some? {
      NothingRecorded(w.hash, source.fixed.value, partial.fixed.value);
    }
    fed := hasher;
    if state.len != src.len {
      d := Ok(Afresh(Some(SourceHasChanged(ChangedLength))));
    } else if state.mtime != src.modified {
      d := Ok(Afresh(Some(SourceHasChanged(ChangedTime))));
    } else if state.identity != w.identityText(src.identity) {
      d := Ok(Afresh(Some(SourceHasChanged(ChangedIdentity))));
    } else if partial == null {
      d := Ok(Afresh(Some(PartialMissing)));
    } else if state.digests == map[] {
      d := Ok(Afresh(None));
    } else {
      d, fed := DecideByLog(w, state.digests, src.len, partialLen, source, partial, hasher);
    }
  }

  datatype Found = Absent | Refused | Present(identity: FileIdentity, len: nat)

  /** The look at the partial: only an identified regular file with exactly one name can be continued. */
  method FindPartial(w: World) returns (f: Found, r: Reader?)
    requires w.Valid()
    ensures r != null <==> f.Present?
    ensures r != null ==> fresh(r) && r.Valid() && r.taken == [] && !r.broken
    ensures f.Present? ==> w.disk.SoleTemp() && Reopens(w.disk, f.identity)
    ensures f.Present? ==> r.fixed == Some(w.disk.TempBytes()) && f.len == |w.disk.TempBytes()|
    ensures f.Absent? ==> Temp !in w.disk.names
    ensures w.calm ==> (f.Absent? <==> Temp !in w.disk.names) && (f.Present? <==> Continuable(w.disk, w.tempMeta))
    ensures w.calm && r != null ==> r.calm
  {
    f, r := Refused, null;
    var stat := w.StatEntry(Temp);
    if stat.NotFound? {
      f := Absent;
    } else if stat.StatOk? && stat.meta.fileType == File
              && !stat.meta.identity.Unavailable? && stat.meta.nlink == Some(1) {
      var answer;
      r, answer := w.OpenTemp();
      if r != null {
        f := Present(stat.meta.identity, stat.meta.len);
      } else if answer.NotFound? {
        f := Absent;
      }
    }
  }

  lemma LogIsUsable(hash: Bytes -> Digest, disk: Disk, v: Verdict, digests: map<nat, Digest>, i: FileIdentity, len: nat,
                    source: Reader, partial: Reader, hasher: Option<Bytes>, fed: Option<Bytes>)
    requires disk.WellFormed() && disk.SoleTemp() && Reopens(disk, i)
    requires partial.fixed == Some(disk.TempBytes())
    requires ProvenByLog(hash, v, digests, len, |disk.TempBytes()|, source, partial, hasher, fed)
    ensures Usable(hash, disk, Planning(v, Some(i)), source.taken, len, hasher, fed)
  {
  }

  lemma FullIsUsable(hash: Bytes -> Digest, disk: Disk, v: Verdict, i: FileIdentity, len: nat,
                     source: Reader, partial: Reader, hasher: Option<Bytes>, fed: Option<Bytes>)
    requires disk.WellFormed() && disk.SoleTemp() && Reopens(disk, i)
    requires partial.fixed == Some(disk.TempBytes())
    requires FullyProven(hash, v, len, |disk.TempBytes()|, source, partial, hasher, fed)
    ensures Usable(hash, disk, Planning(v, Some(i)), source.taken, len, hasher, fed)
  {
    var at := v.start.Offset();
    assert |source.taken[..at]| == at;
  }

  /** The plan over the state of the log and a partial, if there is one that can be continued. */
  method PlanByState(w: World, state: FileState, src: Metadata, found: Found, source: Reader, partial: Reader?,
                     hasher: Option<Bytes>)
    returns (p: Planning, fed: Option<Bytes>)
    requires w.Valid() && w.watch.phase == Owned && source.Valid() && source.taken == []
    requires partial != null <==> found.Present?
    requires partial != null ==> partial.Valid() && partial.taken == [] && !partial.broken && partial != source
    requires found.Present? ==> w.disk.SoleTemp() && Reopens(w.disk, found.identity)
    requires found.Present? ==> partial.fixed == Some(w.disk.TempBytes()) && found.len == |w.disk.TempBytes()|
    modifies w`trace, w`watch, source, partial
    ensures w.Valid() && source.Valid()
    ensures p.Planning? ==> w.watch.(cleared := false) == old(w.watch).(cleared := false)
    ensures p.PlanFailed? ==> w.watch == Blamed(old(w.watch).(cleared := false), Over, Blame(p.step, p.code))
    ensures p.Planning? ==> Usable(w.hash, w.disk, p, source.taken, src.len, hasher, fed)
    ensures w.calm && source.calm ==> p.Planning?
    ensures var known := source.fixed.Some? && |source.fixed.value| == src.len && (partial != null ==> partial.calm);
      var there := if partial == null then None else partial.fixed;
      p.Planning? && known ==>
      Says(p.verdict, ByState(w.hash, state, src, w.identityText(src.identity), source.fixed.value, there))
  {
    hide World.Valid, Lawful, Steady, Usable, ProvenByLog, ByState, Disk.WellFormed, CollisionFree;
    var identity := if found.Present? then Some(found.identity) else None;
    var d;
    d, fed := Decide(w, state, src, if found.Present? then found.len else 0, source, partial, hasher);
    if d.DecideFailed? {
      return PlanFailed(d.step, d.code), fed;
    }
    p := Planning(d.verdict, identity);
    if d.verdict == Afresh(d.verdict.discard) && source.taken == [] && fed == hasher {
      AfreshIsUsable(w.hash, w.disk, d.verdict.discard, identity, src.len, hasher);
    } else {
      LogIsUsable(w.hash, w.disk, d.verdict, state.digests, found.identity, src.len, source, partial, hasher, fed);
    }
  }

  /** `plan_resume` once the log has been consulted; without a state the source itself is the oracle. */
  method PlanOver(w: World, hook: Hook, state: Option<FileState>, src: Metadata, source: Reader, hasher: Option<Bytes>)
    returns (p: Planning, fed: Option<Bytes>)
    requires w.Valid() && w.watch.phase == Owned && source.Valid() && source.taken == []
    modifies w`trace, w`watch, source
    ensures w.Valid() && source.Valid()
    ensures p.Planning? ==> w.watch.(cleared := false) == old(w.watch).(cleared := false)
    ensures p.PlanFailed? ==> w.watch == Blamed(old(w.watch).(cleared := false), Over, Blame(p.step, p.code))
    ensures p.Planning? ==> Usable(w.hash, w.disk, p, source.taken, src.len, hasher, fed)
    ensures w.calm && source.calm ==> p.Planning?
    ensures w.calm && source.calm && src == w.sourceMeta && source.fixed == Some(w.source) ==>
      Says(p.verdict, FromDisk(w, hook, state, w.disk))
  {
    hide World.Valid, Lawful, Steady, Usable, ProvenByLog, FullyProven, KeptBytes, Reason, ByState;
    hide Disk.WellFormed, CollisionFree;
    fed := hasher;
    var found, partial := FindPartial(w);
    if found.Refused? {
      p := Planning(Afresh(Some(Unreadable)), None);
      AfreshIsUsable(w.hash, w.disk, Some(Unreadable), None, src.len, hasher);
      return;
    }
    var identity := if found.Present? then Some(found.identity) else None;
    var len := if found.Present? then found.len else 0;
    if state.Some? {
      p, fed := PlanByState(w, state.value, src, found, source, partial, hasher);
    } else if partial != null {
      var d;
      d, fed := DecideFull(w, src.len, len, source, partial, hasher);
      if d.DecideFailed? {
        return PlanFailed(d.step, d.code), fed;
      }
      p := Planning(d.verdict, identity);
      FullIsUsable(w.hash, w.disk, d.verdict, found.identity, src.len, source, partial, hasher, fed);
    } else {
      var why := None;
      if hook.Logged? {
        var again := w.LoadLog();
        why := if again.LoadState? then Some(PartialMissing) else None;
      }
      p := Planning(Afresh(why), None);
      AfreshIsUsable(w.hash, w.disk, why, None, src.len, hasher);
    }
  }

  /** `plan_resume`: changes nothing on disk. */
  method PlanResume(w: World, hook: Hook, src: Metadata, source: Reader, hasher: Option<Bytes>)
    returns (p: Planning, fed: Option<Bytes>)
    requires w.Valid() && w.watch.phase == Owned && source.Valid() && source.taken == []
    modifies w`trace, w`watch, source
    ensures w.Valid() && source.Valid()
    ensures p.Planning? ==> w.watch.(cleared := false) == old(w.watch).(cleared := false)
    ensures p.PlanFailed? ==> w.watch == Blamed(old(w.watch).(cleared := false), Over, Blame(p.step, p.code))
    ensures p.Planning? ==> Usable(w.hash, w.disk, p, source.taken, src.len, hasher, fed)
    ensures w.calm && source.calm ==> p.Planning?
    ensures w.calm && source.calm && src == w.sourceMeta && source.fixed == Some(w.source) && hook.Covers(src.len) ==>
      Says(p.verdict, Resumption(w, hook, w.disk))
  {
    hide World.Valid, Lawful, Steady, Usable, FromDisk, Disk.WellFormed;
    var state: Option<FileState> := None;
    if hook.Logged? && hook.level == ByChunks {
      var loaded := w.LoadLog();
      match loaded {
        case LoadNothing =>
          AfreshIsUsable(w.hash, w.disk, None, None, src.len, hasher);
          return Planning(Afresh(None), None), hasher;
        case LoadFailed =>
          AfreshIsUsable(w.hash, w.disk, Some(Unreadable), None, src.len, hasher);
          return Planning(Afresh(Some(Unreadable)), None), hasher;
        case LoadState(s) =>
          state := Some(s);
      }
    }
    p, fed := PlanOver(w, hook, state, src, source, hasher);
  }
}
