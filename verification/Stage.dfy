/**
 The copy of one file up to the rename: `stage_file` of crates/flux-core/src/copy.rs, cut at the places its own
 comments number. Every method says what the disk, the log of calls and the reported error are at its exit.
 */
module Stage {
  import opened Basics
  import opened Protocol
  import opened Readers
  import opened Destination
  import opened Policy
  import opened Keeping
  import opened Resume

  datatype SyncAt = Staging | Barrier

  function ScriptOf(o: Options, hook: Hook, sync: SyncAt): Script {
    Script(!hook.NoHook?, o.verify, o.times, o.perms, sync == Staging && o.strictDurability)
  }

  /** The run reports its first failure, with its step and code, and the file that was left behind. */
  predicate Reports(w: Watch, e: CopyError) {
    w.blame == Some(Blame(e.step, e.code)) && w.leftover == e.leftover
  }

  /** Nothing more is to be done: the temporary is cleared away as far as it could be, or kept on purpose. */
  predicate Closed(p: Phase) {
    p == Over || p == Kept
  }

  /** A temporary that was opened is gone, named to the caller, or kept on purpose for a later resume. */
  predicate Accounted(w: Watch, d: Disk, e: CopyError) {
    || Temp !in d.names
    || e.leftover == Some(TempPath)
    || (w.phase == Kept && e.step == AtCheckpoint && e.code == WalWriteFailed)
  }

  /** Nothing has failed; the temporary is open, the source is the one planned, and `missed` was not applied. */
  predicate Underway(w: Watch, src: Metadata, missed: seq<MetadataItem>) {
    && w.blame.None? && w.isOpen && w.src == Some(src) && w.missed == missed && w.leftover.None?
    && (w.sink.SinkOpen? ==> w.phase == Writing)
  }

  /** Nothing has failed and the temporary is not open yet. */
  predicate Poised(w: Watch, src: Metadata) {
    && w.blame.None? && !w.isOpen && w.src == Some(src) && w.missed == [] && w.leftover.None?
    && w.written == [] && w.sink.NoSink?
  }

  predicate Going(w: Watch, src: Metadata) {
    Underway(w, src, [])
  }

  /** How a run that has opened its temporary ends in error. */
  ghost predicate EndsInError(w: World, d0: Disk, e: CopyError)
    reads w
  {
    && w.Valid() && Safe(d0, w.disk) && w.watch.isOpen && Closed(w.watch.phase)
    && Reports(w.watch, e) && Accounted(w.watch, w.disk, e)
  }

  /** A leftover at the temporary's name that a sweep can take away. */
  predicate Sweepable(d: Disk)
    requires d.WellFormed()
  {
    Temp in d.names ==> d.Backed(Temp) && d.kinds[d.names[Temp]] != Dir
  }

  // ------------------------------------------------------------------------------ clearing up

  /** The log of a run that has gone on. */
  predicate Longer(before: seq<Call>, t: seq<Call>) {
    |before| < |t| && t[..|before|] == before
  }

  /** The last call of a run. */
  ghost function Last(t: seq<Call>): Event
    requires |t| > 0
  {
    t[|t| - 1].event
  }

  lemma TwoMore(t0: seq<Call>, t1: seq<Call>, t2: seq<Call>, e1: Event, e2: Event)
    requires Adds(t0, t1, e1)
    ensures Longer(t0, t1) && Last(t1) == e1
    ensures Adds(t1, t2, e2) ==> Longer(t0, t2) && Last(t2) == e2
  {
    if Adds(t1, t2, e2) {
      assert t0 == t1[..|t0|] == t2[..|t1|][..|t0|] == t2[..|t0|];
    }
  }

  lemma ClearedUp(w: World, d0: Disk, e: CopyError)
    requires w.Valid() && Safe(d0, w.disk) && w.watch.isOpen && w.watch.phase == Over && Reports(w.watch, e)
    requires Temp !in w.disk.names || e.leftover == Some(TempPath)
    ensures EndsInError(w, d0, e)
  {
  }

  /**
   `discard`: a removal is a mutation too, so without the lock the temporary stays and is reported. What is named is
   the temporary exactly if the guard or the removal failed, and the run is over then.
   */
  method Discarded(w: World, ghost d0: Disk, b: Blame) returns (e: CopyError)
    requires w.Valid() && w.watch.phase == Doomed && w.watch.blame == Some(b) && Safe(d0, w.disk) && w.watch.isOpen
    requires !w.watch.sink.SinkOpen?
    modifies w`trace, w`watch, w`disk
    ensures e.step == b.step && e.code == b.code && w.watch.phase == Over && Longer(old(w.trace), w.trace)
    ensures EndsInError(w, d0, e.(leftover := w.watch.leftover))
    ensures w.watch.leftover == if e.leftover.Some? then e.leftover else old(w.watch).leftover
    ensures ClearsAway(Last(w.trace))
    ensures Last(w.trace).GuardCall? || Last(w.trace).fault.Some? ==> e.leftover == Some(TempPath)
    ensures Last(w.trace) == Removed(None) ==> e.leftover.None? && Temp !in w.disk.names
  {
    hide World.Valid, Lawful, Steady, Adds, Last, Longer, Safe, WithoutTemp, EndsInError;
    var lost := w.Guard();
    ghost var guarded := w.trace;
    TwoMore(old(w.trace), guarded, [], GuardCall(lost), Swept);
    if lost.Some? {
      e := CopyError(b.step, b.code, Some(TempPath));
      ClearedUp(w, d0, e);
      return;
    }
    var failed := w.Remove();
    TwoMore(old(w.trace), guarded, w.trace, GuardCall(lost), Removed(failed));
    SweepIsSafe(d0, old(w.disk), w.disk);
    e := CopyError(b.step, b.code, if failed.Some? then Some(TempPath) else None);
    ClearedUp(w, d0, e.(leftover := w.watch.leftover));
  }

  // ------------------------------------------------------------------------------ steps 1, 2, 2a, 2b

  datatype Prelude =
    | Ready(src: Metadata, degraded: Option<FileIdentity>)
    | Skips(degraded: Option<FileIdentity>)
    | PreludeFailed(error: CopyError)

  /** What a calm prelude makes of the plan. */
  predicate AsPlanned(r: Prelude, plan: FilePlan) {
    match plan
    case Refuse(b) => r == PreludeFailed(CopyError(b.step, b.code, None))
    case SkipFile(d) => r == Skips(d)
    case Proceed(d) => r.Ready? && r.degraded == d
  }

  /** Nothing has failed and nothing of the destination has been touched, but for a sweep. */
  predicate Unopened(w: Watch) {
    && w.blame.None? && !w.isOpen && w.missed == [] && w.leftover.None? && w.written == [] && w.sink.NoSink?
  }

  /** Step 1: the heartbeat, the lock, and the sweep of a run that does not checkpoint. */
  method Enter(w: World, hook: Hook) returns (e: Option<CopyError>)
    requires w.Valid() && w.watch == INITIAL && w.script.checkpointed == !hook.NoHook?
    modifies w`trace, w`watch, w`disk
    ensures w.Valid() && Safe(old(w.disk), w.disk)
    ensures e.None? ==> w.watch.phase == Settled && Unopened(w.watch)
    ensures !hook.NoHook? ==> w.disk == old(w.disk)
    ensures e.Some? ==> w.watch.phase == Over && Reports(w.watch, e.value) && e.value.leftover.None? && !w.watch.isOpen
    ensures w.calm ==> e.None?
    ensures w.calm && hook.NoHook? && Sweepable(old(w.disk)) ==> Temp !in w.disk.names
  {
    hide World.Valid, Lawful, Steady;
    var f := w.Beat();
    if f.Some? {
      return Some(CopyError(AtHeartbeat, f.value, None));
    }
    f := w.Guard();
    if f.Some? {
      return Some(CopyError(AtCreate, f.value, None));
    }
    if hook.NoHook? {
      w.Sweep();
      SweepIsSafe(old(w.disk), old(w.disk), w.disk);
    }
    e := None;
  }

  /** A skip changes nothing, but a checkpointing run has its deferred sweep still to make. */
  method LeaveSkipped(w: World, hook: Hook, ghost d0: Disk) returns (e: Option<CopyError>)
    requires w.Valid() && w.watch.phase == Settled && w.script.checkpointed == !hook.NoHook? && Safe(d0, w.disk)
    requires Unopened(w.watch)
    modifies w`trace, w`watch, w`disk
    ensures w.Valid() && Safe(d0, w.disk) && w.watch.phase == Over && !w.watch.isOpen
    ensures Target in w.disk.names <==> Target in old(w.disk).names
    ensures e.None? ==> w.watch.blame.None?
    ensures e.Some? ==> Reports(w.watch, e.value) && e.value.leftover.None?
    ensures w.calm ==> e.None?
  {
    hide World.Valid, Lawful, Steady;
    w.Skip();
    if !hook.NoHook? {
      var f := w.Guard();
      if f.Some? {
        return Some(CopyError(AtCreate, f.value, None));
      }
      w.Sweep();
      SweepIsSafe(d0, old(w.disk), w.disk);
    }
    e := None;
  }

  /** A passed gate knows the target's object from the source's whenever it does not say it was degraded. */
  lemma PassedGateIsDistinct(o: Options, src: Metadata, dest: Stat, source: ObjectId, target: ObjectId)
    requires src.identity.Strong? ==> src.identity.id == source
    requires dest.StatOk? && dest.meta.identity.Strong? ==> dest.meta.identity.id == target
    requires PlanFile(src, dest, o).Proceed?
    ensures PlanFile(src, dest, o).degraded.None? ==> dest.NotFound? || source != target
    ensures o.safety == SafetyStrict ==> PlanFile(src, dest, o).degraded.None?
    ensures src.fileType == File
  {
  }

  lemma PlanFacts(src: Metadata, dest: Stat, o: Options)
    ensures var plan := PlanFile(src, dest, o);
      && (plan.Refuse? ==> plan.blame.step == AtSource || plan.blame.step == AtGate)
      && (plan.SkipFile? ==> dest.StatOk? && o.existing != Overwrite)
      && (plan.Proceed? && o.noReplace ==> !dest.StatOk?)
      && (plan.Proceed? && o.existing == SkipExisting ==> !dest.StatOk? && (plan.degraded.None? ==> dest.NotFound?))
  {
  }

  /** What warrants a copy over what is there, if anything is. */
  predicate Warranted(w: World, existing: Existing, d: Disk)
    requires d.WellFormed()
  {
    Target in d.names ==>
      match existing
      case Overwrite => true
      case SkipExisting => false
      case Update =>
        || |w.source| != |d.data[d.names[Target]]|
        || (&& w.sourceMeta.modified.Some? && w.targetMeta.modified.Some?
            && w.sourceMeta.modified.value > w.targetMeta.modified.value)
  }

  lemma PlanIsWarranted(w: World, o: Options, d: Disk)
    requires d.WellFormed() && w.sourceMeta.len == |w.source|
    ensures var plan := PlanFile(w.sourceMeta, EntryStat(d, Target, w.targetMeta), o);
      && (plan.Proceed? ==> Warranted(w, o.existing, d))
      && (plan.SkipFile? ==> !Warranted(w, o.existing, d))
  {
  }

  /** The sweep of a leftover does not change the plan, even where the leftover was a second name of the target. */
  lemma SamePlan(o: Options, src: Metadata, m: Metadata, d0: Disk, d: Disk)
    requires Safe(d0, d)
    ensures PlanFile(src, EntryStat(d0, Target, m), o) == PlanFile(src, EntryStat(d, Target, m), o)
  {
    hide Untouched;
  }

  /** Everything before the claim. It may sweep a leftover of this operation's name; it changes nothing else. */
  method RunPrelude(w: World, o: Options, hook: Hook) returns (r: Prelude, reader: Reader?)
    requires w.Valid() && w.watch == INITIAL && w.script.checkpointed == !hook.NoHook?
    modifies w`trace, w`watch, w`disk
    ensures w.Valid() && Safe(old(w.disk), w.disk) && !w.watch.isOpen
    ensures r.PreludeFailed? ==> w.watch.phase == Over && Reports(w.watch, r.error) && r.error.leftover.None?
    ensures r.Skips? ==> w.watch.phase == Over && w.watch.blame.None?
    ensures r.Ready? <==> reader != null
    ensures r.Ready? ==> w.watch.phase == Plan && Poised(w.watch, r.src) && r.src.fileType == File
    ensures r.Ready? ==>
      fresh(reader) && reader.Valid() && reader.taken == [] && (w.stable ==> reader.fixed == Some(w.source))
    ensures r.Ready? && w.stable ==> r.src.len == |w.source| && r.src.modified == w.sourceTime
    ensures r.Ready? && !hook.NoHook? ==> w.disk == old(w.disk)
    ensures r.Ready? && o.safety == SafetyStrict ==> r.degraded.None?
    ensures r.Ready? && r.degraded.None? && Target in w.disk.names ==> w.disk.names[Target] != w.sourceId
    ensures r.Skips? ==> Target in w.disk.names && o.existing != Overwrite
    ensures r.Ready? && o.existing == SkipExisting && r.degraded.None? ==> Target !in w.disk.names
    ensures w.calm && r.Ready? ==> Warranted(w, o.existing, old(w.disk))
    ensures w.calm && r.Skips? ==> !Warranted(w, o.existing, old(w.disk))
    ensures w.calm ==> AsPlanned(r, PlanFile(w.sourceMeta, EntryStat(old(w.disk), Target, w.targetMeta), o))
    ensures w.calm && r.Ready? ==> r.src == w.sourceMeta && reader.calm && (o.noReplace ==> Target !in w.disk.names)
    ensures w.calm && r.Ready? && hook.NoHook? && Sweepable(old(w.disk)) ==> Temp !in w.disk.names
  {
    hide World.Valid, Lawful, Steady, Untouched, TargetView, PlanFile, EntryStat, Warranted;
    if w.calm {
      PlanIsWarranted(w, o, w.disk);
    }
    reader := null;
    var e := Enter(w, hook);
    if e.Some? {
      return PreludeFailed(e.value), null;
    }
    var s := w.StatSource();
    if !s.StatOk? {
      return PreludeFailed(CopyError(AtSource, if s.StatFailed? then s.code else IoError, None)), null;
    }
    var dest := w.StatEntry(Target);
    var plan := PlanFile(s.meta, dest, o);
    PlanFacts(s.meta, dest, o);
    SamePlan(o, w.sourceMeta, w.targetMeta, old(w.disk), w.disk);
    if plan.Refuse? {
      w.TurnDown(plan.blame);
      return PreludeFailed(CopyError(plan.blame.step, plan.blame.code, None)), null;
    }
    if plan.SkipFile? {
      e := LeaveSkipped(w, hook, old(w.disk));
      return if e.Some? then PreludeFailed(e.value) else Skips(plan.degraded), null;
    }
    var there := if Target in w.disk.names then w.disk.names[Target] else w.sourceId;
    PassedGateIsDistinct(o, s.meta, dest, w.sourceId, there);
    w.Proceed(s.meta);
    var code;
    reader, code := w.OpenSource();
    if reader == null {
      return PreludeFailed(CopyError(AtSource, code, None)), null;
    }
    r := Ready(s.meta, plan.degraded);
  }

  // ------------------------------------------------------------------------------ step 3

  /** Where the log of a file begins: from which offset, and with which digests proven before. */
  datatype LogStart = LogStart(from: nat, proven: seq<Digest>)

  /** The stream is being written: `written` so far, each byte also handed to the log where there is one. */
  predicate Streaming(w: Watch, src: Metadata, log: Option<LogStart>, written: Bytes) {
    && w.phase == Writing && Going(w, src) && w.written == written
    && w.sink == if log.Some? then SinkOpen(log.value.from, log.value.proven, written) else NoSink
  }

  datatype Opening =
    | Opening(reused: nat, carry: Bytes, why: Option<Discard>, proven: seq<Digest>)
    | OpeningFailed(error: CopyError)

  /** A kept prefix is the source's own, unless digests can collide. */
  ghost predicate Trusted(hash: Bytes -> Digest, reused: nat) {
    reused == 0 || CollisionFree(hash)
  }

  /** The temporary is open, holds exactly the kept prefix, and the source is read past it by exactly the carry. */
  ghost predicate Primed(hash: Bytes -> Digest, d0: Disk, d: Disk, at: nat, len: nat, taken: Bytes, g: Opening,
                         hasher: Option<Bytes>, fed: Option<Bytes>)
    requires g.Opening?
  {
    && Safe(d0, d) && OwnTemp(d0, d) && at == g.reused == |d.TempBytes()|
    && |taken| == g.reused + |g.carry| && taken[g.reused..] == g.carry
    && (Trusted(hash, g.reused) ==> d.TempBytes() == taken[..g.reused])
    && fed == Fed(hasher, taken[..g.reused])
    && (g.reused % CHUNK_SIZE == 0 || g.reused == len)
    && (g.proven != [] ==> |g.proven| == DivCeil(g.reused, CHUNK_SIZE))
  }

  lemma CutPrimes(w: World, d0: Disk, p: Planning, len: nat, taken: Bytes, hasher: Option<Bytes>, fed: Option<Bytes>)
    requires d0.WellFormed() && p.Planning? && p.verdict.start.StartAt?
    requires Usable(w.hash, d0, p, taken, len, hasher, fed)
    requires w.at == p.verdict.start.offset
    requires w.disk == WithTempBytes(d0, d0.TempBytes()[..p.verdict.start.offset])
    ensures Safe(d0, w.disk)
    ensures var v := p.verdict;
      var g := Opening(v.start.offset, v.carry, v.discard, v.proven);
      Primed(w.hash, d0, w.disk, w.at, len, taken, g, hasher, fed)
  {
    WriteIsSafe(d0, d0, d0.TempBytes()[..p.verdict.start.offset]);
  }

  lemma CreatePrimes(w: World, d0: Disk, d: Disk, v: Verdict, len: nat, taken: Bytes, hasher: Option<Bytes>,
                     fed: Option<Bytes>)
    requires Safe(d0, d) && v.start.StartFresh? && v.proven == [] && w.at == 0
    requires Positioned(v, taken, len) && FedPrefix(hasher, fed, v, taken)
    requires Temp !in d.names && Temp in w.disk.names && w.disk.names[Temp] !in d.data
    requires w.disk == WithTemp(d, w.disk.names[Temp])
    ensures Safe(d0, w.disk)
    ensures Primed(w.hash, d0, w.disk, w.at, len, taken, Opening(0, v.carry, v.discard, []), hasher, fed)
  {
    CreateIsSafe(d0, d, w.disk.names[Temp]);
    assert taken[..0] == [];
  }

  lemma NowStreaming(a: Watch, b: Watch, src: Metadata)
    requires Poised(a, src) && b.phase == Writing && b.isOpen && b.blame == a.blame && b.src == a.src
    requires b.missed == a.missed && b.leftover == a.leftover && b.written == a.written && b.sink == a.sink
    ensures Streaming(b, src, None, [])
  {
  }

  /** The start over a validated partial: its own lock check, the reopening, and the cut. */
  method OpenExisting(w: World, ghost d0: Disk, p: Planning, src: Metadata, reader: Reader, hasher: Option<Bytes>,
                      fed: Option<Bytes>)
    returns (g: Opening)
    requires w.Valid() && w.watch.phase == Owned && Poised(w.watch, src)
    requires w.script.checkpointed && p.Planning? && p.verdict.start.StartAt? && w.disk == d0
    requires Usable(w.hash, w.disk, p, reader.taken, src.len, hasher, fed)
    modifies w`trace, w`watch, w`disk, w`at
    ensures w.Valid() && Safe(d0, w.disk)
    ensures g.OpeningFailed? ==> w.watch.phase == Over && Reports(w.watch, g.error) && !w.watch.isOpen
    ensures g.Opening? ==> Streaming(w.watch, src, None, [])
    ensures g.Opening? ==> Primed(w.hash, d0, w.disk, w.at, src.len, reader.taken, g, hasher, fed)
    ensures w.calm ==> g.Opening?
    ensures g.Opening? ==> g.reused == p.verdict.start.offset && g.why == p.verdict.discard
  {
    assert !p.identity.None? && w.disk.SoleTemp();
    hide World.Valid, Lawful, Steady, Primed, Usable, Untouched, TargetView, Streaming, Safe;
    var offset := p.verdict.start.offset;
    var f := w.Guard();
    if f.Some? {
      return OpeningFailed(CopyError(AtCreate, f.value, None));
    }
    f := w.Reopen(p.identity.value);
    if f.Some? {
      return OpeningFailed(CopyError(AtCreate, f.value, None));
    }
    f := w.CutTo(offset);
    if f.Some? {
      WriteIsSafe(d0, d0, w.disk.TempBytes());
      return OpeningFailed(CopyError(AtCreate, f.value, None));
    }
    CutPrimes(w, d0, p, src.len, reader.taken, hasher, fed);
    NowStreaming(old(w.watch), w.watch, src);
    g := Opening(offset, p.verdict.carry, p.verdict.discard, p.verdict.proven);
  }

  /** The start from nothing: a checkpointing run sweeps first, under its own lock check. */
  method OpenFresh(w: World, ghost d0: Disk, v: Verdict, src: Metadata, reader: Reader, hasher: Option<Bytes>,
                   fed: Option<Bytes>)
    returns (g: Opening)
    requires w.Valid() && w.watch.phase == Owned && Poised(w.watch, src)
    requires Safe(d0, w.disk) && v.start.StartFresh?
    requires Positioned(v, reader.taken, src.len) && FedPrefix(hasher, fed, v, reader.taken)
    requires v.proven == []
    modifies w`trace, w`watch, w`disk, w`at
    ensures w.Valid() && Safe(d0, w.disk)
    ensures g.OpeningFailed? ==> w.watch.phase == Over && Reports(w.watch, g.error) && !w.watch.isOpen
    ensures g.Opening? ==> Streaming(w.watch, src, None, [])
    ensures g.Opening? ==> Primed(w.hash, d0, w.disk, w.at, src.len, reader.taken, g, hasher, fed)
    ensures w.calm && Sweepable(old(w.disk)) && (w.script.checkpointed || Temp !in old(w.disk).names) ==> g.Opening?
    ensures g.Opening? ==> g.reused == 0 && g.why == v.discard
  {
    hide World.Valid, Lawful, Steady, Primed, Positioned, FedPrefix, Untouched, TargetView, Streaming;
    if w.script.checkpointed {
      var f := w.Guard();
      if f.Some? {
        return OpeningFailed(CopyError(AtCreate, f.value, None));
      }
      ghost var d := w.disk;
      w.Sweep();
      SweepIsSafe(d0, d, w.disk);
    }
    ghost var d := w.disk;
    var f := w.Create();
    if f.Some? {
      return OpeningFailed(CopyError(AtCreate, f.value, None));
    }
    CreatePrimes(w, d0, d, v, src.len, reader.taken, hasher, fed);
    NowStreaming(old(w.watch), w.watch, src);
    g := Opening(0, v.carry, v.discard, []);
  }

  /** The heartbeat, the lock, the claim, and then the temporary: resumed where the verdict allows, else made anew. */
  method Acquire(w: World, ghost d0: Disk, hook: Hook, src: Metadata, reader: Reader, hasher: Option<Bytes>)
    returns (g: Opening, fed: Option<Bytes>)
    requires w.Valid() && w.watch.phase == Plan && Poised(w.watch, src)
    requires w.script.checkpointed == !hook.NoHook? && Safe(d0, w.disk) && (!hook.NoHook? ==> w.disk == d0)
    requires reader.Valid() && reader.taken == []
    modifies w`trace, w`watch, w`disk, w`at, reader
    ensures w.Valid() && Safe(d0, w.disk) && reader.Valid()
    ensures g.OpeningFailed? ==> w.watch.phase == Over && Reports(w.watch, g.error) && !w.watch.isOpen
    ensures g.Opening? ==> Streaming(w.watch, src, None, [])
    ensures g.Opening? ==> Primed(w.hash, d0, w.disk, w.at, src.len, reader.taken, g, hasher, fed)
    ensures w.calm && reader.calm && Sweepable(old(w.disk)) && (hook.NoHook? ==> Temp !in old(w.disk).names) ==>
      g.Opening?
    ensures hook.NoHook? && g.Opening? ==> g.reused == 0
    ensures w.calm && reader.calm && src == w.sourceMeta && reader.fixed == Some(w.source) && g.Opening? ==>
      (g.reused, g.why) == Resumption(w, hook, old(w.disk))
  {
    hide World.Valid, Lawful, Steady, Primed, Untouched, TargetView, Safe, FromDisk;
    fed := hasher;
    var f := w.Beat();
    if f.Some? {
      return OpeningFailed(CopyError(AtHeartbeat, f.value, None)), fed;
    }
    f := w.Guard();
    if f.Some? {
      return OpeningFailed(CopyError(AtCreate, f.value, None)), fed;
    }
    var e := w.Claim();
    if e.Some? {
      return OpeningFailed(e.value), fed;
    }
    var p := Planning(Afresh(None), None);
    if hook.Covers(src.len) {
      p, fed := PlanResume(w, hook, src, reader, hasher);
      if p.PlanFailed? {
        return OpeningFailed(CopyError(p.step, p.code, None)), fed;
      }
    } else {
      AfreshIsUsable(w.hash, w.disk, None, None, src.len, hasher);
    }
    if p.verdict.start.StartAt? {
      g := OpenExisting(w, d0, p, src, reader, hasher, fed);
    } else {
      g := OpenFresh(w, d0, p.verdict, src, reader, hasher, fed);
    }
  }

  // ------------------------------------------------------------------------------ step 4

  /** What ends the streaming early: the temporary is removed, or kept because the log failed. */
  datatype StreamFail = StreamDiscard(blame: Blame) | StreamKeep

  predicate Stopped(w: Watch, f: StreamFail) {
    w.isOpen && w.leftover.None? &&
    match f
    case StreamDiscard(b) => w.phase == Doomed && w.blame == Some(b)
    case StreamKeep => w.phase == Kept && w.blame == Some(Blame(AtCheckpoint, WalWriteFailed))
  }

  /** The first `reused + copied` bytes of the source are in the temporary and in the digest, once each and in order. */
  ghost predicate Copied(hash: Bytes -> Digest, faithful: bool, d0: Disk, d: Disk, at: nat, taken: Bytes, reused: nat,
                         copied: nat,
                         hasher: Option<Bytes>, fed: Option<Bytes>)
  {
    && Safe(d0, d) && OwnTemp(d0, d)
    && at == reused + copied == |taken|
    && fed == Fed(hasher, taken)
    && (faithful && Trusted(hash, reused) ==> d.TempBytes() == taken)
  }

  lemma WriteCopies(w: World, d0: Disk, d: Disk, taken: Bytes, b: Bytes, reused: nat, copied: nat,
                    hasher: Option<Bytes>, fed: Option<Bytes>)
    requires Safe(d0, d) && OwnTemp(d0, d) && reused + copied == |taken| && fed == Fed(hasher, taken)
    requires w.faithful && Trusted(w.hash, reused) ==> d.TempBytes() == taken
    requires Temp in w.disk.names && w.disk.WellFormed() && w.disk == WithTempBytes(d, w.disk.TempBytes())
    requires w.at == |taken| + |b|
    requires w.faithful && |taken| <= |d.TempBytes()| ==> w.disk.TempBytes() == Spliced(d.TempBytes(), |taken|, b)
    ensures Copied(w.hash, w.faithful, d0, w.disk, w.at, taken + b, reused, copied + |b|, hasher, Fed(fed, b))
  {
    WriteIsSafe(d0, d, w.disk.TempBytes());
    FedStep(hasher, taken, b);
    if w.faithful && Trusted(w.hash, reused) {
      assert taken[..|taken|] == taken;
    }
  }

  /** The digest, then `write_all`, then the count. */
  method WriteChunk(w: World, ghost d0: Disk, src: Metadata, b: Bytes, ghost taken: Bytes, ghost reused: nat,
                    copied: nat,
                    ghost hasher: Option<Bytes>, fed: Option<Bytes>)
    returns (fail: Option<StreamFail>, copied': nat, fed': Option<Bytes>)
    requires w.Valid() && w.watch.phase == Writing && Going(w.watch, src)
    requires Copied(w.hash, w.faithful, d0, w.disk, w.at, taken, reused, copied, hasher, fed)
    modifies w`trace, w`watch, w`disk, w`at
    ensures w.Valid() && Safe(d0, w.disk) && w.watch.sink == old(w.watch).sink
    ensures fail.Some? ==> Stopped(w.watch, fail.value)
    ensures fail.None? ==> w.watch == To(old(w.watch), Writing).(written := old(w.watch).written + b)
    ensures fail.None? ==>
      Copied(w.hash, w.faithful, d0, w.disk, w.at, taken + b, reused, copied', hasher, fed') && copied' == copied + |b|
    ensures w.calm ==> fail.None?
  {
    hide World.Valid, Lawful, Steady;
    fed' := Fed(fed, b);
    copied' := copied;
    ghost var d := w.disk;
    var f := w.WriteAll(b);
    if f.Some? {
      WriteIsSafe(d0, d, w.disk.TempBytes());
      fail := Some(StreamDiscard(Blame(AtStream, CopyCode(f.value))));
      return;
    }
    WriteCopies(w, d0, d, taken, b, reused, copied, hasher, fed);
    fail := None;
    copied' := copied + |b|;
  }

  /** `sink_fail`: what a failed call on the checkpoint sink does to the file. */
  method SinkAnswer(w: World, src: Metadata, op: SinkOp) returns (fail: Option<StreamFail>)
    requires w.Valid() && w.watch.phase == Writing && Going(w.watch, src) && SinkTakes(w.watch, op)
    modifies w`trace, w`watch
    ensures w.Valid()
    ensures fail.Some? ==> Stopped(w.watch, fail.value) && w.watch.sink == old(w.watch).sink
    ensures fail.None? ==>
      w.watch == To(old(w.watch), Writing).(sink := SinkAfter(old(w.watch).sink, SinkCall(op, SinkOk)))
    ensures w.calm ==> fail.None?
  {
    hide World.Valid, Lawful, Steady, SinkAfter;
    var r := w.Sink(op);
    match r
    case SinkOk => fail := None;
    case SinkHeartbeat(c) => fail := Some(StreamDiscard(Blame(AtHeartbeat, c)));
    case SinkWal => fail := Some(StreamKeep);
    case SinkData => fail := Some(StreamDiscard(Blame(AtDurability, StrictDurabilityUnavailable)));
  }

  /**
   The opening of the sink. The two preconditions are assertions of the sink itself: `begin` aborts the process on a
   resume offset that is neither a chunk boundary nor the source's length, and `record_proven` wants one digest a chunk.
   */
  method BeginSink(w: World, src: Metadata, strictLog: bool, start: LogStart)
    returns (fail: Option<StreamFail>, open: bool)
    requires w.Valid() && Streaming(w.watch, src, None, [])
    requires start.from % CHUNK_SIZE == 0 || start.from == src.len
    requires start.proven != [] ==> |start.proven| == DivCeil(start.from, CHUNK_SIZE)
    modifies w`trace, w`watch
    ensures w.Valid()
    ensures fail.Some? ==> Stopped(w.watch, fail.value) && (w.watch.sink.SinkOpen? <==> open)
    ensures fail.None? ==> open && Streaming(w.watch, src, Some(start), [])
    ensures w.calm ==> fail.None?
  {
    hide World.Valid, Lawful, Steady;
    open := false;
    if strictLog {
      var duplicated := w.Duplicate();
      if !duplicated {
        return Some(StreamDiscard(Blame(AtDurability, StrictDurabilityUnavailable))), false;
      }
    }
    fail := SinkAnswer(w, src, BeginLog(start.from));
    if fail.Some? {
      return;
    }
    open := true;
    if start.proven != [] {
      fail := SinkAnswer(w, src, ProveLog(start.proven));
    }
  }

  /** What is written is handed to the log too, where there is one. */
  method HandOverTo(w: World, src: Metadata, log: Option<LogStart>, b: Bytes, ghost written: Bytes)
    returns (fail: Option<StreamFail>)
    requires w.Valid() && w.watch.phase == Writing && Going(w.watch, src) && w.watch.written == written + b
    requires w.watch.sink == if log.Some? then SinkOpen(log.value.from, log.value.proven, written) else NoSink
    modifies w`trace, w`watch
    ensures w.Valid()
    ensures fail.Some? ==> Stopped(w.watch, fail.value) && (w.watch.sink.SinkOpen? <==> log.Some?)
    ensures fail.None? ==> Streaming(w.watch, src, log, written + b)
    ensures w.calm ==> fail.None?
  {
    hide World.Valid, Lawful, Steady;
    fail := None;
    if log.Some? {
      fail := SinkAnswer(w, src, HandOver(b));
    }
  }

  /** One chunk of the loop: write, hand to the sink, beat. */
  method OneChunk(w: World, ghost d0: Disk, src: Metadata, log: Option<LogStart>, b: Bytes, ghost taken: Bytes,
                  ghost reused: nat, copied: nat,
                  ghost hasher: Option<Bytes>, fed: Option<Bytes>)
    returns (fail: Option<StreamFail>, copied': nat, fed': Option<Bytes>)
    requires w.Valid() && reused <= |taken| && Streaming(w.watch, src, log, taken[reused..])
    requires Copied(w.hash, w.faithful, d0, w.disk, w.at, taken, reused, copied, hasher, fed)
    modifies w`trace, w`watch, w`disk, w`at
    ensures w.Valid() && Safe(d0, w.disk)
    ensures fail.Some? ==> Stopped(w.watch, fail.value) && (w.watch.sink.SinkOpen? <==> log.Some?)
    ensures fail.None? ==> Streaming(w.watch, src, log, (taken + b)[reused..])
    ensures fail.None? ==>
      Copied(w.hash, w.faithful, d0, w.disk, w.at, taken + b, reused, copied', hasher, fed') && copied' == copied + |b|
    ensures w.calm ==> fail.None?
  {
    hide World.Valid, Lawful, Steady, Copied, Untouched, TargetView, Safe;
    assert (taken + b)[reused..] == taken[reused..] + b;
    fail, copied', fed' := WriteChunk(w, d0, src, b, taken, reused, copied, hasher, fed);
    if fail.Some? {
      return;
    }
    fail := HandOverTo(w, src, log, b, taken[reused..]);
    if fail.Some? {
      return;
    }
    var f := w.Beat();
    if f.Some? {
      fail := Some(StreamDiscard(Blame(AtHeartbeat, f.value)));
    }
  }

  /** The streaming loop, from where the reader stands to the end of the source. */
  method CopyLoop(w: World, ghost d0: Disk, src: Metadata, log: Option<LogStart>, reader: Reader, ghost reused: nat,
                  copied: nat,
                  ghost hasher: Option<Bytes>, fed: Option<Bytes>)
    returns (fail: Option<StreamFail>, copied': nat, fed': Option<Bytes>)
    requires w.Valid() && reader.Valid()
    requires reused <= |reader.taken| && Streaming(w.watch, src, log, reader.taken[reused..])
    requires Copied(w.hash, w.faithful, d0, w.disk, w.at, reader.taken, reused, copied, hasher, fed)
    modifies w`trace, w`watch, w`disk, w`at, reader
    ensures w.Valid() && Safe(d0, w.disk) && reader.Valid()
    ensures fail.Some? ==> Stopped(w.watch, fail.value) && (w.watch.sink.SinkOpen? <==> log.Some?)
    ensures fail.None? ==> reader.ended && reused <= |reader.taken|
    ensures fail.None? ==> Streaming(w.watch, src, log, reader.taken[reused..])
    ensures fail.None? ==> Copied(w.hash, w.faithful, d0, w.disk, w.at, reader.taken, reused, copied', hasher, fed')
    ensures w.calm && reader.calm ==> fail.None?
  {
    hide World.Valid, Lawful, Steady, Copied, Untouched, TargetView, Safe, Streaming;
    CopiedIsSafe(w, d0, reader.taken, reused, copied, hasher, fed);
    copied', fed', fail := copied, fed, None;
    var buf := CopyBufferLen(src.len);
    while true
      invariant w.Valid() && reader.Valid() && Safe(d0, w.disk)
      invariant reused <= |reader.taken| && Streaming(w.watch, src, log, reader.taken[reused..])
      invariant Copied(w.hash, w.faithful, d0, w.disk, w.at, reader.taken, reused, copied', hasher, fed')
      invariant buf > 0 && fail.None?
      decreases reader.fuel
    {
      ghost var taken := reader.taken;
      var r := reader.Read(buf);
      if r.Eof? {
        break;
      }
      if !r.Data? {
        var c := CopyCode(if r.Broken? then r.code else IoError);
        StreamingIsWriting(w.watch, src, log, taken[reused..]);
        w.ReadFault(reader);
        fail := Some(StreamDiscard(Blame(AtStream, c)));
        return;
      }
      fail, copied', fed' := OneChunk(w, d0, src, log, r.bytes, taken, reused, copied', hasher, fed');
      if fail.Some? {
        return;
      }
    }
  }

  lemma StreamingIsWriting(w: Watch, src: Metadata, log: Option<LogStart>, written: Bytes)
    requires Streaming(w, src, log, written)
    ensures w.phase == Writing && Going(w, src) && (w.sink.SinkOpen? <==> log.Some?)
  {
  }

  lemma CopiedIsSafe(w: World, d0: Disk, taken: Bytes, reused: nat, copied: nat, hasher: Option<Bytes>,
                     fed: Option<Bytes>)
    requires Copied(w.hash, w.faithful, d0, w.disk, w.at, taken, reused, copied, hasher, fed)
    ensures Safe(d0, w.disk) && reused + copied == |taken|
  {
  }

  lemma PrimedIsLong(w: World, d0: Disk, len: nat, taken: Bytes, g: Opening, hasher: Option<Bytes>, fed: Option<Bytes>)
    requires g.Opening? && Primed(w.hash, d0, w.disk, w.at, len, taken, g, hasher, fed)
    ensures g.reused <= |taken|
  {
  }

  lemma PrimedIsCopied(w: World, d0: Disk, len: nat, taken: Bytes, g: Opening, hasher: Option<Bytes>,
                       fed: Option<Bytes>)
    requires g.Opening? && Primed(w.hash, d0, w.disk, w.at, len, taken, g, hasher, fed)
    ensures |taken| >= g.reused && (g.reused % CHUNK_SIZE == 0 || g.reused == len)
    ensures g.proven != [] ==> |g.proven| == DivCeil(g.reused, CHUNK_SIZE)
    ensures Copied(w.hash, w.faithful, d0, w.disk, w.at, taken[..g.reused], g.reused, 0, hasher, fed)
    ensures taken[..g.reused] + g.carry == taken
  {
  }

  /** The bytes the decider had read already are written first: the reader sits past them. */
  method WriteCarry(w: World, ghost d0: Disk, src: Metadata, log: Option<LogStart>, carry: Bytes, ghost base: Bytes,
                    ghost hasher: Option<Bytes>, fed: Option<Bytes>)
    returns (fail: Option<StreamFail>, copied: nat, fed': Option<Bytes>)
    requires w.Valid() && Streaming(w.watch, src, log, [])
    requires Copied(w.hash, w.faithful, d0, w.disk, w.at, base, |base|, 0, hasher, fed)
    modifies w`trace, w`watch, w`disk, w`at
    ensures w.Valid() && Safe(d0, w.disk)
    ensures fail.Some? ==> Stopped(w.watch, fail.value) && (w.watch.sink.SinkOpen? <==> log.Some?)
    ensures fail.None? ==> Streaming(w.watch, src, log, carry)
    ensures fail.None? ==> Copied(w.hash, w.faithful, d0, w.disk, w.at, base + carry, |base|, copied, hasher, fed')
    ensures w.calm ==> fail.None?
  {
    hide World.Valid, Lawful, Steady, Copied, Untouched, TargetView, Safe, Stopped, Disk.WellFormed;
    CopiedIsSafe(w, d0, base, |base|, 0, hasher, fed);
    copied, fed', fail := 0, fed, None;
    if carry == [] {
      assert base + carry == base;
      return;
    }
    assert [] + carry == carry;
    fail, copied, fed' := WriteChunk(w, d0, src, carry, base, |base|, 0, hasher, fed);
    if fail.None? {
      fail := HandOverTo(w, src, log, carry, []);
    }
  }

  /** The stream is written out, and the log of it, where there is one, closed over the same bytes. */
  predicate StreamDone(w: Watch, src: Metadata, log: Option<LogStart>, written: Bytes) {
    && Going(w, src) && w.written == written
    && w.sink == if log.Some? then SinkClosed(log.value.from, log.value.proven, written) else NoSink
  }

  lemma MayDrain(w: Watch, src: Metadata, log: Option<LogStart>, written: Bytes)
    requires StreamDone(w, src, log, written)
    ensures !w.sink.SinkOpen? && (w.sink.SinkClosed? ==> w.sink.bytes == w.written)
    ensures StreamDone(To(w, Drained), src, log, written)
  {
  }

  /** The carry, the loop, and the closing of the sink. */
  method StreamBody(w: World, ghost d0: Disk, src: Metadata, log: Option<LogStart>, reader: Reader, carry: Bytes,
                    ghost base: Bytes, ghost hasher: Option<Bytes>, fed: Option<Bytes>)
    returns (fail: Option<StreamFail>, copied: nat, fed': Option<Bytes>)
    requires w.Valid() && reader.Valid() && Streaming(w.watch, src, log, [])
    requires reader.taken == base + carry
    requires Copied(w.hash, w.faithful, d0, w.disk, w.at, base, |base|, 0, hasher, fed)
    modifies w`trace, w`watch, w`disk, w`at, reader
    ensures w.Valid() && Safe(d0, w.disk) && reader.Valid()
    ensures fail.Some? ==> Stopped(w.watch, fail.value) && (w.watch.sink.SinkOpen? <==> log.Some?)
    ensures fail.None? ==> w.watch.phase == Writing && reader.ended && |base| <= |reader.taken|
    ensures fail.None? ==> StreamDone(w.watch, src, log, reader.taken[|base|..])
    ensures fail.None? ==> Copied(w.hash, w.faithful, d0, w.disk, w.at, reader.taken, |base|, copied, hasher, fed')
    ensures w.calm && reader.calm ==> fail.None?
  {
    hide World.Valid, Lawful, Steady, Copied, Untouched, TargetView, Safe;
    assert reader.taken[|base|..] == carry;
    fail, copied, fed' := WriteCarry(w, d0, src, log, carry, base, hasher, fed);
    if fail.None? {
      fail, copied, fed' := CopyLoop(w, d0, src, log, reader, |base|, copied, hasher, fed');
      if fail.None? && log.Some? {
        fail := SinkAnswer(w, src, CloseLog);
      }
    }
  }

  /** Whether this file is logged while it is streamed, and from where. */
  function LogOf(hook: Hook, len: nat, g: Opening): Option<LogStart>
    requires g.Opening?
  {
    if hook.Logged? && len >= hook.minLen then Some(LogStart(g.reused, g.proven)) else None
  }

  /**
   Step 4: the sink is opened, the source streamed, and on any failure the sink is aborted. Everything past the kept
   prefix was written, once and in order, and the log has the same bytes.
   */
  method StreamAll(w: World, ghost d0: Disk, hook: Hook, src: Metadata, reader: Reader, g: Opening,
                   ghost hasher: Option<Bytes>, fed: Option<Bytes>)
    returns (fail: Option<StreamFail>, copied: nat, fed': Option<Bytes>)
    requires w.Valid() && reader.Valid() && g.Opening? && Streaming(w.watch, src, None, [])
    requires Primed(w.hash, d0, w.disk, w.at, src.len, reader.taken, g, hasher, fed)
    modifies w`trace, w`watch, w`disk, w`at, reader
    ensures w.Valid() && Safe(d0, w.disk) && reader.Valid()
    ensures fail.Some? ==> Stopped(w.watch, fail.value) && !w.watch.sink.SinkOpen?
    ensures fail.None? ==> w.watch.phase == Drained && reader.ended && g.reused <= |reader.taken|
    ensures fail.None? ==> StreamDone(w.watch, src, LogOf(hook, src.len, g), reader.taken[g.reused..])
    ensures fail.None? ==> Copied(w.hash, w.faithful, d0, w.disk, w.at, reader.taken, g.reused, copied, hasher, fed')
    ensures w.calm && reader.calm ==> fail.None?
  {
    hide World.Valid, Lawful, Steady, Copied, Primed, Untouched, TargetView, Safe, Streaming, StreamDone;
    PrimedIsLong(w, d0, src.len, reader.taken, g, hasher, fed);
    ghost var base := reader.taken[..g.reused];
    PrimedIsCopied(w, d0, src.len, reader.taken, g, hasher, fed);
    CopiedIsSafe(w, d0, base, g.reused, 0, hasher, fed);
    var open, log := false, None;
    copied, fed', fail := 0, fed, None;
    if hook.Logged? && hook.Covers(src.len) {
      log := Some(LogStart(g.reused, g.proven));
      fail, open := BeginSink(w, src, hook.strictLog, log.value);
    }
    if fail.None? {
      fail, copied, fed' := StreamBody(w, d0, src, log, reader, g.carry, base, hasher, fed);
    }
    if fail.None? {
      MayDrain(w.watch, src, log, reader.taken[g.reused..]);
      w.Drain();
    } else if open {
      w.AbortSink();
    }
  }

  // ------------------------------------------------------------------------------ steps 5b, 6, 6b, 7

  /** What came first after `before`. */
  ghost predicate Begins(before: seq<Call>, t: seq<Call>, e: Event) {
    Longer(before, t) && t[|before|].event == e
  }

  lemma StillFirst(before: seq<Call>, t: seq<Call>, longer: seq<Call>, e: Event)
    requires Adds(before, t, e)
    ensures Begins(before, t, e)
    ensures Longer(t, longer) ==> Begins(before, longer, e)
  {
    if Longer(t, longer) {
      assert before == t[..|before|] == longer[..|t|][..|before|] == longer[..|before|];
      assert longer[|before|] == longer[..|t|][|before|];
    }
  }

  /**
   `recheck_source`: the source's length and time must still be the planned ones; otherwise the temporary goes. `now`
   is what the look, its first call, saw: a failed look is reported as it failed, any difference as a changed source.
   */
  method RecheckSource(w: World, ghost d0: Disk, src: Metadata, ghost missed: seq<MetadataItem>)
    returns (e: Option<CopyError>, ghost now: Stat)
    requires w.Valid() && Safe(d0, w.disk) && Underway(w.watch, src, missed)
    requires (w.watch.phase == Drained && w.script.ReadsBack()) || MayConfirm(w.script, w.watch.phase)
    modifies w`trace, w`watch, w`disk
    ensures Begins(old(w.trace), w.trace, Rechecked(now.Seen(), now.Fault()))
    ensures e.None? <==> now.StatOk? && now.meta.len == src.len && now.meta.modified == src.modified
    ensures e.Some? ==> EndsInError(w, d0, e.value) && e.value.step == AtRecheck
    ensures e.Some? ==> e.value.code == if now.StatFailed? then now.code else SourceChanged
    ensures e.None? ==> w.Valid() && w.disk == old(w.disk)
    ensures e.None? ==>
      w.watch == To(old(w.watch), if MayConfirm(w.script, old(w.watch).phase) then Confirmed else Prechecked)
    ensures w.calm && src == w.sourceMeta ==> e.None?
  {
    hide World.Valid, Lawful, Steady, Untouched, TargetView, Safe, EndsInError, Adds, Longer, Begins;
    assert !w.watch.sink.SinkOpen?;
    var seen := w.Recheck(src);
    now := seen;
    ghost var t := w.trace;
    StillFirst(old(w.trace), t, [], Rechecked(now.Seen(), now.Fault()));
    if seen.StatOk? && Unchanged(src, seen.meta) {
      return None, now;
    }
    var code := if seen.StatFailed? then seen.code else SourceChanged;
    var x := Discarded(w, d0, Blame(AtRecheck, code));
    StillFirst(old(w.trace), t, w.trace, Rechecked(now.Seen(), now.Fault()));
    e := Some(x);
  }

  /** Nothing was written, or handed to the log, between the two. */
  predicate SameStream(a: Watch, b: Watch) {
    a.written == b.written && a.sink == b.sink
  }

  datatype Hashed = HashOk(digest: Digest) | HashStopped(blame: Blame)

  /** `hash_stream`: to the end of the stream in buffer-sized reads, beating once a chunk. */
  method HashStream(w: World, src: Metadata, reader: Reader) returns (h: Hashed)
    requires w.Valid() && (w.watch.phase == Prechecked || w.watch.phase == MatchedTemp) && Going(w.watch, src)
    requires reader.Valid() && reader.taken == []
    modifies w`trace, w`watch, reader
    ensures w.Valid() && reader.Valid() && w.watch.isOpen
    ensures h.HashOk? ==> h.digest == w.hash(reader.taken) && reader.ended
    ensures h.HashOk? ==> w.watch.phase == old(w.watch).phase && Going(w.watch, src)
    ensures h.HashOk? ==> w.watch.(cleared := false) == old(w.watch).(cleared := false)
    ensures h.HashStopped? ==> w.watch.phase == Doomed && w.watch.blame == Some(h.blame)
    ensures w.watch.leftover.None? && !w.watch.sink.SinkOpen?
    ensures w.calm && reader.calm ==> h.HashOk?
  {
    hide World.Valid, Lawful, Steady;
    var fed: Bytes := [];
    var buf := CopyBufferLen(src.len);
    while true
      invariant w.Valid() && reader.Valid() && w.watch.phase == old(w.watch).phase && Going(w.watch, src)
      invariant w.watch.(cleared := false) == old(w.watch).(cleared := false)
      invariant fed == reader.taken && buf > 0
      decreases reader.fuel
    {
      var r := reader.Read(buf);
      match r
      case Eof => break;
      case Interrupted =>
      case Broken(c) =>
        w.ReadFault(reader);
        return HashStopped(Blame(AtVerify, CopyCode(c)));
      case Data(b) =>
        fed := fed + b;
        var f := w.Beat();
        if f.Some? {
          return HashStopped(Blame(AtHeartbeat, f.value));
        }
    }
    h := HashOk(w.hash(fed));
  }

  /** One comparison of the verification: the re-read must hash to `want`, or the temporary goes. */
  method CompareWith(w: World, ghost d0: Disk, src: Metadata, reader: Reader,
                     want: Digest) returns (e: Option<CopyError>)
    requires w.Valid() && Safe(d0, w.disk) && Going(w.watch, src)
    requires w.watch.phase == Prechecked || w.watch.phase == MatchedTemp
    requires reader.Valid() && reader.taken == []
    modifies w`trace, w`watch, w`disk, reader
    ensures e.Some? ==> EndsInError(w, d0, e.value)
    ensures e.None? ==> w.Valid() && w.disk == old(w.disk) && Going(w.watch, src) && reader.Valid()
    ensures e.None? ==> SameStream(old(w.watch), w.watch)
    ensures e.None? ==> w.hash(reader.taken) == want && reader.ended
    ensures e.None? ==>
      w.watch.phase == if old(w.watch).phase == Prechecked && w.script.verify == Full then MatchedTemp else Matched
    ensures w.calm && reader.calm && reader.fixed.Some? && w.hash(reader.fixed.value) == want ==> e.None?
  {
    hide World.Valid, Lawful, Steady, Untouched, TargetView, EndsInError, Safe;
    var h := HashStream(w, src, reader);
    if h.HashStopped? {
      var x := Discarded(w, d0, h.blame);
      return Some(x);
    }
    w.Compare(h.digest == want);
    if h.digest != want {
      var x := Discarded(w, d0, Blame(AtVerify, VerifyMismatch));
      return Some(x);
    }
    e := None;
  }

  /**
   Step 5b. The temporary, and under `full` the source once more, must hash like the stream that was copied.
   `second` is what the second read of the source returned.
   */
  method Verify(w: World, ghost d0: Disk, src: Metadata, hasher: Option<Bytes>)
    returns (e: Option<CopyError>, verified: bool, ghost second: Bytes)
    requires w.Valid() && Safe(d0, w.disk) && Going(w.watch, src) && w.watch.phase == Drained && Temp in w.disk.names
    requires hasher.Some? <==> w.script.verify != VerifyNone
    modifies w`trace, w`watch, w`disk
    ensures e.Some? ==> EndsInError(w, d0, e.value)
    ensures e.None? ==> w.Valid() && w.disk == old(w.disk) && Going(w.watch, src) && MayTimes(w.script, w.watch.phase)
    ensures e.None? ==> SameStream(old(w.watch), w.watch)
    ensures e.None? ==> verified == w.script.ReadsBack()
    ensures e.None? && verified ==> w.hash(w.disk.TempBytes()) == w.hash(hasher.value)
    ensures e.None? && w.script.verify == Full ==>
      w.hash(second) == w.hash(hasher.value) && (w.stable ==> second == w.source)
    ensures var same := w.script.ReadsBack() ==> w.hash(old(w.disk).TempBytes()) == w.hash(hasher.value);
      var whole := w.script.verify == Full ==> hasher.value == w.source;
      w.calm && src == w.sourceMeta && same && whole ==> e.None?
  {
    hide World.Valid, Lawful, Steady, Untouched, TargetView, EndsInError, Safe;
    second, verified, e := [], false, None;
    if !w.script.ReadsBack() {
      return;
    }
    var want := w.hash(hasher.value);
    ghost var now;
    e, now := RecheckSource(w, d0, src, []);
    if e.Some? {
      return;
    }
    var reader, code := w.OpenForVerify();
    if reader == null {
      var x := Discarded(w, d0, Blame(AtVerify, code));
      return Some(x), false, [];
    }
    e := CompareWith(w, d0, src, reader, want);
    if e.Some? {
      return;
    }
    if w.script.verify == Full {
      var again;
      again, code := w.OpenSource();
      if again == null {
        var x := Discarded(w, d0, Blame(AtVerify, code));
        return Some(x), false, [];
      }
      e := CompareWith(w, d0, src, again, want);
      if e.Some? {
        return;
      }
      second := again.taken;
    }
    verified := true;
  }

  /** Step 6: a Strict item that cannot be applied fails the copy, a Default one is only reported. */
  method ApplyTimes(w: World, ghost d0: Disk, src: Metadata) returns (e: Option<CopyError>, failures: seq<MetadataItem>)
    requires w.Valid() && Safe(d0, w.disk) && Underway(w.watch, src, []) && MayTimes(w.script, w.watch.phase)
    modifies w`trace, w`watch, w`disk
    ensures e.Some? ==> EndsInError(w, d0, e.value)
    ensures e.None? ==>
      w.Valid() && w.disk == old(w.disk) && Underway(w.watch, src, failures) && MayPerms(w.script, w.watch.phase)
    ensures e.None? ==> SameStream(old(w.watch), w.watch)
    ensures w.calm ==> e.None? && failures == []
  {
    hide World.Valid, Lawful, Steady, Untouched, TargetView, EndsInError, Safe;
    e, failures := None, [];
    if w.script.times != PreserveOff {
      var f := w.SetTimes(src.modified);
      if f.Some? {
        if w.script.times == PreserveStrict {
          var x := Discarded(w, d0, Blame(AtMetadata, MetadataApplyFailed));
          return Some(x), [];
        }
        failures := [Times];
      }
    }
  }

  method ApplyPermissions(w: World, ghost d0: Disk, src: Metadata, missed: seq<MetadataItem>)
    returns (e: Option<CopyError>, failures: seq<MetadataItem>)
    requires w.Valid() && Safe(d0, w.disk) && Underway(w.watch, src, missed) && MayPerms(w.script, w.watch.phase)
    modifies w`trace, w`watch, w`disk
    ensures e.Some? ==> EndsInError(w, d0, e.value)
    ensures e.None? ==>
      w.Valid() && w.disk == old(w.disk) && Underway(w.watch, src, failures) && MaySync(w.script, w.watch.phase)
    ensures e.None? ==> SameStream(old(w.watch), w.watch)
    ensures w.calm ==> e.None? && failures == missed
  {
    hide World.Valid, Lawful, Steady, Untouched, TargetView, EndsInError, Safe;
    e, failures := None, missed;
    if w.script.perms != PreserveOff {
      var f := w.SetPermissions(src.permissions);
      if f.Some? {
        if w.script.perms == PreserveStrict {
          var x := Discarded(w, d0, Blame(AtMetadata, MetadataApplyFailed));
          return Some(x), [];
        }
        failures := failures + [Permissions];
      }
    }
  }

  lemma AfterTheStream(sc: Script, p: Phase)
    requires MaySync(sc, p)
    ensures p != Writing
  {
  }

  /** Steps 6, 6b and 7: the metadata, the sync of a Strict file staged inline, and the last look at the source. */
  method Finish(w: World, ghost d0: Disk, src: Metadata) returns (e: Option<CopyError>, failures: seq<MetadataItem>)
    requires w.Valid() && Safe(d0, w.disk) && Going(w.watch, src) && MayTimes(w.script, w.watch.phase)
    modifies w`trace, w`watch, w`disk
    ensures e.Some? ==> EndsInError(w, d0, e.value)
    ensures e.None? ==>
      w.Valid() && w.disk == old(w.disk) && Underway(w.watch, src, failures) && w.watch.phase == Confirmed
    ensures e.None? ==> SameStream(old(w.watch), w.watch)
    ensures w.calm && src == w.sourceMeta ==> e.None? && failures == []
  {
    hide World.Valid, Lawful, Steady, Untouched, TargetView, Safe, MayTimes, MayPerms;
    e, failures := ApplyTimes(w, d0, src);
    if e.Some? {
      return;
    }
    e, failures := ApplyPermissions(w, d0, src, failures);
    if e.Some? {
      return;
    }
    AfterTheStream(w.script, w.watch.phase);
    if w.script.syncInline {
      var f := w.SyncAll();
      if f.Some? {
        var x := Discarded(w, d0, Blame(AtDurability, StrictDurabilityUnavailable));
        return Some(x), [];
      }
    }
    ghost var now;
    e, now := RecheckSource(w, d0, src, failures);
  }

  // ------------------------------------------------------------------------------ the whole of `stage_file`

  datatype Staged = Staged(
    identity: FileIdentity, bytesCopied: nat, failures: seq<MetadataItem>, degraded: Option<FileIdentity>,
    reused: nat, why: Option<Discard>, verified: bool)

  datatype StageResult =
    | StageSkipped(degraded: Option<FileIdentity>)
    | IsStaged(staged: Staged)
    | StageFailed(error: CopyError)

  /**
   What the temporary of a staged file holds, when `stream` is everything that was read from the source: that
   stream, if the device stores what it is given and the kept prefix can be trusted; and in any case bytes that
   hash like it, if the copy was verified.
   */
  ghost predicate Complete(hash: Bytes -> Digest, faithful: bool, d: Disk, st: Staged, stream: Bytes)
    requires d.WellFormed() && Temp in d.names
  {
    && st.reused + st.bytesCopied == |stream|
    && (faithful && Trusted(hash, st.reused) ==> d.TempBytes() == stream)
    && (st.verified ==> hash(d.TempBytes()) == hash(stream))
  }

  /** A run that fails reports its first failure, leaves the target alone, and accounts for a temporary it opened. */
  ghost predicate FailsCleanly(w: World, d0: Disk, e: CopyError)
    reads w
  {
    && w.Valid() && Safe(d0, w.disk) && Reports(w.watch, e) && Closed(w.watch.phase)
    && (w.watch.isOpen ==> Accounted(w.watch, w.disk, e))
  }

  /** Step 4 with its clearing up: a failure removes the temporary, unless the checkpoint log is what failed. */
  method StreamOrDiscard(w: World, ghost d0: Disk, hook: Hook, src: Metadata, reader: Reader, g: Opening,
                         ghost hasher: Option<Bytes>, fed: Option<Bytes>)
    returns (e: Option<CopyError>, copied: nat, fed': Option<Bytes>)
    requires w.Valid() && reader.Valid() && g.Opening? && Streaming(w.watch, src, None, [])
    requires Primed(w.hash, d0, w.disk, w.at, src.len, reader.taken, g, hasher, fed)
    requires (hasher == None || hasher == Some([]))
    modifies w`trace, w`watch, w`disk, w`at, reader
    ensures reader.Valid()
    ensures e.Some? ==> EndsInError(w, d0, e.value)
    ensures e.None? ==> w.Valid() && w.watch.phase == Drained && reader.ended
    ensures e.None? ==> Safe(d0, w.disk) && OwnTemp(d0, w.disk) && g.reused + copied == |reader.taken|
    ensures e.None? ==> StreamDone(w.watch, src, LogOf(hook, src.len, g), reader.taken[g.reused..])
    ensures e.None? ==> fed' == if hasher.None? then None else Some(reader.taken)
    ensures e.None? && w.faithful && Trusted(w.hash, g.reused) ==> w.disk.TempBytes() == reader.taken
    ensures w.calm && reader.calm ==> e.None?
  {
    hide World.Valid, Lawful, Steady, Primed, Untouched, TargetView, Copied, Safe;
    var fail;
    fail, copied, fed' := StreamAll(w, d0, hook, src, reader, g, hasher, fed);
    if fail.None? {
      StreamIsWhole(w, d0, reader.taken, g.reused, copied, hasher, fed');
      return None, copied, fed';
    }
    match fail.value {
      case StreamKeep =>
        e := Some(CopyError(AtCheckpoint, WalWriteFailed, None));
      case StreamDiscard(b) =>
        var x := Discarded(w, d0, b);
        e := Some(x);
    }
  }

  /** What was written past the kept prefix, and that the log, for a file that has one, was closed over just that. */
  predicate Journaled(w: Watch, hook: Hook, len: nat, reused: nat, written: Bytes) {
    && w.written == written
    && (if hook.Logged? && len >= hook.minLen
        then w.sink.SinkClosed? && w.sink.from == reused && w.sink.bytes == written
        else w.sink.NoSink?)
  }

  lemma Drains(w: Watch, hook: Hook, src: Metadata, g: Opening, written: Bytes)
    requires g.Opening? && StreamDone(w, src, LogOf(hook, src.len, g), written)
    ensures Going(w, src) && Journaled(w, hook, src.len, g.reused, written)
  {
  }

  lemma StillJournaled(a: Watch, b: Watch, hook: Hook, len: nat, reused: nat, written: Bytes)
    requires Journaled(a, hook, len, reused, written) && SameStream(a, b)
    ensures Journaled(b, hook, len, reused, written)
  {
  }

  /** What is said of the temporary's identity is true of it; in a calm world it is what the world answers. */
  predicate IdentifiesTemp(w: World, i: FileIdentity)
    reads w
  {
    && Temp in w.disk.names && (i.Strong? ==> i.id == w.disk.names[Temp])
    && (w.calm ==> i == if w.tempMeta.identity.Strong? then Strong(w.disk.names[Temp]) else w.tempMeta.identity)
  }

  /** Steps 4 to 7, over an open temporary. */
  method Fill(w: World, ghost d0: Disk, hook: Hook, src: Metadata, reader: Reader, g: Opening, fed: Option<Bytes>,
              degraded: Option<FileIdentity>)
    returns (r: StageResult, ghost second: Bytes)
    requires w.Valid() && reader.Valid() && g.Opening? && Streaming(w.watch, src, None, [])
    requires var hasher := if w.script.verify == VerifyNone then None else Some([]);
      Primed(w.hash, d0, w.disk, w.at, src.len, reader.taken, g, hasher, fed)
    modifies w`trace, w`watch, w`disk, w`at, reader
    ensures reader.Valid() && !r.StageSkipped?
    ensures r.StageFailed? ==> EndsInError(w, d0, r.error)
    ensures r.IsStaged? ==> w.Valid() && Safe(d0, w.disk) && OwnTemp(d0, w.disk) && reader.ended
    ensures r.IsStaged? ==> Underway(w.watch, src, r.staged.failures) && w.watch.phase == Confirmed
    ensures r.IsStaged? ==> Complete(w.hash, w.faithful, w.disk, r.staged, reader.taken)
    ensures r.IsStaged? ==> r.staged.verified == w.script.ReadsBack() && r.staged.degraded == degraded
    ensures r.IsStaged? ==> IdentifiesTemp(w, r.staged.identity)
    ensures r.IsStaged? ==> r.staged.reused == g.reused <= |reader.taken| && r.staged.why == g.why
    ensures r.IsStaged? ==> Journaled(w.watch, hook, src.len, g.reused, reader.taken[g.reused..])
    ensures r.IsStaged? && w.script.verify == Full ==>
      w.hash(second) == w.hash(reader.taken) && (w.stable ==> second == w.source)
    ensures var same := src == w.sourceMeta && reader.fixed == Some(w.source);
      var trusted := w.script.ReadsBack() ==> Trusted(w.hash, g.reused);
      w.calm && reader.calm && same && trusted ==> r.IsStaged? && r.staged.failures == []
  {
    hide World.Valid, Lawful, Steady, Primed, Untouched, TargetView, EndsInError, Safe, MayTimes, Trusted;
    hide StreamDone, Journaled, Streaming;
    second := [];
    ghost var hasher := if w.script.verify == VerifyNone then None else Some([]);
    var e, copied, fed' := StreamOrDiscard(w, d0, hook, src, reader, g, hasher, fed);
    if e.Some? {
      return StageFailed(e.value), [];
    }
    ghost var drained := w.watch;
    Drains(drained, hook, src, g, reader.taken[g.reused..]);
    var verified;
    e, verified, second := Verify(w, d0, src, fed');
    if e.Some? {
      return StageFailed(e.value), [];
    }
    var failures;
    e, failures := Finish(w, d0, src);
    if e.Some? {
      return StageFailed(e.value), [];
    }
    StillJournaled(drained, w.watch, hook, src.len, g.reused, reader.taken[g.reused..]);
    var identity := w.WriterIdentity();
    r := IsStaged(Staged(identity, copied, failures, degraded, g.reused, g.why, verified));
  }

  lemma StreamIsWhole(w: World, d0: Disk, taken: Bytes, reused: nat, copied: nat, hasher: Option<Bytes>,
                      fed: Option<Bytes>)
    requires Copied(w.hash, w.faithful, d0, w.disk, w.at, taken, reused, copied, hasher, fed)
    requires hasher == None || hasher == Some([])
    ensures Safe(d0, w.disk) && OwnTemp(d0, w.disk) && reused + copied == |taken|
    ensures fed == if hasher.None? then None else Some(taken)
    ensures w.faithful && Trusted(w.hash, reused) ==> w.disk.TempBytes() == taken
  {
    assert [] + taken == taken;
  }

  /** A prefix kept on the word of digests cannot fail a later comparison of digests. */
  ghost predicate Undeceived(w: World, hook: Hook) {
    w.script.ReadsBack() && !hook.NoHook? ==> CollisionFree(w.hash)
  }

  /** Steps 3 to 7: a file that is to be copied. */
  method StagePlanned(w: World, ghost d0: Disk, hook: Hook, src: Metadata, degraded: Option<FileIdentity>,
                      reader: Reader)
    returns (r: StageResult, ghost stream: Bytes, ghost second: Bytes)
    requires w.Valid() && w.watch.phase == Plan && Poised(w.watch, src) && reader.Valid() && reader.taken == []
    requires w.script.checkpointed == !hook.NoHook? && Safe(d0, w.disk) && (!hook.NoHook? ==> w.disk == d0)
    requires w.stable ==> reader.fixed == Some(w.source)
    modifies w`trace, w`watch, w`disk, w`at, reader
    ensures !r.StageSkipped? && (r.StageFailed? ==> FailsCleanly(w, d0, r.error))
    ensures r.IsStaged? ==>
      w.Valid() && Safe(d0, w.disk) && OwnTemp(d0, w.disk) && Complete(w.hash, w.faithful, w.disk, r.staged, stream)
    ensures r.IsStaged? ==> Underway(w.watch, src, r.staged.failures) && w.watch.phase == Confirmed
    ensures r.IsStaged? && w.stable ==> stream == w.source
    ensures r.IsStaged? ==> r.staged.verified == w.script.ReadsBack() && r.staged.degraded == degraded
    ensures r.IsStaged? && w.script.verify == Full ==>
      w.hash(second) == w.hash(stream) && (w.stable ==> second == w.source)
    ensures r.IsStaged? ==> IdentifiesTemp(w, r.staged.identity)
    ensures r.IsStaged? ==> r.staged.reused <= |stream|
    ensures r.IsStaged? ==> Journaled(w.watch, hook, src.len, r.staged.reused, stream[r.staged.reused..])
    ensures w.calm && reader.calm && src == w.sourceMeta && r.IsStaged? ==>
      (r.staged.reused, r.staged.why) == Resumption(w, hook, old(w.disk))
    ensures var clear := Sweepable(old(w.disk)) && (hook.NoHook? ==> Temp !in old(w.disk).names);
      var calm := w.calm && reader.calm && src == w.sourceMeta;
      calm && clear && Undeceived(w, hook) ==> r.IsStaged? && r.staged.failures == []
  {
    hide World.Valid, Lawful, Steady, Primed, Untouched, TargetView, Safe, OwnTemp, Complete, CollisionFree;
    hide Journaled, IdentifiesTemp, Streaming, Resumption;
    stream, second := [], [];
    var hasher := if w.script.verify == VerifyNone then None else Some([]);
    var g, fed := Acquire(w, d0, hook, src, reader, hasher);
    if g.OpeningFailed? {
      return StageFailed(g.error), [], [];
    }
    r, second := Fill(w, d0, hook, src, reader, g, fed, degraded);
    stream := reader.taken;
  }

  /** The target is absent, or another object than the source. */
  predicate NotTheSource(w: World, d: Disk) {
    Target in d.names ==> d.names[Target] != w.sourceId
  }

  lemma TargetAsBefore(d0: Disk, d: Disk)
    requires Safe(d0, d)
    ensures Target in d0.names <==> Target in d.names
    ensures Target in d0.names ==> d0.names[Target] == d.names[Target]
  {
  }

  lemma SameTarget(d0: Disk, d: Disk, e: Disk)
    requires Safe(d0, d) && Safe(d0, e)
    ensures Target in d.names <==> Target in e.names
    ensures Target in d.names ==> d.names[Target] == e.names[Target]
  {
  }

  /** Where nothing fails of itself, the plan decides what becomes of the file, and no item of metadata is missed. */
  predicate Follows(r: StageResult, plan: FilePlan) {
    match plan
    case Refuse(b) => r == StageFailed(CopyError(b.step, b.code, None))
    case SkipFile(d) => r == StageSkipped(d)
    case Proceed(d) => r.IsStaged? && r.staged.degraded == d && r.staged.failures == []
  }

  /**
   The metadata and the durability of a run, in terms of its options and of the calls it made. What is Off is not
   touched; what is Strict was applied, from the source as planned; what is Default was tried, and is reported as
   missed exactly if that failed; and the file was synced exactly if that was asked for, here.
   */
  ghost predicate AsAsked(t: seq<Call>, o: Options, sync: SyncAt, src: Metadata, missed: seq<MetadataItem>) {
    && (match o.times
        case PreserveOff => forall i | 0 <= i < |t| :: !t[i].event.TimesSet?
        case PreserveStrict => Made(t, TimesSet(src.modified, None))
        case PreserveDefault => exists f :: Made(t, TimesSet(src.modified, f)) && (f.Some? <==> Times in missed))
    && (match o.perms
        case PreserveOff => forall i | 0 <= i < |t| :: !t[i].event.PermsSet?
        case PreserveStrict => Made(t, PermsSet(src.permissions, None))
        case PreserveDefault =>
          exists f :: Made(t, PermsSet(src.permissions, f)) && (f.Some? <==> Permissions in missed))
    && (Made(t, Synced(None)) <==> sync == Staging && o.strictDurability)
  }

  lemma TimesAsAsked(sc: Script, t: seq<Call>, src: Metadata)
    requires Lawful(sc, t) && TimesDone(sc, Events(t, |t|), src.modified)
    ensures var missed := After(t, |t|).missed;
      match sc.times
      case PreserveOff => forall i | 0 <= i < |t| :: !t[i].event.TimesSet?
      case PreserveStrict => Made(t, TimesSet(src.modified, None))
      case PreserveDefault => exists f :: Made(t, TimesSet(src.modified, f)) && (f.Some? <==> Times in missed)
  {
    hide Next, Fault, Observe, Allows;
    forall i | 0 <= i < |t|
      ensures t[i].event.TimesSet? ==> sc.times != PreserveOff
    {
      assert Good(sc, t[i]);
      OnlyWhatWasAsked(sc, t[i].before, t[i].event);
    }
    MissedIsLogged(sc, t, |t|);
    if sc.times == PreserveDefault {
      var f :| TimesSet(src.modified, f) in Events(t, |t|);
      var k :| 0 <= k < |t| && t[k].event == TimesSet(src.modified, f);
      forall i | 0 <= i < |t| && t[i].event.TimesSet?
        ensures i == k
      {
        if i != k {
          StepsComeInOrder(sc, t, if i < k then i else k, if i < k then k else i);
        }
      }
      assert Made(t, TimesSet(src.modified, f));
    }
  }

  lemma PermsAsAsked(sc: Script, t: seq<Call>, src: Metadata)
    requires Lawful(sc, t) && PermsDone(sc, Events(t, |t|), src.permissions)
    ensures var missed := After(t, |t|).missed;
      match sc.perms
      case PreserveOff => forall i | 0 <= i < |t| :: !t[i].event.PermsSet?
      case PreserveStrict => Made(t, PermsSet(src.permissions, None))
      case PreserveDefault => exists f :: Made(t, PermsSet(src.permissions, f)) && (f.Some? <==> Permissions in missed)
  {
    hide Next, Fault, Observe, Allows;
    forall i | 0 <= i < |t|
      ensures t[i].event.PermsSet? ==> sc.perms != PreserveOff
    {
      assert Good(sc, t[i]);
      OnlyWhatWasAsked(sc, t[i].before, t[i].event);
    }
    MissedIsLogged(sc, t, |t|);
    if sc.perms == PreserveDefault {
      var f :| PermsSet(src.permissions, f) in Events(t, |t|);
      var k :| 0 <= k < |t| && t[k].event == PermsSet(src.permissions, f);
      forall i | 0 <= i < |t| && t[i].event.PermsSet?
        ensures i == k
      {
        if i != k {
          StepsComeInOrder(sc, t, if i < k then i else k, if i < k then k else i);
        }
      }
      assert Made(t, PermsSet(src.permissions, f));
    }
  }

  lemma SyncAsAsked(sc: Script, t: seq<Call>)
    requires Lawful(sc, t) && (sc.syncInline ==> Synced(None) in Events(t, |t|))
    ensures Made(t, Synced(None)) <==> sc.syncInline
  {
    hide Next, Fault, Observe, Allows;
    forall i | 0 <= i < |t|
      ensures t[i].event.Synced? ==> sc.syncInline
    {
      assert Good(sc, t[i]);
      OnlyWhatWasAsked(sc, t[i].before, t[i].event);
    }
  }

  lemma StagedAsAsked(w: World, o: Options, hook: Hook, sync: SyncAt)
    requires w.Valid() && w.script == ScriptOf(o, hook, sync)
    requires w.watch.phase == Confirmed || w.watch.phase == Published
    ensures w.watch.src.Some? && AsAsked(w.trace, o, sync, w.watch.src.value, w.watch.missed)
  {
    hide Lawful, Steady, TimesDone, PermsDone, Events, Made, After, TargetView;
    HistoryIsComplete(w.script, w.trace, |w.trace|);
    TimesAsAsked(w.script, w.trace, w.watch.src.value);
    PermsAsAsked(w.script, w.trace, w.watch.src.value);
    SyncAsAsked(w.script, w.trace);
  }

  /**
   `stage_file`. `stream` is everything the run read from the source.
   */
  method StageFile(w: World, o: Options, hook: Hook, sync: SyncAt)
    returns (r: StageResult, ghost src: Option<Metadata>, ghost stream: Bytes, ghost second: Bytes)
    requires w.Valid() && w.watch == INITIAL && w.script == ScriptOf(o, hook, sync)
    modifies w`trace, w`watch, w`disk, w`at
    ensures r.StageFailed? ==> FailsCleanly(w, old(w.disk), r.error)
    ensures w.Valid() && (!r.StageFailed? ==> Safe(old(w.disk), w.disk) && w.watch.blame.None?)
    ensures r.StageSkipped? ==>
      w.watch.phase == Over && !w.watch.isOpen && Target in w.disk.names && o.existing != Overwrite
    ensures r.IsStaged? ==> src.Some? && Underway(w.watch, src.value, r.staged.failures) && w.watch.phase == Confirmed
    ensures r.IsStaged? ==> OwnTemp(old(w.disk), w.disk) && Complete(w.hash, w.faithful, w.disk, r.staged, stream)
    ensures r.IsStaged? && w.stable ==> stream == w.source
    ensures r.IsStaged? && w.stable ==> src.value.len == |w.source| && src.value.modified == w.sourceTime
    ensures r.IsStaged? ==> (r.staged.verified <==> o.verify == Destination || o.verify == Full)
    ensures r.IsStaged? && o.verify == Full ==> w.hash(second) == w.hash(stream) && (w.stable ==> second == w.source)
    ensures r.IsStaged? ==> IdentifiesTemp(w, r.staged.identity)
    ensures r.IsStaged? ==> r.staged.reused <= |stream|
    ensures r.IsStaged? ==> Journaled(w.watch, hook, src.value.len, r.staged.reused, stream[r.staged.reused..])
    ensures r.IsStaged? ==> AsAsked(w.trace, o, sync, src.value, r.staged.failures)
    ensures r.IsStaged? && o.existing == SkipExisting && r.staged.degraded.None? ==> Target !in old(w.disk).names
    ensures w.calm && r.IsStaged? ==> src == Some(w.sourceMeta) && Warranted(w, o.existing, old(w.disk))
    ensures w.calm && r.StageSkipped? ==> !Warranted(w, o.existing, old(w.disk))
    ensures w.calm && r.IsStaged? ==> (r.staged.reused, r.staged.why) == Resumption(w, hook, old(w.disk))
    ensures r.IsStaged? && o.safety == SafetyStrict ==> r.staged.degraded.None?
    ensures r.IsStaged? && r.staged.degraded.None? && Target in w.disk.names ==> w.disk.names[Target] != w.sourceId
    ensures w.calm && Sweepable(old(w.disk)) && Undeceived(w, hook) ==>
      Follows(r, PlanFile(w.sourceMeta, EntryStat(old(w.disk), Target, w.targetMeta), o))
    ensures w.calm && r.IsStaged? && o.noReplace ==> Target !in w.disk.names
    ensures w.watch.isOpen && o.safety == SafetyStrict ==> NotTheSource(w, old(w.disk))
  {
    hide World.Valid, Lawful, Steady, Primed, Untouched, TargetView, Safe, OwnTemp, Complete;
    hide PlanFile, EntryStat, CollisionFree, Warranted, AsAsked, Journaled, IdentifiesTemp;
    src, stream, second := None, [], [];
    var p, reader := RunPrelude(w, o, hook);
    if p.PreludeFailed? {
      return StageFailed(p.error), None, [], [];
    }
    if p.Skips? {
      return StageSkipped(p.degraded), None, [], [];
    }
    ghost var d0, planned := old(w.disk), w.disk;
    TargetAsBefore(d0, planned);
    src := Some(p.src);
    r, stream, second := StagePlanned(w, d0, hook, p.src, p.degraded, reader);
    if r.IsStaged? {
      SameTarget(d0, planned, w.disk);
      StagedAsAsked(w, o, hook, sync);
    }
  }
}
