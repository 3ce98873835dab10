/** The publishing of a staged file, and the whole copy: `publish_staged` and `copy_file_checkpointed` of copy.rs. */
module Publishing {
  import opened Basics
  import opened Protocol
  import opened Destination
  import opened Keeping
  import opened Policy
  import opened Resume
  import opened Stage

  datatype Outcome = Outcome(
    bytesCopied: nat, failures: seq<MetadataItem>, degraded: Option<FileIdentity>, publishedIdentity: FileIdentity,
    skipped: bool, verified: bool)

  function OutcomeOf(st: Staged): Outcome {
    Outcome(st.bytesCopied, st.failures, st.degraded, st.identity, false, st.verified)
  }

  datatype Reuse = Reuse(reused: nat, why: Option<Discard>)

  datatype CopyResult = Done(outcome: Outcome, reuse: Reuse) | Failed(error: CopyError)

  /** `publish_staged`: the last heartbeat and guard, and the rename. A lost lock keeps the temporary and names it. */
  method PublishStaged(w: World, ghost d0: Disk, st: Staged) returns (e: Option<CopyError>)
    requires w.Valid() && Safe(d0, w.disk) && OwnTemp(d0, w.disk)
    requires w.watch.phase == Announcing && w.watch.blame.None? && w.watch.isOpen && w.watch.leftover.None?
    requires !w.watch.sink.SinkOpen?
    modifies w`trace, w`watch, w`disk
    ensures e.Some? ==> EndsInError(w, d0, e.value)
    ensures e.None? ==> w.Valid() && w.disk == Moved(old(w.disk))
    ensures e.None? ==> w.watch == old(w.watch).(phase := Published, cleared := false, held := true)
    ensures e.None? && w.noReplace ==> Target !in old(w.disk).names
    ensures w.calm && (w.noReplace ==> Target !in old(w.disk).names) ==> e.None?
  {
    hide World.Valid, Lawful, Steady, Untouched, TargetView, Safe, Next, Fault;
    var f := w.Beat();
    if f.Some? {
      var x := Discarded(w, d0, Blame(AtHeartbeat, f.value));
      return Some(x);
    }
    f := w.Guard();
    if f.Some? {
      return Some(CopyError(AtPublish, f.value, Some(TempPath)));
    }
    f := w.Rename();
    if f.Some? {
      var x := Discarded(w, d0, Blame(AtPublish, f.value));
      return Some(x);
    }
    e := None;
  }

  /**
   The announcement of the publication; its refusal discards the temporary and is returned as it came, but for a
   temporary that could not be cleared away, which is named before what the refusal names. `refused` is what the hook
   answered, in the first call made here.
   */
  method AnnounceOrDiscard(w: World, ghost d0: Disk, st: Staged)
    returns (e: Option<CopyError>, ghost refused: Option<CopyError>)
    requires w.Valid() && Safe(d0, w.disk) && OwnTemp(d0, w.disk)
    requires w.watch.phase == Confirmed && w.watch.blame.None? && w.watch.isOpen && !w.watch.sink.SinkOpen?
    requires st.identity.Strong? ==> st.identity.id == w.disk.names[Temp]
    modifies w`trace, w`watch, w`disk
    ensures Begins(old(w.trace), w.trace, Announced(st.identity, refused)) && (e.Some? <==> refused.Some?)
    ensures e.Some? ==> EndsInError(w, d0, e.value) && ClearsAway(Last(w.trace))
    ensures e.Some? ==>
      var cleared := Last(w.trace) == Removed(None);
      e == Some(refused.value.(leftover := if cleared then refused.value.leftover else Some(TempPath)))
    ensures e.None? ==> w.Valid() && w.disk == old(w.disk)
    ensures e.None? ==> w.watch == To(old(w.watch), Announcing).(shown := Some(st.identity))
    ensures w.calm ==> e.None?
  {
    hide World.Valid, Lawful, Steady, Untouched, TargetView, Safe, EndsInError, Adds, Longer, Begins;
    e := w.Announce(st.identity);
    refused := e;
    ghost var t := w.trace;
    StillFirst(old(w.trace), t, [], Announced(st.identity, refused));
    if e.Some? {
      var answer := e.value;
      var out := Discarded(w, d0, Blame(answer.step, answer.code));
      StillFirst(old(w.trace), t, w.trace, Announced(st.identity, refused));
      e := Some(if out.leftover.None? then out.(leftover := answer.leftover) else out);
    }
  }

  /** What is said of the published file's identity is true of it; in a calm world it is what the world answers. */
  predicate IdentifiesTarget(w: World, i: FileIdentity)
    reads w
  {
    && Target in w.disk.names && (i.Strong? ==> i.id == w.disk.names[Target])
    && (w.calm ==> i == if w.tempMeta.identity.Strong? then Strong(w.disk.names[Target]) else w.tempMeta.identity)
  }

  /** The target after a copy: the bytes that were staged, under the target's name, and the temporary's name gone. */
  ghost predicate Delivered(w: World, d0: Disk, out: Outcome, reuse: Reuse, stream: Bytes)
    reads w
  {
    && w.Valid() && w.disk.names.Keys == {Target} && Untouched(d0, w.disk)
    && reuse.reused + out.bytesCopied == |stream|
    && var bytes := w.disk.data[w.disk.names[Target]];
    && (w.faithful && Trusted(w.hash, reuse.reused) ==> bytes == stream)
    && (out.verified ==> w.hash(bytes) == w.hash(stream))
    && IdentifiesTarget(w, out.publishedIdentity)
  }

  lemma MoveDelivers(w: World, d0: Disk, d: Disk, st: Staged, stream: Bytes)
    requires Safe(d0, d) && OwnTemp(d0, d) && w.Valid() && w.disk == Moved(d)
    requires Complete(w.hash, w.faithful, d, st, stream)
    requires st.identity.Strong? ==> st.identity.id == d.names[Temp]
    requires w.calm ==>
      st.identity == if w.tempMeta.identity.Strong? then Strong(d.names[Temp]) else w.tempMeta.identity
    ensures Delivered(w, d0, OutcomeOf(st), Reuse(st.reused, st.why), stream)
  {
  }

  /** The announcement and the publication of what was staged. */
  method Deliver(w: World, ghost d0: Disk, st: Staged, ghost stream: Bytes) returns (e: Option<CopyError>)
    requires w.Valid() && Safe(d0, w.disk) && OwnTemp(d0, w.disk) && Complete(w.hash, w.faithful, w.disk, st, stream)
    requires w.watch.phase == Confirmed && w.watch.blame.None? && w.watch.isOpen && w.watch.leftover.None?
    requires !w.watch.sink.SinkOpen? && IdentifiesTemp(w, st.identity)
    modifies w`trace, w`watch, w`disk
    ensures e.Some? ==> FailsCleanly(w, d0, e.value)
    ensures e.None? ==> Delivered(w, d0, OutcomeOf(st), Reuse(st.reused, st.why), stream)
    ensures e.None? ==>
      w.watch == old(w.watch).(phase := Published, cleared := false, held := true, shown := Some(st.identity))
    ensures e.None? && w.noReplace ==> Target !in old(w.disk).names
    ensures w.calm && (w.noReplace ==> Target !in old(w.disk).names) ==> e.None?
    ensures w.Valid()
  {
    hide World.Valid, Lawful, Steady, Untouched, TargetView, Safe, OwnTemp, Complete, Delivered;
    ghost var d := w.disk;
    ghost var refused;
    e, refused := AnnounceOrDiscard(w, d0, st);
    if e.Some? {
      return;
    }
    e := PublishStaged(w, d0, st);
    if e.None? {
      MoveDelivers(w, d0, d, st, stream);
    }
  }

  lemma Beginning(w: World)
    requires w.Valid() && w.watch == INITIAL
    ensures w.disk.WellFormed() && TargetView(w.disk) == w.first
  {
  }

  lemma TargetWasSteady(w: World)
    requires w.Valid()
    ensures w.disk.WellFormed() && Steady(w.trace, w.first)
  {
  }

  /** What a plan promises of a copy that meets no failure. */
  predicate Decides(plan: FilePlan, r: CopyResult) {
    match plan
    case Refuse(b) => r == Failed(CopyError(b.step, b.code, None))
    case SkipFile(d) => r.Done? && r.outcome.skipped && r.outcome.degraded == d
    case Proceed(d) => r.Done? && !r.outcome.skipped && r.outcome.degraded == d && r.outcome.failures == []
  }

  /** What the copy makes of what was staged, if its publication does not fail. */
  function ResultOf(s: StageResult): CopyResult {
    match s
    case StageFailed(e) => Failed(e)
    case StageSkipped(d) => Done(Outcome(0, [], d, Unavailable, true, false), Reuse(0, None))
    case IsStaged(st) => Done(OutcomeOf(st), Reuse(st.reused, st.why))
  }

  lemma FollowingDecides(plan: FilePlan, s: StageResult)
    requires Follows(s, plan)
    ensures Decides(plan, ResultOf(s))
  {
  }

  /** `copy_file_checkpointed`: one whole copy, over every fault schedule. */
  method CopyFile(w: World, o: Options, hook: Hook) returns (r: CopyResult, ghost stream: Bytes, ghost second: Bytes)
    requires w.Valid() && w.watch == INITIAL && w.script == ScriptOf(o, hook, Staging) && w.noReplace == o.noReplace
    modifies w`trace, w`watch, w`disk, w`at
    // An error or a skip leaves the target, and every object but the run's own temporary, as they were.
    ensures r.Failed? ==> FailsCleanly(w, old(w.disk), r.error)
    ensures r.Done? && r.outcome.skipped ==>
      w.Valid() && Safe(old(w.disk), w.disk) && w.watch.phase == Over && w.watch.blame.None?
    ensures r.Done? && r.outcome.skipped ==>
      Target in w.disk.names && o.existing != Overwrite && r.reuse == Reuse(0, None)
    ensures r.Done? && r.outcome.skipped ==>
      && r.outcome.bytesCopied == 0 && r.outcome.failures == [] && r.outcome.publishedIdentity.Unavailable?
      && !r.outcome.verified
    // A copy that was made is the source's stream, whatever the split into kept prefix, carry and chunks.
    ensures r.Done? && !r.outcome.skipped ==> Delivered(w, old(w.disk), r.outcome, r.reuse, stream)
    ensures r.Done? && !r.outcome.skipped && w.stable ==> stream == w.source
    ensures r.Done? && !r.outcome.skipped ==> (r.outcome.verified <==> o.verify == Destination || o.verify == Full)
    ensures r.Done? && !r.outcome.skipped && o.verify == Full ==>
      w.hash(second) == w.hash(stream) && (w.stable ==> second == w.source)
    // At every call the target was still the old one: up to the rename, whatever stops the run leaves that.
    ensures Steady(w.trace, TargetView(old(w.disk)))
    // The calls made are a lawful run that ends with the rename.
    ensures r.Done? && !r.outcome.skipped ==> w.watch.phase == Published && w.watch.blame.None?
    ensures r.Done? && !r.outcome.skipped ==> r.outcome.failures == w.watch.missed && w.watch.src.Some?
    ensures r.Done? && !r.outcome.skipped ==> w.watch.shown == Some(r.outcome.publishedIdentity)
    // What was to be preserved and made durable was, from the source as it was planned.
    ensures r.Done? && !r.outcome.skipped ==> AsAsked(w.trace, o, Staging, w.watch.src.value, r.outcome.failures)
    ensures r.Done? && !r.outcome.skipped && w.stable ==>
      w.watch.src.value.len == |w.source| && w.watch.src.value.modified == w.sourceTime
    // Everything past the kept prefix was written, once and in order, and logged where the file has a log.
    ensures r.Done? && !r.outcome.skipped ==>
      && r.reuse.reused <= |stream|
      && Journaled(w.watch, hook, w.watch.src.value.len, r.reuse.reused, stream[r.reuse.reused..])
    // What the target was.
    ensures r.Done? && !r.outcome.skipped && o.noReplace ==> Target !in old(w.disk).names
    ensures r.Done? && !r.outcome.skipped && o.safety == SafetyStrict ==> r.outcome.degraded.None? && w.watch.isOpen
    ensures w.watch.isOpen && o.safety == SafetyStrict ==> NotTheSource(w, old(w.disk))
    ensures r.Done? && !r.outcome.skipped && o.existing == SkipExisting && r.outcome.degraded.None? ==>
      Target !in old(w.disk).names
    // Where nothing fails of itself, the plan alone decides, and a plan to copy succeeds.
    ensures w.calm && Sweepable(old(w.disk)) && Undeceived(w, hook) ==>
      Decides(PlanFile(w.sourceMeta, EntryStat(old(w.disk), Target, w.targetMeta), o), r)
    // There a file is skipped exactly if the policy wants what is there kept, and as much as possible is resumed.
    ensures w.calm && r.Done? ==> (r.outcome.skipped <==> !Warranted(w, o.existing, old(w.disk)))
    ensures w.calm && r.Done? && !r.outcome.skipped ==>
      (r.reuse.reused, r.reuse.why) == Resumption(w, hook, old(w.disk))
  {
    hide World.Valid, Lawful, Steady, Untouched, TargetView, Safe, Complete, Delivered;
    hide PlanFile, EntryStat, Sweepable, Undeceived, NotTheSource, Warranted, AsAsked, Journaled, Resumption;
    hide IdentifiesTemp, FailsCleanly, OwnTemp, ScriptOf, Moved, Disk.WellFormed, Follows, Decides;
    Beginning(w);
    TargetWasSteady(w);
    ghost var src;
    var staged;
    staged, src, stream, second := StageFile(w, o, hook, Staging);
    ghost var plan := PlanFile(w.sourceMeta, EntryStat(old(w.disk), Target, w.targetMeta), o);
    if w.calm && Sweepable(old(w.disk)) && Undeceived(w, hook) {
      FollowingDecides(plan, staged);
    }
    if staged.StageFailed? {
      TargetWasSteady(w);
      return Failed(staged.error), [], [];
    }
    TargetWasSteady(w);
    if staged.StageSkipped? {
      return ResultOf(staged), [], [];
    }
    var st := staged.staged;
    TargetAsBefore(old(w.disk), w.disk);
    ghost var confirmed := w.watch;
    var e := Deliver(w, old(w.disk), st, stream);
    TargetWasSteady(w);
    if e.Some? {
      return Failed(e.value), [], [];
    }
    StagedAsAsked(w, o, hook, Staging);
    StillJournaled(confirmed, w.watch, hook, src.value.len, st.reused, stream[st.reused..]);
    r := ResultOf(staged);
  }

  /**
   What a user relies on: over a source that nobody changes, a copy that succeeds has made the target equal to it,
   if the device is faithful and a resumed prefix is trusted, or if the copy was verified and digests do not collide.
   */
  lemma TheTargetIsTheSource(w: World, d0: Disk, out: Outcome, reuse: Reuse, stream: Bytes)
    requires Delivered(w, d0, out, reuse, stream) && stream == w.source
    requires (w.faithful && (reuse.reused == 0 || CollisionFree(w.hash))) || (out.verified && CollisionFree(w.hash))
    ensures w.disk.data[w.disk.names[Target]] == w.source
    ensures reuse.reused + out.bytesCopied == |w.disk.data[w.disk.names[Target]]|
  {
  }
}
