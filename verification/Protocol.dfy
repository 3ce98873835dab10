/**
 The order a single-file copy must keep, as an automaton over the calls it makes
 (crates/flux-core/src/copy.rs, steps 1 to 7). The copy itself is in module Stage; here is only what a
 sequence of calls may look like, and what follows from a lawful sequence.
 */
module Protocol {
  import opened Basics

  datatype ObjectId = ObjectId(volume: nat, index: nat)

  datatype FileIdentity = Strong(id: ObjectId) | Weak(id: ObjectId) | Unavailable

  datatype FileType = File | Dir | Symlink | Other

  datatype Metadata = Metadata(
    len: nat, fileType: FileType, permissions: Option<int>, modified: Option<int>,
    identity: FileIdentity, nlink: Option<nat>)

  datatype Code =
    | IoError | CopyFailed | SafetyRejected | SpecialFileUnsupported | SourceChanged | VerifyMismatch
    | MetadataApplyFailed | StrictDurabilityUnavailable | WalWriteFailed | TargetLockBusy | DestinationError
    | OtherCode(n: nat)

  datatype CopyStep =
    | AtResolve | AtSource | AtGate | AtCreate | AtStream | AtDurability | AtMetadata | AtRecheck
    | AtPublish | AtHeartbeat | AtClaim | AtCheckpoint | AtVerify

  datatype MetadataItem = Times | Permissions

  datatype Blame = Blame(step: CopyStep, code: Code)

  datatype Path = TempPath | OtherPath(n: nat)

  datatype CopyError = CopyError(step: CopyStep, code: Code, leftover: Option<Path>)

  function BlameOf(e: Option<CopyError>): Option<Blame> {
    match e
    case None => None
    case Some(x) => Some(Blame(x.step, x.code))
  }

  /** A call on a file's checkpoint sink, and its answer; a heartbeat that fails while it waits ends it. */
  datatype SinkOp = BeginLog(from: nat) | ProveLog(digests: seq<Digest>) | HandOver(bytes: Bytes) | CloseLog

  datatype SinkResult = SinkOk | SinkHeartbeat(code: Code) | SinkWal | SinkData

  /** The sink of a file: from where it records, what was proven before, and the bytes it has been handed. */
  datatype SinkState =
    | NoSink
    | SinkOpen(from: nat, proven: seq<Digest>, bytes: Bytes)
    | SinkClosed(from: nat, proven: seq<Digest>, bytes: Bytes)
    | SinkAborted

  datatype VerifyLevel = VerifyNone | SourceStream | Destination | Full

  datatype Preserve = PreserveStrict | PreserveDefault | PreserveOff

  /** What a run is asked to do, as far as the order of its calls depends on it. */
  datatype Script = Script(
    checkpointed: bool, verify: VerifyLevel, times: Preserve, perms: Preserve, syncInline: bool)
  {
    predicate ReadsBack() { verify == Destination || verify == Full }
  }

  /**
   One call of the copy. A fault is `None` when the call succeeded and the failing code otherwise.
   Of the calls that touch nothing only failures are logged: of a stat or an opening, of a read, of the duplication of
   the writer, and the plan's refusal.
   */
  datatype Event =
    | BeatCall(fault: Option<Code>)
    | GuardCall(fault: Option<Code>)
    | Swept
    | Planned(src: Metadata)
    | Skipped
    | Claimed(refusal: Option<CopyError>)
    | Reopened(fault: Option<Code>)
    | Cut(fault: Option<Code>)
    | Created(fault: Option<Code>)
    | Wrote(bytes: Bytes, fault: Option<Code>)
    | SinkCall(op: SinkOp, answer: SinkResult)
    | Aborted
    | Streamed
    | Rechecked(now: Option<Metadata>, statFault: Option<Code>)
    | ReadBack(same: bool)
    | SecondRead(same: bool)
    | TimesSet(time: Option<int>, fault: Option<Code>)
    | PermsSet(perms: Option<int>, fault: Option<Code>)
    | Synced(fault: Option<Code>)
    | Announced(identity: FileIdentity, refusal: Option<CopyError>)
    | Renamed(fault: Option<Code>)
    | Removed(fault: Option<Code>)
    | LookFailed(code: Code)
    | ReadFailed(code: Code)
    | NotDuplicated
    | TurnedDown(blame: Blame)
  {
    /** The destination mutations that are conditional on the lock. */
    predicate Mutates() {
      Swept? || Reopened? || Cut? || Created? || Renamed? || Removed?
    }
  }

  /** Where a run stands. `Doomed` still owns a temporary; `Kept` leaves it for a resume; `Over` does nothing more. */
  datatype Phase =
    | Fresh | FreshBeat | FreshGuard | Settled | Skipping
    | Plan | PlanBeat | PlanGuard | Owned | OwnedSwept | Reopening
    | Writing | Drained | Prechecked | MatchedTemp | Matched | Timed | Permed | Durable
    | Confirmed | Announcing | AnnouncedBeat | AnnouncedGuard | Published
    | Doomed | Kept | Over

  /**
   The automaton's state: the phase, whether the very last call was a passed guard, whether the last guard passed,
   whether the temporary was opened, the source as planned, the first failure, the metadata that could not be applied
   where that is only reported, the file to be named as left behind, the bytes written, the checkpoint sink, and the
   identity that was announced.
   */
  datatype Watch = Watch(
    phase: Phase, cleared: bool, held: bool, isOpen: bool, src: Option<Metadata>, blame: Option<Blame>,
    missed: seq<MetadataItem>, leftover: Option<Path>, written: Bytes, sink: SinkState, shown: Option<FileIdentity>)

  const INITIAL: Watch := Watch(Fresh, false, false, false, None, None, [], None, [], NoSink, None)

  /** The code of a failure while streaming: an unclassified one is the content copy's own. */
  function CopyCode(c: Code): (r: Code)
    ensures r != IoError && (r == c || (c == IoError && r == CopyFailed))
  {
    if c == IoError then CopyFailed else c
  }

  predicate Unchanged(src: Metadata, now: Metadata) {
    now.len == src.len && now.modified == src.modified
  }

  predicate MayTimes(sc: Script, p: Phase) {
    p == Matched || (p == Drained && !sc.ReadsBack())
  }

  predicate MayPerms(sc: Script, p: Phase) {
    p == Timed || (sc.times == PreserveOff && MayTimes(sc, p))
  }

  predicate MaySync(sc: Script, p: Phase) {
    p == Permed || (sc.perms == PreserveOff && MayPerms(sc, p))
  }

  predicate MayConfirm(sc: Script, p: Phase) {
    p == Durable || (!sc.syncInline && MaySync(sc, p))
  }

  function Either(fault: Option<Code>, good: Phase, bad: Phase): Option<Phase> {
    Some(if fault.None? then good else bad)
  }

  predicate MayBeat(p: Phase) {
    p == Fresh || p == Plan || p == Owned || p == Writing || p == Prechecked || p == MatchedTemp
    || p == Announcing || p == Doomed || p == Kept
  }

  function BeatTo(p: Phase): Phase {
    match p
    case Fresh => FreshBeat
    case Plan => PlanBeat
    case Announcing => AnnouncedBeat
    case _ => p
  }

  /** A lost heartbeat ends the run; from the opening of the temporary on, the temporary must first be cleared away. */
  function BeatLost(p: Phase): Phase {
    match p
    case Fresh => Over
    case Plan => Over
    case Owned => Over
    case Kept => Kept
    case _ => Doomed
  }

  /** Where a stat or an opening may fail, and what then is to blame. */
  predicate MayLook(p: Phase) {
    p == Settled || p == Plan || p == Prechecked || p == MatchedTemp
  }

  function LookBlame(p: Phase, c: Code): Blame {
    Blame(if p == Prechecked || p == MatchedTemp then AtVerify else AtSource, c)
  }

  /** Where a read may fail, and what then is to blame. */
  predicate MayRead(p: Phase) {
    p == Owned || p == Writing || p == Prechecked || p == MatchedTemp
  }

  function ReadBlame(p: Phase, c: Code): Blame {
    match p
    case Writing => Blame(AtStream, CopyCode(c))
    case Owned => Blame(AtSource, c)
    case _ => Blame(AtVerify, CopyCode(c))
  }

  /** Nothing is to be cleared away before the temporary exists. */
  function FailTo(p: Phase): Phase {
    if p == Writing || p == Prechecked || p == MatchedTemp then Doomed else Over
  }

  /** The sink is begun before anything is written, and every other call on it is on an open one. */
  predicate SinkTakes(w: Watch, op: SinkOp) {
    if op.BeginLog? then w.sink.NoSink? && w.written == [] else w.sink.SinkOpen?
  }

  /** A failed checkpoint log keeps the temporary for a resume. */
  function SinkTo(a: SinkResult): Phase {
    match a
    case SinkOk => Writing
    case SinkWal => Kept
    case _ => Doomed
  }

  function SinkAfter(s: SinkState, e: Event): SinkState {
    if e.Aborted? then SinkAborted
    else if !e.SinkCall? || e.answer != SinkOk then s
    else if e.op.BeginLog? then SinkOpen(e.op.from, [], [])
    else if !s.SinkOpen? then s
    else
      match e.op
      case ProveLog(ds) => SinkOpen(s.from, ds, s.bytes)
      case HandOver(b) => SinkOpen(s.from, s.proven, s.bytes + b)
      case _ => SinkClosed(s.from, s.proven, s.bytes)
  }

  /** A sink is aborted before the temporary is cleared away. */
  predicate MayGuard(w: Watch) {
    var p := w.phase;
    || p == FreshBeat || p == PlanBeat || p == AnnouncedBeat || p == Skipping || p == Owned
    || (p == Doomed && !w.sink.SinkOpen?)
  }

  function GuardTo(sc: Script, p: Phase): Phase {
    match p
    case FreshBeat => if sc.checkpointed then Settled else FreshGuard
    case PlanBeat => PlanGuard
    case AnnouncedBeat => AnnouncedGuard
    case _ => p
  }

  /** The phase after `e`, or `None` when the run may not make that call now. */
  function Next(sc: Script, w: Watch, e: Event): Option<Phase> {
    var p := w.phase;
    match e
    case BeatCall(f) => if MayBeat(p) then Either(f, BeatTo(p), BeatLost(p)) else None
    case GuardCall(f) => if MayGuard(w) then Either(f, GuardTo(sc, p), Over) else None
    case Swept =>
      if !w.cleared then None
      else if p == FreshGuard then Some(Settled)
      else if p == Skipping then Some(Over)
      else if p == Owned && sc.checkpointed then Some(OwnedSwept)
      else None
    case LookFailed(_) => if MayLook(p) then Some(FailTo(p)) else None
    case ReadFailed(_) => if MayRead(p) then Some(FailTo(p)) else None
    case TurnedDown(b) => if p == Settled && (b.step == AtSource || b.step == AtGate) then Some(Over) else None
    case Planned(_) => if p == Settled then Some(Plan) else None
    case Skipped => if p == Settled then Some(if sc.checkpointed then Skipping else Over) else None
    case Claimed(r) => if p == PlanGuard && w.cleared then Some(if r.None? then Owned else Over) else None
    case Reopened(f) => if p == Owned && w.cleared && sc.checkpointed then Either(f, Reopening, Over) else None
    case Cut(f) => if p == Reopening then Either(f, Writing, Over) else None
    case Created(f) =>
      if p == (if sc.checkpointed then OwnedSwept else Owned) then Either(f, Writing, Over) else None
    case Wrote(_, f) => if p == Writing then Either(f, Writing, Doomed) else None
    case NotDuplicated => if p == Writing && SinkTakes(w, BeginLog(0)) then Some(Doomed) else None
    case SinkCall(op, a) => if p == Writing && SinkTakes(w, op) && !a.SinkHeartbeat? then Some(SinkTo(a)) else None
    case Aborted => if (p == Doomed || p == Kept) && w.sink.SinkOpen? then Some(p) else None
    case Streamed =>
      if p == Writing && !w.sink.SinkOpen? && (w.sink.SinkClosed? ==> w.sink.bytes == w.written) then Some(Drained)
      else None
    case Rechecked(now, _) =>
      var good := w.src.Some? && now.Some? && Unchanged(w.src.value, now.value);
      if p == Drained && sc.ReadsBack() then Some(if good then Prechecked else Doomed)
      else if MayConfirm(sc, p) then Some(if good then Confirmed else Doomed)
      else None
    case ReadBack(same) =>
      if p != Prechecked then None
      else Some(if !same then Doomed else if sc.verify == Full then MatchedTemp else Matched)
    case SecondRead(same) => if p == MatchedTemp then Some(if same then Matched else Doomed) else None
    case TimesSet(t, f) =>
      if MayTimes(sc, p) && sc.times != PreserveOff && w.src.Some? && t == w.src.value.modified
      then Some(if f.None? || sc.times == PreserveDefault then Timed else Doomed) else None
    case PermsSet(m, f) =>
      if MayPerms(sc, p) && sc.perms != PreserveOff && w.src.Some? && m == w.src.value.permissions
      then Some(if f.None? || sc.perms == PreserveDefault then Permed else Doomed) else None
    case Synced(f) => if MaySync(sc, p) && sc.syncInline then Either(f, Durable, Doomed) else None
    case Announced(_, r) => if p == Confirmed then Some(if r.None? then Announcing else Doomed) else None
    case Renamed(f) => if p == AnnouncedGuard && w.cleared then Either(f, Published, Doomed) else None
    case Removed(_) => if p == Doomed && w.cleared then Some(Over) else None
  }

  /** The step and code a failing call answers for; `None` for a call that lets the run go on. */
  function Fault(sc: Script, w: Watch, e: Event): Option<Blame> {
    match e
    case BeatCall(Some(c)) => Some(Blame(AtHeartbeat, c))
    case GuardCall(Some(c)) => Some(Blame(if w.phase == AnnouncedBeat then AtPublish else AtCreate, c))
    case LookFailed(c) => Some(LookBlame(w.phase, c))
    case ReadFailed(c) => Some(ReadBlame(w.phase, c))
    case TurnedDown(b) => Some(b)
    case Claimed(r) => BlameOf(r)
    case Announced(_, r) => BlameOf(r)
    case Reopened(Some(c)) => Some(Blame(AtCreate, c))
    case Cut(Some(c)) => Some(Blame(AtCreate, c))
    case Created(Some(c)) => Some(Blame(AtCreate, c))
    case Wrote(_, Some(c)) => Some(Blame(AtStream, CopyCode(c)))
    case NotDuplicated => Some(Blame(AtDurability, StrictDurabilityUnavailable))
    case SinkCall(_, SinkWal) => Some(Blame(AtCheckpoint, WalWriteFailed))
    case SinkCall(_, SinkData) => Some(Blame(AtDurability, StrictDurabilityUnavailable))
    case Rechecked(None, Some(c)) => Some(Blame(AtRecheck, c))
    case Rechecked(None, None) => Some(Blame(AtRecheck, SourceChanged))
    case Rechecked(Some(now), _) =>
      if w.src.Some? && Unchanged(w.src.value, now) then None else Some(Blame(AtRecheck, SourceChanged))
    case ReadBack(same) => if same then None else Some(Blame(AtVerify, VerifyMismatch))
    case SecondRead(same) => if same then None else Some(Blame(AtVerify, VerifyMismatch))
    case TimesSet(_, Some(_)) =>
      if sc.times == PreserveStrict then Some(Blame(AtMetadata, MetadataApplyFailed)) else None
    case PermsSet(_, Some(_)) =>
      if sc.perms == PreserveStrict then Some(Blame(AtMetadata, MetadataApplyFailed)) else None
    case Synced(Some(_)) => Some(Blame(AtDurability, StrictDurabilityUnavailable))
    case Renamed(Some(c)) => Some(Blame(AtPublish, c))
    case _ => None
  }

  predicate Allows(sc: Script, w: Watch, e: Event) {
    Next(sc, w, e).Some?
  }

  /** The state after a call. The first fault is the one a run reports: a later one never displaces it. */
  function Observe(sc: Script, w: Watch, e: Event): Watch {
    var p := Next(sc, w, e);
    Watch(
      if p.Some? then p.value else Over,
      e == GuardCall(None),
      if e.GuardCall? then e.fault.None? else w.held,
      w.isOpen || e == Created(None) || e == Cut(None),
      if e.Planned? then Some(e.src) else w.src,
      if w.blame.Some? then w.blame else Fault(sc, w, e),
      if e.TimesSet? && e.fault.Some? && sc.times == PreserveDefault then w.missed + [Times]
      else if e.PermsSet? && e.fault.Some? && sc.perms == PreserveDefault then w.missed + [Permissions]
      else w.missed,
      LeftBehind(w, e),
      if e.Wrote? && e.fault.None? then w.written + e.bytes else w.written,
      SinkAfter(w.sink, e),
      if e.Announced? then Some(e.identity) else w.shown)
  }

  /** The file an error names: the temporary when it could not be cleared away, else what a refusal named itself. */
  function LeftBehind(w: Watch, e: Event): Option<Path> {
    match e
    case GuardCall(Some(_)) => if w.isOpen then Some(TempPath) else w.leftover
    case Removed(Some(_)) => Some(TempPath)
    case Claimed(Some(x)) => x.leftover
    case Announced(_, Some(x)) => x.leftover
    case _ => w.leftover
  }

  /** The state after a call that changed the phase and nothing else. */
  function To(w: Watch, p: Phase): Watch {
    w.(phase := p, cleared := false)
  }

  /** The state after a failing call. */
  function Blamed(w: Watch, p: Phase, b: Blame): Watch {
    w.(phase := p, cleared := false, blame := if w.blame.Some? then w.blame else Some(b))
  }

  /** The state after a passed guard. */
  function Cleared(sc: Script, w: Watch): Watch {
    w.(phase := GuardTo(sc, w.phase), cleared := true, held := true)
  }

  // What some calls lead to.

  lemma CutLeads(sc: Script, w: Watch, f: Option<Code>)
    requires w.phase == Reopening
    ensures Allows(sc, w, Cut(f))
    ensures Observe(sc, w, Cut(f)) ==
      if f.None? then To(w, Writing).(isOpen := true) else Blamed(w, Over, Blame(AtCreate, f.value))
  {
  }

  lemma ReopenLeads(sc: Script, w: Watch, f: Option<Code>)
    requires w.phase == Owned && w.cleared && sc.checkpointed
    ensures Allows(sc, w, Reopened(f))
    ensures Observe(sc, w, Reopened(f)) ==
      if f.None? then To(w, Reopening) else Blamed(w, Over, Blame(AtCreate, f.value))
  {
  }

  lemma CreateLeads(sc: Script, w: Watch, f: Option<Code>)
    requires w.phase == (if sc.checkpointed then OwnedSwept else Owned)
    ensures Allows(sc, w, Created(f))
    ensures Observe(sc, w, Created(f)) ==
      if f.None? then To(w, Writing).(isOpen := true) else Blamed(w, Over, Blame(AtCreate, f.value))
  {
  }

  lemma WriteLeads(sc: Script, w: Watch, b: Bytes, f: Option<Code>)
    requires w.phase == Writing
    ensures Allows(sc, w, Wrote(b, f))
    ensures Observe(sc, w, Wrote(b, f)) ==
      if f.None? then To(w, Writing).(written := w.written + b)
      else Blamed(w, Doomed, Blame(AtStream, CopyCode(f.value)))
  {
  }

  lemma RecheckLeads(sc: Script, w: Watch, src: Metadata, now: Option<Metadata>, f: Option<Code>)
    requires w.src == Some(src) && (now.Some? ==> f.None?)
    requires (w.phase == Drained && sc.ReadsBack()) || MayConfirm(sc, w.phase)
    ensures Allows(sc, w, Rechecked(now, f))
    ensures var code := if f.Some? then f.value else SourceChanged;
      Observe(sc, w, Rechecked(now, f)) ==
      if now.Some? && Unchanged(src, now.value) then To(w, if MayConfirm(sc, w.phase) then Confirmed else Prechecked)
      else Blamed(w, Doomed, Blame(AtRecheck, code))
  {
  }

  lemma SinkLeads(sc: Script, w: Watch, op: SinkOp, a: SinkResult)
    requires w.phase == Writing && SinkTakes(w, op) && !a.SinkHeartbeat?
    ensures Allows(sc, w, SinkCall(op, a))
    ensures Observe(sc, w, SinkCall(op, a)) ==
      match a
      case SinkOk => To(w, Writing).(sink := SinkAfter(w.sink, SinkCall(op, a)))
      case SinkWal => Blamed(w, Kept, Blame(AtCheckpoint, WalWriteFailed))
      case _ => Blamed(w, Doomed, Blame(AtDurability, StrictDurabilityUnavailable))
  {
  }

  /** The log with one more call. */
  predicate Adds(before: seq<Call>, t: seq<Call>, e: Event) {
    |t| == |before| + 1 && t[..|before|] == before && t[|before|].event == e
  }

  /** What there is at the target's name: an object, its bytes and its type. */
  type View = Option<(ObjectId, Bytes, FileType)>

  /** One call of a run, with the automaton's state before and after it, and the target as the call found it. */
  datatype Call = Call(before: Watch, event: Event, after: Watch, target: View)

  predicate Good(sc: Script, c: Call) {
    Allows(sc, c.before, c.event) && c.after == Observe(sc, c.before, c.event)
  }

  function After(t: seq<Call>, i: nat): Watch
    requires i <= |t|
  {
    if i == 0 then INITIAL else t[i - 1].after
  }

  predicate Linked(t: seq<Call>, i: nat)
    requires i < |t|
  {
    t[i].before == After(t, i)
  }

  /** Every call is one the automaton allows, and each starts where the one before ended. */
  ghost predicate Lawful(sc: Script, t: seq<Call>) {
    && (forall i | 0 <= i < |t| :: Good(sc, t[i]))
    && (forall i {:trigger Linked(t, i)} | 0 <= i < |t| :: Linked(t, i))
  }

  lemma Extend(sc: Script, t: seq<Call>, e: Event, target: View)
    requires Lawful(sc, t) && Allows(sc, After(t, |t|), e)
    ensures
      var c := Call(After(t, |t|), e, Observe(sc, After(t, |t|), e), target);
      Lawful(sc, t + [c]) && After(t + [c], |t| + 1) == c.after
  {
    var c := Call(After(t, |t|), e, Observe(sc, After(t, |t|), e), target);
    forall i | 0 <= i < |t + [c]|
      ensures Linked(t + [c], i)
    {
      assert i < |t| ==> Linked(t, i);
    }
  }

  // ---------------------------------------------------------------------------------------------
  // What a lawful run can and cannot have done

  /** At point `i` of the run the lock was checked, and no check since has failed. */
  ghost predicate LockChecked(t: seq<Call>, i: nat)
    requires i <= |t|
  {
    exists j | 0 <= j < i ::
      && t[j].event == GuardCall(None)
      && forall k | j < k < i :: t[k].event.GuardCall? ==> t[k].event.fault.None?
  }

  lemma {:induction false} HeldIsChecked(sc: Script, t: seq<Call>, i: nat)
    requires Lawful(sc, t) && i <= |t|
    ensures After(t, i).held <==> LockChecked(t, i)
  {
    hide Next, Fault, SinkAfter, LeftBehind;
    if i > 0 {
      HeldIsChecked(sc, t, i - 1);
      assert Linked(t, i - 1) && Good(sc, t[i - 1]);
      if t[i - 1].event == GuardCall(None) {
        assert LockChecked(t, i);
      } else if LockChecked(t, i - 1) && !t[i - 1].event.GuardCall? {
        var j :| 0 <= j < i - 1 && t[j].event == GuardCall(None)
          && forall k | j < k < i - 1 :: t[k].event.GuardCall? ==> t[k].event.fault.None?;
        assert forall k | j < k < i :: t[k].event.GuardCall? ==> t[k].event.fault.None?;
      }
    }
  }

  /** `isOpen` says whether the run has made its temporary, or reopened and cut an earlier one. */
  lemma {:induction false} OpenIsLogged(sc: Script, t: seq<Call>, i: nat)
    requires Lawful(sc, t) && i <= |t|
    ensures After(t, i).isOpen <==> exists k | 0 <= k < i :: t[k].event == Created(None) || t[k].event == Cut(None)
  {
    hide Next, Fault, SinkAfter, LeftBehind;
    if i > 0 {
      OpenIsLogged(sc, t, i - 1);
      assert Linked(t, i - 1) && Good(sc, t[i - 1]);
    }
  }

  /** A run in one of these phases publishes nothing any more. */
  predicate Ending(p: Phase) {
    p == Doomed || p == Kept || p == Over
  }

  predicate Unchecked(p: Phase) {
    p == Fresh || p == FreshBeat || p == Over
  }

  lemma HeldStep(sc: Script, w: Watch, e: Event)
    requires Allows(sc, w, e) && (Unchecked(w.phase) || w.held)
    ensures Unchecked(Observe(sc, w, e).phase) || Observe(sc, w, e).held
    ensures e.Mutates() ==> w.held
  {
    hide Fault, SinkAfter, LeftBehind;
  }

  /** A lawful run works under a checked lock from its first guard to its end. */
  lemma {:induction false} WorkingIsHeld(sc: Script, t: seq<Call>, i: nat)
    requires Lawful(sc, t) && i <= |t|
    ensures Unchecked(After(t, i).phase) || After(t, i).held
  {
    hide Next;
    if i > 0 {
      WorkingIsHeld(sc, t, i - 1);
      assert Linked(t, i - 1) && Good(sc, t[i - 1]);
      HeldStep(sc, t[i - 1].before, t[i - 1].event);
    }
  }

  /** Every sweep, create, reopen, cut, removal and rename follows a passed guard with no failed one between. */
  lemma MutationsAreGuarded(sc: Script, t: seq<Call>, i: nat)
    requires Lawful(sc, t) && i < |t| && t[i].event.Mutates()
    ensures LockChecked(t, i)
  {
    WorkingIsHeld(sc, t, i);
    HeldIsChecked(sc, t, i);
    assert Linked(t, i) && Good(sc, t[i]);
    HeldStep(sc, t[i].before, t[i].event);
  }

  /** A sweep, a reopen, a removal and the publishing rename come immediately after their own guard. */
  lemma OwnGuardComesFirst(sc: Script, t: seq<Call>, i: nat)
    requires Lawful(sc, t) && i < |t|
    requires t[i].event.Swept? || t[i].event.Reopened? || t[i].event.Removed? || t[i].event.Renamed?
    ensures i > 0 && t[i - 1].event == GuardCall(None)
  {
    assert Linked(t, i) && Good(sc, t[i]);
    assert t[i].before.cleared;
    assert i > 0 ==> Good(sc, t[i - 1]);
  }

  lemma EndingStep(sc: Script, w: Watch, e: Event)
    requires Ending(w.phase) && Allows(sc, w, e)
    ensures w.phase != Over && Ending(Observe(sc, w, e).phase)
    ensures e.Mutates() ==> e.Removed?
  {
    hide Fault, SinkAfter, LeftBehind;
  }

  lemma FaultStep(sc: Script, w: Watch, e: Event)
    requires Allows(sc, w, e) && (e.GuardCall? || e.BeatCall?) && e.fault.Some?
    ensures Ending(Observe(sc, w, e).phase)
    ensures e.GuardCall? ==> Observe(sc, w, e).phase == Over
  {
    hide Fault, SinkAfter, LeftBehind;
  }

  /** After the first failed guard the run calls nothing at all, so in particular it mutates nothing. */
  lemma NothingAfterALostLock(sc: Script, t: seq<Call>, i: nat)
    requires Lawful(sc, t) && i < |t| && t[i].event.GuardCall? && t[i].event.fault.Some?
    ensures i == |t| - 1
  {
    FaultStep(sc, t[i].before, t[i].event);
    if i + 1 < |t| {
      assert Linked(t, i + 1);
      EndingStep(sc, t[i + 1].before, t[i + 1].event);
    }
  }

  lemma {:induction false} EndingStaysEnding(sc: Script, t: seq<Call>, i: nat, j: nat)
    requires Lawful(sc, t) && i <= j <= |t| && Ending(After(t, i).phase)
    ensures Ending(After(t, j).phase)
    decreases j
  {
    hide Next;
    if i < j {
      EndingStaysEnding(sc, t, i, j - 1);
      assert Linked(t, j - 1) && Good(sc, t[j - 1]);
      EndingStep(sc, t[j - 1].before, t[j - 1].event);
    }
  }

  /** After a failed heartbeat the only mutation still possible is the guarded removal of the temporary. */
  lemma OnlyRemovalAfterALostHeartbeat(sc: Script, t: seq<Call>, i: nat, j: nat)
    requires Lawful(sc, t) && i < j < |t| && t[i].event.BeatCall? && t[i].event.fault.Some? && t[j].event.Mutates()
    ensures t[j].event.Removed? && t[j - 1].event == GuardCall(None)
  {
    FaultStep(sc, t[i].before, t[i].event);
    EndingStaysEnding(sc, t, i + 1, j);
    assert Linked(t, j);
    EndingStep(sc, t[j].before, t[j].event);
    OwnGuardComesFirst(sc, t, j);
  }

  /** The place of a call in the run; 0 for the calls that recur (heartbeats, guards, rechecks, removals). */
  function Rank(e: Event): nat {
    match e
    case Planned(_) => 1
    case Claimed(_) => 2
    case Created(_) => 3
    case Reopened(_) => 3
    case Cut(_) => 4
    case Wrote(_, _) => 5
    case Streamed => 6
    case ReadBack(_) => 7
    case SecondRead(_) => 8
    case TimesSet(_, _) => 9
    case PermsSet(_, _) => 10
    case Synced(_) => 11
    case Announced(_, _) => 12
    case Renamed(_) => 13
    case _ => 0
  }

  /** The highest rank a run in this phase may have reached. */
  function Reached(p: Phase): nat {
    match p
    case Fresh => 0 case FreshBeat => 0 case FreshGuard => 0 case Settled => 0 case Skipping => 0
    case Plan => 1 case PlanBeat => 1 case PlanGuard => 1
    case Owned => 2 case OwnedSwept => 2
    case Reopening => 3
    case Writing => 5
    case Drained => 6 case Prechecked => 6
    case MatchedTemp => 7
    case Matched => 8
    case Timed => 9 case Permed => 10 case Durable => 11 case Confirmed => 11
    case Announcing => 12 case AnnouncedBeat => 12 case AnnouncedGuard => 12
    case Published => 13 case Doomed => 14 case Kept => 14 case Over => 14
  }

  /** The calls before the temporary is complete, to halve the case analyses below. */
  predicate Early(e: Event) {
    e.BeatCall? || e.GuardCall? || e.Swept? || e.Planned? || e.Skipped? || e.Claimed? || e.Reopened? || e.Cut?
    || e.Created? || e.LookFailed? || e.ReadFailed? || e.TurnedDown? || OfStreaming(e)
  }

  predicate OfStreaming(e: Event) {
    e.Wrote? || e.Streamed? || e.SinkCall? || e.Aborted? || e.NotDuplicated?
  }

  ghost predicate RankFits(sc: Script, w: Watch, e: Event) {
    var r := Reached(Observe(sc, w, e).phase);
    && Reached(w.phase) <= r
    && (Rank(e) > 0 ==> Rank(e) <= r && (Reached(w.phase) < Rank(e) || (e.Wrote? && Reached(w.phase) == Rank(e))))
  }

  lemma EarlyRankFits(sc: Script, w: Watch, e: Event)
    requires Allows(sc, w, e) && Early(e)
    ensures RankFits(sc, w, e)
  {
    hide Fault, SinkAfter, LeftBehind;
  }

  predicate OfMetadata(e: Event) { e.TimesSet? || e.PermsSet? || e.Synced? }

  lemma MetadataRankFits(sc: Script, w: Watch, e: Event)
    requires Allows(sc, w, e) && OfMetadata(e)
    ensures RankFits(sc, w, e)
  {
    hide Fault, SinkAfter, LeftBehind;
    assert MayTimes(sc, w.phase) ==> Reached(w.phase) <= 8;
    assert MayPerms(sc, w.phase) ==> Reached(w.phase) <= 9;
    assert MaySync(sc, w.phase) ==> Reached(w.phase) <= 10;
  }

  lemma OtherLateRankFits(sc: Script, w: Watch, e: Event)
    requires Allows(sc, w, e) && !Early(e) && !OfMetadata(e)
    ensures RankFits(sc, w, e)
  {
    hide Fault, SinkAfter, LeftBehind;
  }

  lemma LateRankFits(sc: Script, w: Watch, e: Event)
    requires Allows(sc, w, e) && !Early(e)
    ensures RankFits(sc, w, e)
  {
    hide Next, Fault, RankFits;
    if OfMetadata(e) {
      MetadataRankFits(sc, w, e);
    } else {
      OtherLateRankFits(sc, w, e);
    }
  }

  lemma RankWithinReach(sc: Script, w: Watch, e: Event)
    requires Allows(sc, w, e)
    ensures RankFits(sc, w, e)
  {
    hide Next, Fault;
    if Early(e) {
      EarlyRankFits(sc, w, e);
    } else {
      LateRankFits(sc, w, e);
    }
  }

  lemma {:induction false} ReachGrows(sc: Script, t: seq<Call>, i: nat, j: nat)
    requires Lawful(sc, t) && i <= j <= |t|
    ensures Reached(After(t, i).phase) <= Reached(After(t, j).phase)
    decreases j
  {
    hide Next;
    if i < j {
      ReachGrows(sc, t, i, j - 1);
      assert Linked(t, j - 1) && Good(sc, t[j - 1]);
      RankWithinReach(sc, t[j - 1].before, t[j - 1].event);
    }
  }

  /**
   The calls of a run come in the order of their ranks, and only writes repeat: one plan, one claim, one
   opening, then every write, the read-backs, the metadata, the sync, one announcement and one rename.
   */
  lemma StepsComeInOrder(sc: Script, t: seq<Call>, i: nat, j: nat)
    requires Lawful(sc, t) && i < j < |t| && Rank(t[i].event) > 0 && Rank(t[j].event) > 0
    ensures Rank(t[i].event) < Rank(t[j].event) || (t[i].event.Wrote? && t[j].event.Wrote?)
  {
    hide Next;
    RankWithinReach(sc, t[i].before, t[i].event);
    ReachGrows(sc, t, i + 1, j);
    assert Linked(t, j);
    RankWithinReach(sc, t[j].before, t[j].event);
  }

  /** The calls, of those in `seen`, that a run must have made to get where it is. */
  ghost predicate Behind(sc: Script, seen: set<Event>, w: Watch) {
    var r := Reached(w.phase);
    r < 14 ==>
      && w.blame.None?
      && (r >= 1 ==> w.src.Some? && Planned(w.src.value) in seen)
      && (r >= 2 ==> Claimed(None) in seen)
      && (r == 3 ==> Reopened(None) in seen)
      && (r >= 5 ==> Created(None) in seen || (Reopened(None) in seen && Cut(None) in seen))
      && (r >= 6 ==> Streamed in seen)
      && (r >= 7 && sc.ReadsBack() ==> ReadBack(true) in seen)
      && (r >= 8 && sc.verify == Full ==> SecondRead(true) in seen)
      && (r >= 9 ==> TimesDone(sc, seen, w.src.value.modified))
      && (r >= 10 ==> PermsDone(sc, seen, w.src.value.permissions))
      && (r >= 11 && sc.syncInline ==> Synced(None) in seen)
      && (w.phase == MatchedTemp ==> ReadBack(true) in seen)
      && (r >= 12 ==> w.shown.Some? && Announced(w.shown.value, None) in seen)
  }

  /** What is to be preserved has been applied: successfully if it must be. */
  ghost predicate TimesDone(sc: Script, seen: set<Event>, time: Option<int>) {
    && (sc.times == PreserveStrict ==> TimesSet(time, None) in seen)
    && (sc.times == PreserveDefault ==> exists f :: TimesSet(time, f) in seen)
  }

  ghost predicate PermsDone(sc: Script, seen: set<Event>, perms: Option<int>) {
    && (sc.perms == PreserveStrict ==> PermsSet(perms, None) in seen)
    && (sc.perms == PreserveDefault ==> exists f :: PermsSet(perms, f) in seen)
  }

  /** Which call takes a run from one rank past another, while nothing has failed. */
  predicate Advance(sc: Script, w: Watch, e: Event, v: Watch) {
    var q, r := Reached(w.phase), Reached(v.phase);
    r < 14 ==>
      && q <= r
      && (v.src == w.src || (e.Planned? && v.src == Some(e.src))) && (q >= 1 ==> v.src == w.src)
      && (v.shown == w.shown || e.Announced?) && (q >= 12 ==> v.shown == w.shown)
      && (q < 1 <= r ==> v.src.Some? && e == Planned(v.src.value))
      && (q < 2 <= r ==> e == Claimed(None))
      && (r == 3 ==> q == 3 || e == Reopened(None))
      && (q < 5 <= r ==> e == Created(None) || (e == Cut(None) && q == 3))
      && (q < 6 <= r ==> e == Streamed)
      && (q < 7 <= r && sc.ReadsBack() ==> e == ReadBack(true))
      && (v.phase == MatchedTemp ==> w.phase == MatchedTemp || e == ReadBack(true))
      && (q < 8 <= r && sc.verify == Full ==> e == SecondRead(true))
      && (q < 9 <= r ==> AdvancesTimes(sc, w, e))
      && (q < 10 <= r ==> AdvancesPerms(sc, w, e))
      && (q < 11 <= r && sc.syncInline ==> e == Synced(None))
      && (q < 12 <= r ==> v.shown.Some? && e == Announced(v.shown.value, None))
  }

  predicate AdvancesTimes(sc: Script, w: Watch, e: Event) {
    && (sc.times != PreserveOff ==> w.src.Some? && e.TimesSet? && e.time == w.src.value.modified)
    && (sc.times == PreserveStrict ==> e.TimesSet? && e.fault.None?)
  }

  predicate AdvancesPerms(sc: Script, w: Watch, e: Event) {
    && (sc.perms != PreserveOff ==> w.src.Some? && e.PermsSet? && e.perms == w.src.value.permissions)
    && (sc.perms == PreserveStrict ==> e.PermsSet? && e.fault.None?)
  }

  lemma LockAdvance(sc: Script, w: Watch, e: Event)
    requires Allows(sc, w, e) && (e.BeatCall? || e.GuardCall? || e.Swept?)
    ensures Advance(sc, w, e, Observe(sc, w, e))
  {
    hide Fault, SinkAfter, LeftBehind;
  }

  lemma OpeningAdvance(sc: Script, w: Watch, e: Event)
    requires Allows(sc, w, e) && Early(e) && !OfStreaming(e) && !(e.BeatCall? || e.GuardCall? || e.Swept?)
    ensures Advance(sc, w, e, Observe(sc, w, e))
  {
    hide Fault, SinkAfter, LeftBehind;
  }

  lemma StreamingAdvance(sc: Script, w: Watch, e: Event)
    requires Allows(sc, w, e) && OfStreaming(e)
    ensures Advance(sc, w, e, Observe(sc, w, e))
  {
    hide Fault, SinkAfter, LeftBehind;
  }

  lemma MetadataAdvance(sc: Script, w: Watch, e: Event)
    requires Allows(sc, w, e) && OfMetadata(e)
    ensures Advance(sc, w, e, Observe(sc, w, e))
  {
    hide Fault, SinkAfter, LeftBehind;
    assert MayTimes(sc, w.phase) ==> Reached(w.phase) <= 8;
    assert MayPerms(sc, w.phase) ==> Reached(w.phase) <= 9;
    assert MaySync(sc, w.phase) ==> Reached(w.phase) <= 10;
  }

  lemma RecheckAdvance(sc: Script, w: Watch, e: Event)
    requires Allows(sc, w, e) && e.Rechecked?
    ensures Advance(sc, w, e, Observe(sc, w, e))
  {
    hide Fault, SinkAfter, LeftBehind;
    assert MaySync(sc, w.phase) ==> Reached(w.phase) <= 10;
  }

  lemma LateAdvance(sc: Script, w: Watch, e: Event)
    requires Allows(sc, w, e) && !Early(e) && !OfMetadata(e) && !e.Rechecked?
    ensures Advance(sc, w, e, Observe(sc, w, e))
  {
    hide Fault, SinkAfter, LeftBehind;
  }

  lemma DoneStaysDone(sc: Script, seen: set<Event>, e: Event, w: Watch)
    requires w.src.Some?
    ensures TimesDone(sc, seen, w.src.value.modified) || AdvancesTimes(sc, w, e) ==>
      TimesDone(sc, seen + {e}, w.src.value.modified)
    ensures PermsDone(sc, seen, w.src.value.permissions) || AdvancesPerms(sc, w, e) ==>
      PermsDone(sc, seen + {e}, w.src.value.permissions)
  {
    var time, perms := w.src.value.modified, w.src.value.permissions;
    if sc.times == PreserveDefault && TimesDone(sc, seen, time) {
      var f :| TimesSet(time, f) in seen;
      assert TimesSet(time, f) in seen + {e};
    } else if sc.times == PreserveDefault && AdvancesTimes(sc, w, e) {
      assert TimesSet(time, e.fault) in seen + {e};
    }
    if sc.perms == PreserveDefault && PermsDone(sc, seen, perms) {
      var f :| PermsSet(perms, f) in seen;
      assert PermsSet(perms, f) in seen + {e};
    } else if sc.perms == PreserveDefault && AdvancesPerms(sc, w, e) {
      assert PermsSet(perms, e.fault) in seen + {e};
    }
  }

  lemma BehindStep(sc: Script, seen: set<Event>, w: Watch, e: Event)
    requires Behind(sc, seen, w) && Allows(sc, w, e)
    ensures Behind(sc, seen + {e}, Observe(sc, w, e))
  {
    hide Allows, Observe, Fault, Behind, Advance;
    if e.BeatCall? || e.GuardCall? || e.Swept? {
      LockAdvance(sc, w, e);
    } else if OfStreaming(e) {
      StreamingAdvance(sc, w, e);
    } else if Early(e) {
      OpeningAdvance(sc, w, e);
    } else if OfMetadata(e) {
      MetadataAdvance(sc, w, e);
    } else if e.Rechecked? {
      RecheckAdvance(sc, w, e);
    } else {
      LateAdvance(sc, w, e);
    }
    BlameStep(sc, w, e);
    AdvanceIsBehind(sc, seen, w, e, Observe(sc, w, e));
  }

  lemma AdvanceIsBehind(sc: Script, seen: set<Event>, w: Watch, e: Event, v: Watch)
    requires Behind(sc, seen, w) && Advance(sc, w, e, v)
    requires v.blame.Some? ==> w.blame.Some? || Ending(v.phase)
    ensures Behind(sc, seen + {e}, v)
  {
    hide TimesDone, PermsDone, AdvancesTimes, AdvancesPerms;
    if w.src.Some? {
      DoneStaysDone(sc, seen, e, w);
    }
  }

  ghost function Events(t: seq<Call>, i: nat): set<Event>
    requires i <= |t|
  {
    set k | 0 <= k < i :: t[k].event
  }

  lemma {:induction false} HistoryIsComplete(sc: Script, t: seq<Call>, i: nat)
    requires Lawful(sc, t) && i <= |t|
    ensures Behind(sc, Events(t, i), After(t, i))
  {
    hide Next;
    if i > 0 {
      HistoryIsComplete(sc, t, i - 1);
      assert Linked(t, i - 1) && Good(sc, t[i - 1]);
      BehindStep(sc, Events(t, i - 1), t[i - 1].before, t[i - 1].event);
      assert Events(t, i) == Events(t, i - 1) + {t[i - 1].event};
    }
  }

  /** The four calls that lead to the rename can each only come after the one before. */
  lemma IntoThePublish(sc: Script, w: Watch, e: Event)
    requires Allows(sc, w, e)
    ensures e.Renamed? ==> w.phase == AnnouncedGuard
    ensures Observe(sc, w, e).phase == AnnouncedGuard ==> e == GuardCall(None) && w.phase == AnnouncedBeat
    ensures Observe(sc, w, e).phase == AnnouncedBeat ==> e == BeatCall(None) && w.phase == Announcing
    ensures Observe(sc, w, e).phase == Announcing ==> e.Announced? && e.refusal.None? && w.phase == Confirmed
    ensures !e.Announced? ==> Observe(sc, w, e).shown == w.shown
    ensures Observe(sc, w, e).phase == Confirmed ==>
      e.Rechecked? && e.now.Some? && w.src.Some? && Unchanged(w.src.value, e.now.value)
    ensures Observe(sc, w, e).phase == Published ==> e == Renamed(None)
    ensures !e.Planned? ==> Observe(sc, w, e).src == w.src
  {
    hide Fault, SinkAfter, LeftBehind;
  }

  lemma LeadUp(sc: Script, t: seq<Call>, i: nat)
    requires Lawful(sc, t) && i < |t| && t[i].before.phase in {AnnouncedGuard, AnnouncedBeat, Announcing, Confirmed}
    ensures i > 0 && Good(sc, t[i - 1]) && t[i - 1].after == t[i].before
  {
    assert Linked(t, i);
  }

  /** The last four calls before a rename: the source found unchanged, the announcement, a heartbeat, a guard. */
  lemma TheLastFourCalls(sc: Script, t: seq<Call>, i: nat)
    requires Lawful(sc, t) && i < |t| && t[i].event.Renamed?
    ensures i >= 4 && t[i - 1].event == GuardCall(None) && t[i - 2].event == BeatCall(None)
    ensures t[i - 3].event.Announced? && t[i - 3].event.refusal.None?
    ensures t[i - 4].event.Rechecked? && t[i - 4].event.now.Some? && t[i].before.src.Some?
    ensures t[i - 4].event.now.value.len == t[i].before.src.value.len
    ensures t[i - 4].event.now.value.modified == t[i].before.src.value.modified
  {
    hide Next;
    IntoThePublish(sc, t[i].before, t[i].event);
    LeadUp(sc, t, i);
    IntoThePublish(sc, t[i - 1].before, t[i - 1].event);
    LeadUp(sc, t, i - 1);
    IntoThePublish(sc, t[i - 2].before, t[i - 2].event);
    LeadUp(sc, t, i - 2);
    IntoThePublish(sc, t[i - 3].before, t[i - 3].event);
    LeadUp(sc, t, i - 3);
    IntoThePublish(sc, t[i - 4].before, t[i - 4].event);
  }

  /** A run that reaches the rename made every step its options ask for, each successfully where success is required. */
  lemma ARenameHasItsWholeRun(sc: Script, t: seq<Call>, i: nat)
    requires Lawful(sc, t) && i < |t| && t[i].event.Renamed?
    ensures var seen := Events(t, i);
      && (exists src ::
           && Planned(src) in seen
           && i >= 4 && t[i - 4].event.Rechecked? && t[i - 4].event.now.Some?
           && t[i - 4].event.now.value.len == src.len && t[i - 4].event.now.value.modified == src.modified
           && TimesDone(sc, seen, src.modified) && PermsDone(sc, seen, src.permissions))
      && Claimed(None) in seen && Streamed in seen
      && (Created(None) in seen || (Reopened(None) in seen && Cut(None) in seen))
      && (sc.ReadsBack() ==> ReadBack(true) in seen)
      && (sc.verify == Full ==> SecondRead(true) in seen)
      && (sc.syncInline ==> Synced(None) in seen)
  {
    hide Next, Fault;
    TheLastFourCalls(sc, t, i);
    IntoThePublish(sc, t[i].before, t[i].event);
    assert Linked(t, i);
    HistoryIsComplete(sc, t, i);
    assert Planned(t[i].before.src.value) in Events(t, i);
  }

  /** A published run ends with its rename, so the lemmas above speak of it. */
  lemma PublishedEndsInTheRename(sc: Script, t: seq<Call>)
    requires Lawful(sc, t) && After(t, |t|).phase == Published
    ensures |t| > 0 && t[|t| - 1].event == Renamed(None)
  {
    assert |t| > 0 && Good(sc, t[|t| - 1]);
    IntoThePublish(sc, t[|t| - 1].before, t[|t| - 1].event);
  }

  lemma BlameStep(sc: Script, w: Watch, e: Event)
    requires Allows(sc, w, e)
    ensures w.blame.Some? ==> Observe(sc, w, e).blame == w.blame
    ensures w.blame.None? ==> Observe(sc, w, e).blame == Fault(sc, w, e)
    ensures Fault(sc, w, e).Some? ==> Ending(Observe(sc, w, e).phase)
  {
  }

  /** The failure a run reports is its first one: whatever goes wrong in clearing up never displaces it. */
  lemma {:induction false} TheFirstFaultIsTheOneReported(sc: Script, t: seq<Call>, i: nat, j: nat)
    requires Lawful(sc, t) && i < j <= |t| && t[i].before.blame.None? && Fault(sc, t[i].before, t[i].event).Some?
    ensures After(t, j).blame == Fault(sc, t[i].before, t[i].event)
    decreases j
  {
    hide Next;
    if j == i + 1 {
      BlameStep(sc, t[i].before, t[i].event);
    } else {
      TheFirstFaultIsTheOneReported(sc, t, i, j - 1);
      assert Linked(t, j - 1);
      BlameStep(sc, t[j - 1].before, t[j - 1].event);
    }
  }

  // ---------------------------------------------------------------------------------------------
  // What is kept, what is left behind, and what was asked for

  predicate LogFails(e: Event) { e.SinkCall? && e.answer == SinkWal }

  lemma KeptStep(sc: Script, w: Watch, e: Event)
    requires Allows(sc, w, e)
    ensures Observe(sc, w, e).phase == Kept <==> w.phase == Kept || LogFails(e)
  {
    hide Fault, SinkAfter, LeftBehind;
  }

  /** A run keeps its temporary for a resume exactly if the checkpoint log failed. */
  lemma {:induction false} KeptIffTheLogFailed(sc: Script, t: seq<Call>, i: nat)
    requires Lawful(sc, t) && i <= |t|
    ensures After(t, i).phase == Kept <==> exists k | 0 <= k < i :: LogFails(t[k].event)
  {
    hide Next, Fault, Observe;
    if i > 0 {
      KeptIffTheLogFailed(sc, t, i - 1);
      assert Linked(t, i - 1) && Good(sc, t[i - 1]);
      KeptStep(sc, t[i - 1].before, t[i - 1].event);
    }
  }

  /** The end of a run that had a temporary to clear away: without the lock it stays, otherwise its removal is tried. */
  predicate ClearsAway(e: Event) {
    e.Removed? || (e.GuardCall? && e.fault.Some?)
  }

  lemma DoomedStep(sc: Script, w: Watch, e: Event)
    requires Allows(sc, w, e) && w.phase == Doomed
    ensures Observe(sc, w, e).phase == if ClearsAway(e) then Over else Doomed
  {
    hide Fault, SinkAfter, LeftBehind;
  }

  /** A run that must clear away its temporary is over exactly with the attempt. */
  lemma {:induction false} DoomedIsClearedAway(sc: Script, t: seq<Call>, i: nat, j: nat)
    requires Lawful(sc, t) && i <= j <= |t| && After(t, i).phase == Doomed
    ensures After(t, j).phase == Doomed || After(t, j).phase == Over
    ensures After(t, j).phase == Over <==> exists k | i <= k < j :: ClearsAway(t[k].event)
    decreases j
  {
    hide Next, Fault, Observe;
    if i < j {
      DoomedIsClearedAway(sc, t, i, j - 1);
      assert Linked(t, j - 1) && Good(sc, t[j - 1]);
      if After(t, j - 1).phase == Over {
        EndingStep(sc, t[j - 1].before, t[j - 1].event);
      } else {
        DoomedStep(sc, t[j - 1].before, t[j - 1].event);
      }
    }
  }

  lemma SinkDataStep(sc: Script, w: Watch, e: Event)
    requires Allows(sc, w, e) && e.SinkCall? && e.answer == SinkData
    ensures w.phase == Writing && Observe(sc, w, e).phase == Doomed
    ensures Fault(sc, w, e) == Some(Blame(AtDurability, StrictDurabilityUnavailable))
  {
  }

  /** A failed sync of the data is reported as such, and the temporary is not kept. */
  lemma ADataFailureDiscards(sc: Script, t: seq<Call>, i: nat)
    requires Lawful(sc, t) && i < |t| && t[i].event.SinkCall? && t[i].event.answer == SinkData
    ensures After(t, |t|).blame == Some(Blame(AtDurability, StrictDurabilityUnavailable))
    ensures After(t, |t|).phase == Doomed || After(t, |t|).phase == Over
  {
    hide Next, Fault, Observe;
    assert Linked(t, i) && Good(sc, t[i]);
    SinkDataStep(sc, t[i].before, t[i].event);
    HistoryIsComplete(sc, t, i);
    TheFirstFaultIsTheOneReported(sc, t, i, |t|);
    DoomedIsClearedAway(sc, t, i + 1, |t|);
  }

  /** A refusal by a hook of the run. */
  predicate Refuses(e: Event) { (e.Claimed? || e.Announced?) && e.refusal.Some? }

  /** The temporary of a run that had opened it could not be cleared away: the lock was lost, or the removal failed. */
  predicate LeavesTemp(c: Call) {
    (c.event.GuardCall? && c.event.fault.Some? && c.before.isOpen) || (c.event.Removed? && c.event.fault.Some?)
  }

  lemma LeftoverStep(sc: Script, w: Watch, e: Event)
    requires Allows(sc, w, e)
    ensures Refuses(e) ==> Ending(Observe(sc, w, e).phase) && Observe(sc, w, e).leftover == e.refusal.value.leftover
    ensures LeavesTemp(Call(w, e, w, None)) ==>
      Observe(sc, w, e).leftover == Some(TempPath) && Observe(sc, w, e).phase == Over
    ensures !Refuses(e) && !LeavesTemp(Call(w, e, w, None)) ==> Observe(sc, w, e).leftover == w.leftover
    ensures Ending(w.phase) ==> !Refuses(e)
  {
  }

  /**
   What an error names as left behind, in terms of the log: the temporary if the last call could not clear it away;
   otherwise what the one refusal named, if there was one; otherwise nothing.
   */
  lemma {:induction false} LeftoverIsLogged(sc: Script, t: seq<Call>, i: nat, k: nat)
    requires Lawful(sc, t) && k < i <= |t|
    ensures LeavesTemp(t[k]) ==> k == i - 1 && After(t, i).leftover == Some(TempPath)
    ensures Refuses(t[k].event) && !LeavesTemp(t[i - 1]) ==> After(t, i).leftover == t[k].event.refusal.value.leftover
    ensures Refuses(t[k].event) ==> Ending(After(t, i).phase)
    decreases i
  {
    hide Next, Fault, Observe;
    var c := t[i - 1];
    assert Linked(t, i - 1) && Good(sc, c);
    LeftoverStep(sc, c.before, c.event);
    if k < i - 1 {
      LeftoverIsLogged(sc, t, i - 1, k);
      assert Good(sc, t[k]);
      if Ending(c.before.phase) {
        EndingStep(sc, c.before, c.event);
      }
      if LeavesTemp(t[i - 2]) {
        LeftoverIsLogged(sc, t, i - 1, i - 2);
        assert Linked(t, i - 2) && Good(sc, t[i - 2]);
        LeftoverStep(sc, t[i - 2].before, t[i - 2].event);
      }
    }
  }

  /** Without a refusal, and with the temporary cleared away, nothing is named. */
  lemma {:induction false} NothingIsNamedFalsely(sc: Script, t: seq<Call>, i: nat)
    requires Lawful(sc, t) && i <= |t| && forall k | 0 <= k < i :: !Refuses(t[k].event) && !LeavesTemp(t[k])
    ensures After(t, i).leftover == None
  {
    hide Next, Fault, Observe;
    if i > 0 {
      NothingIsNamedFalsely(sc, t, i - 1);
      assert Linked(t, i - 1) && Good(sc, t[i - 1]);
      LeftoverStep(sc, t[i - 1].before, t[i - 1].event);
    }
  }

  /** Whether the run made this call. */
  ghost predicate Made(t: seq<Call>, e: Event) {
    exists i | 0 <= i < |t| :: t[i].event == e
  }

  /** What a run may not do unasked. */
  lemma OnlyWhatWasAsked(sc: Script, w: Watch, e: Event)
    requires Allows(sc, w, e)
    ensures e.TimesSet? ==> sc.times != PreserveOff
    ensures e.PermsSet? ==> sc.perms != PreserveOff
    ensures e.Synced? ==> sc.syncInline
  {
  }

  lemma MissedStep(sc: Script, w: Watch, e: Event)
    requires Allows(sc, w, e)
    ensures var m := Observe(sc, w, e).missed; var failed := (e.TimesSet? || e.PermsSet?) && e.fault.Some?;
      && (Times in m <==> Times in w.missed || (e.TimesSet? && failed && sc.times == PreserveDefault))
      && (Permissions in m <==> Permissions in w.missed || (e.PermsSet? && failed && sc.perms == PreserveDefault))
  {
  }

  /** What is reported as not preserved is what was tried, without success, where that is allowed. */
  lemma {:induction false} MissedIsLogged(sc: Script, t: seq<Call>, i: nat)
    requires Lawful(sc, t) && i <= |t|
    ensures sc.times == PreserveDefault ==>
      (Times in After(t, i).missed <==> exists k | 0 <= k < i :: t[k].event.TimesSet? && t[k].event.fault.Some?)
    ensures sc.perms == PreserveDefault ==>
      (Permissions in After(t, i).missed <==> exists k | 0 <= k < i :: t[k].event.PermsSet? && t[k].event.fault.Some?)
    ensures sc.times != PreserveDefault ==> Times !in After(t, i).missed
    ensures sc.perms != PreserveDefault ==> Permissions !in After(t, i).missed
  {
    hide Next, Fault, Observe;
    if i > 0 {
      MissedIsLogged(sc, t, i - 1);
      assert Linked(t, i - 1) && Good(sc, t[i - 1]);
      MissedStep(sc, t[i - 1].before, t[i - 1].event);
    }
  }
}
