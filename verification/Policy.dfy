/** The read-only prelude of a copy (crates/flux-core/src/copy.rs): the identity gate and the existing-target policy. */
module Policy {
  import opened Basics
  import opened Protocol
  import opened Destination

  datatype Safety = SafetyDefault | SafetyStrict

  datatype Existing = Overwrite | Update | SkipExisting

  datatype Options = Options(
    safety: Safety, noReplace: bool, existing: Existing, verify: VerifyLevel, times: Preserve, perms: Preserve,
    strictDurability: bool)

  const COPY_BUF_MAX: nat := 256 * 1024
  const COPY_BUF_MIN: nat := 4 * 1024

  function Apart(a: nat, b: nat): nat { if a < b then b - a else a - b }

  /** The copy buffer's length: never 0, so that a read of 0 bytes always means the end of the source. */
  function CopyBufferLen(len: nat): (n: nat)
    ensures COPY_BUF_MIN <= n <= COPY_BUF_MAX
    ensures forall m: nat | COPY_BUF_MIN <= m <= COPY_BUF_MAX :: Apart(n, len) <= Apart(m, len)
  {
    if len < COPY_BUF_MIN then COPY_BUF_MIN else if len > COPY_BUF_MAX then COPY_BUF_MAX else len
  }

  /** The less trustworthy of two identities; between two weak ones the destination's. */
  function Weaker(src: FileIdentity, dst: FileIdentity): FileIdentity {
    if src.Unavailable? || dst.Unavailable? then Unavailable
    else if dst.Weak? then dst
    else src
  }

  /** 0 for an identity that proves nothing, 2 for one that can be compared. */
  function Trust(i: FileIdentity): nat {
    match i
    case Unavailable => 0
    case Weak(_) => 1
    case Strong(_) => 2
  }

  lemma WeakerIsTheLeastTrusted(s: FileIdentity, d: FileIdentity)
    ensures Weaker(s, d) == s || Weaker(s, d) == d
    ensures Trust(Weaker(s, d)) <= Trust(s) && Trust(Weaker(s, d)) <= Trust(d)
    ensures Trust(s) == Trust(d) == 1 ==> Weaker(s, d) == d
  {
  }

  datatype GateRead = Passed(degraded: Option<FileIdentity>, existing: Option<Metadata>) | RefusedBy(code: Code)

  function Degraded(safety: Safety, weaker: FileIdentity, existing: Option<Metadata>): GateRead {
    if safety == SafetyDefault then Passed(Some(weaker), existing) else RefusedBy(SafetyRejected)
  }

  /** The rows of the gate's table, in the order they are evaluated. */
  function IdentityGate(dest: Stat, src: Metadata, safety: Safety, noReplace: bool): GateRead {
    match dest
    case NotFound => Passed(None, None)
    case StatFailed(_) => Degraded(safety, Unavailable, None)
    case StatOk(m) =>
      if m.fileType == Dir then RefusedBy(SafetyRejected)
      else if src.identity.Strong? && m.identity.Strong? && src.identity.id == m.identity.id
      then RefusedBy(SafetyRejected)
      else
        var verdict :=
          if src.identity.Strong? && m.identity.Strong? then Passed(None, Some(m))
          else Degraded(safety, Weaker(src.identity, m.identity), Some(m));
        if verdict.Passed? && noReplace then RefusedBy(IoError) else verdict
  }

  /** Strict safety lets through exactly an absent target, and a replaceable one proven to be another object. */
  lemma StrictGateIsExact(dest: Stat, src: Metadata, noReplace: bool)
    ensures IdentityGate(dest, src, SafetyStrict, noReplace).Passed? <==>
      || dest.NotFound?
      || (&& dest.StatOk? && dest.meta.fileType != Dir && !noReplace
          && src.identity.Strong? && dest.meta.identity.Strong? && src.identity.id != dest.meta.identity.id)
    ensures IdentityGate(dest, src, SafetyStrict, noReplace).Passed? ==>
      IdentityGate(dest, src, SafetyStrict, noReplace).degraded.None?
  {
  }

  /** Default safety lets more through, and says so exactly when the comparison was not one of strong identities. */
  lemma DefaultGateIsExact(dest: Stat, src: Metadata, noReplace: bool)
    ensures
      var g := IdentityGate(dest, src, SafetyDefault, noReplace);
      var comparable := dest.StatOk? && src.identity.Strong? && dest.meta.identity.Strong?;
      var same := comparable && src.identity.id == dest.meta.identity.id;
      var mayReplace := dest.StatOk? && dest.meta.fileType != Dir && !noReplace && !same;
      && (g.Passed? <==> (!dest.StatOk? || mayReplace))
      && (g.Passed? ==> (g.degraded.Some? <==> (!dest.NotFound? && !comparable)))
      && (g.Passed? && g.degraded.Some? ==> Trust(g.degraded.value) < 2)
      && (g.Passed? && dest.StatFailed? ==> g.degraded == Some(Unavailable))
      && (g.Passed? && dest.StatOk? && g.degraded.Some? ==>
            var s, d, w := src.identity, dest.meta.identity, g.degraded.value;
            (w == s || w == d) && Trust(w) <= Trust(s) && Trust(w) <= Trust(d) && (s.Weak? && d.Weak? ==> w == d))
  {
  }

  datatype FilePlan =
    | Proceed(degraded: Option<FileIdentity>)
    | SkipFile(degraded: Option<FileIdentity>)
    | Refuse(blame: Blame)

  function Newer(a: Option<int>, b: Option<int>): bool {
    a.Some? && b.Some? && a.value > b.value
  }

  /** Step 2b: what the policy says of an existing target. */
  predicate PolicySkips(existing: Existing, src: Metadata, dest: Metadata) {
    match existing
    case Overwrite => false
    case SkipExisting => true
    case Update => !(src.len != dest.len || Newer(src.modified, dest.modified))
  }

  /** `plan_file` over a source that was read. */
  function PlanFile(src: Metadata, dest: Stat, o: Options): FilePlan {
    if src.fileType != File then Refuse(Blame(AtSource, SpecialFileUnsupported))
    else
      match IdentityGate(dest, src, o.safety, o.noReplace)
      case RefusedBy(c) => Refuse(Blame(AtGate, c))
      case Passed(d, e) =>
        if e.Some? && PolicySkips(o.existing, src, e.value) then SkipFile(d) else Proceed(d)
  }

  /** An existing target that the gate lets through is never copied over under `skip`, and always under `overwrite`. */
  lemma SkipNeverReplaces(src: Metadata, dest: Metadata, o: Options)
    requires src.fileType == File && IdentityGate(StatOk(dest), src, o.safety, o.noReplace).Passed?
    ensures o.existing == SkipExisting ==> PlanFile(src, StatOk(dest), o).SkipFile?
    ensures o.existing == Overwrite ==> PlanFile(src, StatOk(dest), o).Proceed?
  {
  }

  /**
   Every refusal: of a source that is no regular file, of a target that is a directory or the source itself, of one
   that cannot be told from the source where that is demanded, and, last of all, of any other target under no-replace.
   */
  lemma RefusalsAreExact(src: Metadata, dest: Stat, o: Options)
    ensures var plan := PlanFile(src, dest, o);
      var comparable := dest.StatOk? && src.identity.Strong? && dest.meta.identity.Strong?;
      var same := comparable && src.identity.id == dest.meta.identity.id;
      var barred := dest.StatOk? && (dest.meta.fileType == Dir || same);
      var doubtful := !dest.NotFound? && !comparable && o.safety == SafetyStrict;
      if src.fileType != File then plan == Refuse(Blame(AtSource, SpecialFileUnsupported))
      else if barred || doubtful then plan == Refuse(Blame(AtGate, SafetyRejected))
      else if dest.StatOk? && o.noReplace then plan == Refuse(Blame(AtGate, IoError))
      else !plan.Refuse?
  {
  }

  /**
   Over a target that is a copy of the source as it was (`was`), with its length and time, a later run under `update`
   that the gate lets through copies again exactly when the source has since got another length or is known to be
   newer; where either time is missing the lengths alone decide.
   */
  lemma UpdateFollowsTheSource(was: Metadata, now: Metadata, dest: Metadata, o: Options)
    requires now.fileType == File && o.existing == Update
    requires IdentityGate(StatOk(dest), now, o.safety, o.noReplace).Passed?
    requires dest.len == was.len && dest.modified == was.modified
    ensures var degraded := IdentityGate(StatOk(dest), now, o.safety, o.noReplace).degraded;
      var later := now.modified.Some? && was.modified.Some? && now.modified.value > was.modified.value;
      PlanFile(now, StatOk(dest), o) ==
      if now.len != was.len || later then Proceed(degraded) else SkipFile(degraded)
    ensures now.modified.None? || was.modified.None? ==>
      (PlanFile(now, StatOk(dest), o).Proceed? <==> now.len != was.len)
  {
  }

  /** A copy that kept the source's time is not made again under `update`, and always is under `overwrite`. */
  lemma ACurrentCopyIsNotRepeated(src: Metadata, dest: Metadata, o: Options)
    requires src.fileType == dest.fileType == File && !o.noReplace
    requires src.identity.Strong? && dest.identity.Strong? && src.identity.id != dest.identity.id
    requires dest.len == src.len && dest.modified == src.modified
    ensures PlanFile(src, StatOk(dest), o) == if o.existing == Overwrite then Proceed(None) else SkipFile(None)
  {
  }
}
