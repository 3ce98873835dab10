/**
 The world one copy runs in: the destination directory as names and objects, the source file, the lock, the
 hooks of the run, and the log of calls. Every primitive may fail, with any code, at every call.

 Nothing else changes the destination while the run works in it (it holds the destination's lock); the source
 may change at any time unless `stable`, and the device may store other bytes than it was given unless `faithful`.
 In a `calm` world no call fails of itself: what then still goes wrong goes wrong for a reason on the disk.
 */
module Destination {
  import opened Basics
  import opened Protocol
  import opened Readers

  datatype Name = Target | Temp

  /** Directory entries, and for every object its bytes, its type and the number of its names. */
  datatype Disk = Disk(
    names: map<Name, ObjectId>, data: map<ObjectId, Bytes>, kinds: map<ObjectId, FileType>, links: map<ObjectId, nat>)
  {
    predicate Backed(n: Name) {
      n in names ==> names[n] in data && names[n] in kinds && names[n] in links && links[names[n]] >= 1
    }

    predicate WellFormed() {
      && Backed(Target) && Backed(Temp)
      && (Target in names && Temp in names && names[Target] == names[Temp] ==> links[names[Temp]] >= 2)
      && data.Keys == kinds.Keys == links.Keys
    }

    /** The temporary's object has no other name, so writing through it changes nothing else. */
    predicate SoleTemp() {
      Temp in names && names[Temp] in links && links[names[Temp]] == 1
    }

    function TempBytes(): Bytes
      requires Temp in names && Backed(Temp)
    {
      data[names[Temp]]
    }
  }

  /** The temporary's name removed. */
  function WithoutTemp(d: Disk): (r: Disk)
    requires d.WellFormed() && Temp in d.names
    ensures r.WellFormed() && r.names == d.names - {Temp} && r.data == d.data
  {
    var id := d.names[Temp];
    d.(names := d.names - {Temp}, links := d.links[id := d.links[id] - 1])
  }

  /** A new, empty file at the temporary's name. */
  function WithTemp(d: Disk, id: ObjectId): (r: Disk)
    requires d.WellFormed() && Temp !in d.names && id !in d.data
    ensures r.WellFormed() && r.SoleTemp() && r.TempBytes() == []
  {
    d.(names := d.names[Temp := id], data := d.data[id := []], kinds := d.kinds[id := File], links := d.links[id := 1])
  }

  /** The temporary's object takes the target's name. */
  function Moved(d: Disk): (r: Disk)
    requires d.WellFormed() && d.SoleTemp()
    ensures r.WellFormed() && r.names == map[Target := d.names[Temp]] && r.data == d.data
  {
    var links := if Target in d.names then d.links[d.names[Target] := d.links[d.names[Target]] - 1] else d.links;
    d.(names := map[Target := d.names[Temp]], links := links)
  }

  function WithTempBytes(d: Disk, b: Bytes): (r: Disk)
    requires d.WellFormed() && Temp in d.names
    ensures r.WellFormed() && r.names == d.names && r.links == d.links && r.TempBytes() == b
    ensures forall id | id in d.data && id != d.names[Temp] :: id in r.data && r.data[id] == d.data[id]
  {
    d.(data := d.data[d.names[Temp] := b])
  }

  /** What a write of `b` at `at` makes of a file. */
  function Spliced(was: Bytes, at: nat, b: Bytes): Bytes
    requires at <= |was|
  {
    was[..at] + b + (if at + |b| <= |was| then was[at + |b|..] else [])
  }

  /** What the target's name leads to. */
  function TargetView(d: Disk): View
    requires d.WellFormed()
  {
    if Target in d.names then Some((d.names[Target], d.data[d.names[Target]], d.kinds[d.names[Target]])) else None
  }

  /** The temporary is this run's own: an object it made, or the only name of what an earlier run left. */
  predicate OwnTemp(d0: Disk, d: Disk) {
    d.SoleTemp() && (d.names[Temp] !in d0.data || (d0.SoleTemp() && d0.names[Temp] == d.names[Temp]))
  }

  /** From `d0` to `d1` no object changed its bytes, except one that only the temporary's name led to. */
  ghost predicate Untouched(d0: Disk, d1: Disk) {
    forall id | id in d0.data :: id in d1.data &&
      (d1.data[id] == d0.data[id] || (d0.SoleTemp() && d0.names[Temp] == id))
  }

  /** Neither the target nor any object but the run's own temporary has changed since `d0`. */
  ghost predicate Safe(d0: Disk, d: Disk) {
    d0.WellFormed() && d.WellFormed() && TargetView(d0) == TargetView(d) && Untouched(d0, d)
  }

  lemma WriteIsSafe(d0: Disk, d: Disk, b: Bytes)
    requires Safe(d0, d) && OwnTemp(d0, d)
    ensures Safe(d0, WithTempBytes(d, b)) && OwnTemp(d0, WithTempBytes(d, b))
  {
    assert Target in d.names ==> d.names[Target] != d.names[Temp];
  }

  lemma SweepIsSafe(d0: Disk, d: Disk, swept: Disk)
    requires Safe(d0, d) && (swept == d || (Temp in d.names && swept == WithoutTemp(d)))
    ensures Safe(d0, swept)
  {
  }

  lemma CreateIsSafe(d0: Disk, d: Disk, id: ObjectId)
    requires Safe(d0, d) && Temp !in d.names && id !in d.data
    ensures Safe(d0, WithTemp(d, id)) && OwnTemp(d0, WithTemp(d, id))
  {
    assert Target in d.names ==> d.names[Target] != id;
  }

  /** What is done to the temporary is not seen at the target's name. */
  lemma SweepKeepsTheTarget(d: Disk)
    requires d.WellFormed() && Temp in d.names
    ensures TargetView(WithoutTemp(d)) == TargetView(d)
  {
  }

  lemma CreateKeepsTheTarget(d: Disk, id: ObjectId)
    requires d.WellFormed() && Temp !in d.names && id !in d.data
    ensures TargetView(WithTemp(d, id)) == TargetView(d)
  {
    assert Target in d.names ==> d.names[Target] != id;
  }

  lemma WriteKeepsTheTarget(d: Disk, b: Bytes)
    requires d.WellFormed() && d.SoleTemp()
    ensures TargetView(WithTempBytes(d, b)) == TargetView(d)
  {
    assert Target in d.names ==> d.names[Target] != d.names[Temp];
  }

  datatype Stat = StatOk(meta: Metadata) | NotFound | StatFailed(code: Code)
  {
    function Seen(): Option<Metadata> { if StatOk? then Some(meta) else None }

    function Fault(): Option<Code> { if StatFailed? then Some(code) else None }
  }

  /** What a look at a name answers: `m`, with what the disk says of the entry's length, type, object and names. */
  function EntryStat(d: Disk, n: Name, m: Metadata): Stat
    requires d.WellFormed()
  {
    if n !in d.names then NotFound
    else
      assert n == Target || n == Temp;
      var id := d.names[n];
      StatOk(m.(
        len := |d.data[id]|, fileType := d.kinds[id],
        identity := if m.identity.Strong? then Strong(id) else m.identity,
        nlink := if m.nlink.Some? then Some(d.links[id]) else None))
  }

  /** Whether the temporary is the regular file of that identity. */
  predicate Reopens(d: Disk, expected: FileIdentity)
    requires d.WellFormed()
  {
    && Temp in d.names && d.Backed(Temp) && d.kinds[d.names[Temp]] == File && !expected.Unavailable?
    && (expected.Strong? ==> expected.id == d.names[Temp])
  }

  /** A file's checkpoints as the log replays them, and what reading the log answers. */
  datatype FileState = FileState(len: nat, mtime: Option<int>, identity: Bytes, digests: map<nat, Digest>)

  datatype Loaded = LoadNothing | LoadFailed | LoadState(state: FileState)

  /** Some object that is not there yet. */
  method FreshObject(taken: set<ObjectId>) returns (id: ObjectId)
    ensures id !in taken
  {
    var rest, bound: nat := taken, 0;
    while rest != {}
      invariant rest <= taken && forall o | o in taken - rest :: o.volume < bound
    {
      var o :| o in rest;
      if o.volume >= bound {
        bound := o.volume + 1;
      }
      rest := rest - {o};
    }
    id := ObjectId(bound, 0);
  }

  /** Every call found the same target. */
  ghost predicate Steady(t: seq<Call>, target: View) {
    forall i | 0 <= i < |t| :: t[i].target == target
  }

  lemma StaysSteady(t: seq<Call>, c: Call, target: View)
    requires Steady(t, target) && c.target == target
    ensures Steady(t + [c], target)
  {
  }

  class World {
    const script: Script
    const hash: Bytes -> Digest
    const identityText: FileIdentity -> Bytes
    const sourceId: ObjectId
    const sourceTime: Option<int>
    const source: Bytes
    const stable: bool
    const faithful: bool
    const noReplace: bool
    const calm: bool
    /** What a calm world answers about the source, about the entries where the disk does not say, and its log. */
    const sourceMeta: Metadata
    const targetMeta: Metadata
    const tempMeta: Metadata
    const log: Loaded

    var disk: Disk
    /** The open writer of the temporary: where its next write goes. */
    var at: nat
    ghost var trace: seq<Call>
    ghost var watch: Watch
    /** The target as the run began. */
    ghost const first: View

    ghost predicate Valid()
      reads this
      ensures Valid() ==> disk.WellFormed() && (calm ==> Settles())
    {
      && disk.WellFormed() && Lawful(script, trace) && watch == After(trace, |trace|) && (calm ==> Settles())
      && Steady(trace, first) && (watch.phase != Published ==> TargetView(disk) == first)
    }

    predicate Settles() {
      && stable && faithful
      && sourceMeta.len == |source| && sourceMeta.modified == sourceTime
      && (sourceMeta.identity.Strong? ==> sourceMeta.identity.id == sourceId)
    }

    constructor (script: Script, hash: Bytes -> Digest, identityText: FileIdentity -> Bytes, sourceId: ObjectId,
                 sourceTime: Option<int>, source: Bytes, stable: bool, faithful: bool, noReplace: bool, disk: Disk,
                 calm: bool, sourceMeta: Metadata, targetMeta: Metadata, tempMeta: Metadata, log: Loaded)
      requires disk.WellFormed()
      requires calm ==> stable && faithful && sourceMeta.len == |source| && sourceMeta.modified == sourceTime
      requires calm && sourceMeta.identity.Strong? ==> sourceMeta.identity.id == sourceId
      ensures this.calm == calm && this.sourceMeta == sourceMeta && this.targetMeta == targetMeta
      ensures this.tempMeta == tempMeta && this.log == log
      ensures Valid() && trace == [] && watch == INITIAL && this.disk == disk && this.script == script
      ensures this.hash == hash && this.source == source && this.stable == stable && this.faithful == faithful
      ensures this.noReplace == noReplace && this.sourceId == sourceId && this.sourceTime == sourceTime
    {
      this.script, this.hash, this.identityText, this.sourceId := script, hash, identityText, sourceId;
      this.sourceTime, this.source, this.stable, this.faithful := sourceTime, source, stable, faithful;
      this.noReplace, this.disk, at, trace, watch := noReplace, disk, 0, [], INITIAL;
      this.calm, this.sourceMeta, this.targetMeta := calm, sourceMeta, targetMeta;
      this.tempMeta, this.log := tempMeta, log;
      first := TargetView(disk);
    }

    /** A call is logged, and must be one the protocol allows here. */
    ghost method Note(e: Event)
      requires Valid() && Allows(script, watch, e)
      requires watch.phase != Published
      modifies this`trace, this`watch
      ensures Valid() && watch == Observe(script, old(watch), e) && Adds(old(trace), trace, e)
    {
      hide Next, Fault, Observe, Steady, TargetView, Lawful;
      var target := TargetView(disk);
      var c := Call(watch, e, Observe(script, watch, e), target);
      Extend(script, trace, e, target);
      StaysSteady(trace, c, first);
      trace := trace + [c];
      watch := Observe(script, watch, e);
    }

    // ------------------------------------------------------------------------------ lock and hooks

    method Beat() returns (f: Option<Code>)
      requires Valid() && MayBeat(watch.phase)
      modifies this`trace, this`watch
      ensures Valid()
      ensures f.None? ==> watch == To(old(watch), BeatTo(old(watch).phase))
      ensures f.Some? ==> watch == Blamed(old(watch), BeatLost(old(watch).phase), Blame(AtHeartbeat, f.value))
      ensures calm ==> f.None?
    {
      hide Lawful, Steady, TargetView;
      f :| true;
      if calm {
        f := None;
      }
      Note(BeatCall(f));
    }

    method Guard() returns (f: Option<Code>)
      requires Valid() && MayGuard(watch)
      modifies this`trace, this`watch
      ensures Valid()
      ensures f.None? ==> watch == Cleared(script, old(watch))
      ensures f.Some? ==>
        var step := if old(watch).phase == AnnouncedBeat then AtPublish else AtCreate;
        var named := if old(watch).isOpen then Some(TempPath) else old(watch).leftover;
        watch == Blamed(old(watch), Over, Blame(step, f.value)).(held := false, leftover := named)
      ensures Adds(old(trace), trace, GuardCall(f))
      ensures calm ==> f.None?
    {
      hide Lawful, Steady, TargetView;
      f :| true;
      if calm {
        f := None;
      }
      Note(GuardCall(f));
    }

    /** `before_create`: the claim. Its refusal is an error of its own making. */
    method Claim() returns (e: Option<CopyError>)
      requires Valid() && watch.phase == PlanGuard && watch.cleared
      modifies this`trace, this`watch
      ensures Valid()
      ensures e.None? ==> watch == To(old(watch), Owned)
      ensures e.Some? ==>
        watch == Blamed(old(watch), Over, Blame(e.value.step, e.value.code)).(leftover := e.value.leftover)
      ensures calm ==> e.None?
    {
      hide Lawful, Steady, TargetView;
      e :| true;
      if calm {
        e := None;
      }
      Note(Claimed(e));
    }

    /** `before_publish`, shown the temporary's identity. */
    method Announce(identity: FileIdentity) returns (e: Option<CopyError>)
      requires Valid() && watch.phase == Confirmed && Temp in disk.names
      requires identity.Strong? ==> identity.id == disk.names[Temp]
      modifies this`trace, this`watch
      ensures Valid()
      ensures e.None? ==> watch == To(old(watch), Announcing).(shown := Some(identity))
      ensures e.Some? ==>
        var blame := Blame(e.value.step, e.value.code);
        watch == Blamed(old(watch), Doomed, blame).(leftover := e.value.leftover, shown := Some(identity))
      ensures Adds(old(trace), trace, Announced(identity, e))
      ensures calm ==> e.None?
    {
      hide Lawful, Steady, TargetView;
      e :| true;
      if calm {
        e := None;
      }
      Note(Announced(identity, e));
    }

    /** The plan refuses the file. */
    ghost method TurnDown(b: Blame)
      requires Valid() && watch.phase == Settled && (b.step == AtSource || b.step == AtGate)
      modifies this`trace, this`watch
      ensures Valid() && watch == Blamed(old(watch), Over, b)
    {
      hide Lawful, Steady, TargetView;
      Note(TurnedDown(b));
    }

    /** A stat or an opening has failed. */
    ghost method LookFault(c: Code)
      requires Valid() && MayLook(watch.phase)
      modifies this`trace, this`watch
      ensures Valid() && watch == Blamed(old(watch), FailTo(old(watch).phase), LookBlame(old(watch).phase, c))
    {
      hide Lawful, Steady, TargetView;
      Note(LookFailed(c));
    }

    /** The last read of `r` has failed, and the run with it. */
    ghost method ReadFault(r: Reader)
      requires Valid() && MayRead(watch.phase) && r.answer.Some?
      modifies this`trace, this`watch
      ensures Valid()
      ensures watch == Blamed(old(watch), FailTo(old(watch).phase), ReadBlame(old(watch).phase, r.answer.value))
    {
      hide Lawful, Steady, TargetView;
      Note(ReadFailed(r.answer.value));
    }

    /** The plan to proceed, over the source as it was read. */
    ghost method Proceed(src: Metadata)
      requires Valid() && watch.phase == Settled
      modifies this`trace, this`watch
      ensures Valid() && watch == To(old(watch), Plan).(src := Some(src))
    {
      hide Lawful, Steady, TargetView;
      Note(Planned(src));
    }

    ghost method Skip()
      requires Valid() && watch.phase == Settled
      modifies this`trace, this`watch
      ensures Valid() && watch == To(old(watch), if script.checkpointed then Skipping else Over)
    {
      hide Lawful, Steady, TargetView;
      Note(Skipped);
    }

    /** The end of the stream, with everything read written and the checkpoints closed. */
    ghost method Drain()
      requires Valid() && watch.phase == Writing && !watch.sink.SinkOpen?
      requires watch.sink.SinkClosed? ==> watch.sink.bytes == watch.written
      modifies this`trace, this`watch
      ensures Valid() && watch == To(old(watch), Drained)
    {
      hide Lawful, Steady, TargetView;
      Note(Streamed);
    }

    /** A second look at the source: its length and its time must be those that were planned. */
    method Recheck(src: Metadata) returns (now: Stat)
      requires Valid() && watch.src == Some(src)
      requires (watch.phase == Drained && script.ReadsBack()) || MayConfirm(script, watch.phase)
      modifies this`trace, this`watch
      ensures Valid()
      ensures var same := now.StatOk? && now.meta.len == src.len && now.meta.modified == src.modified;
        var code := if now.StatFailed? then now.code else SourceChanged;
        watch ==
        if same then To(old(watch), if MayConfirm(script, old(watch).phase) then Confirmed else Prechecked)
        else Blamed(old(watch), Doomed, Blame(AtRecheck, code))
      ensures Adds(old(trace), trace, Rechecked(now.Seen(), now.Fault()))
      ensures calm ==> now == StatOk(sourceMeta)
    {
      hide Lawful, Steady, TargetView, Allows, Observe;
      now := LookAtSource();
      RecheckLeads(script, watch, src, now.Seen(), now.Fault());
      Note(Rechecked(now.Seen(), now.Fault()));
    }

    /** The outcome of a comparison of digests. */
    ghost method Compare(same: bool)
      requires Valid() && (watch.phase == Prechecked || watch.phase == MatchedTemp)
      modifies this`trace, this`watch
      ensures Valid()
      ensures same ==>
        var more := old(watch).phase == Prechecked && script.verify == Full;
        watch == To(old(watch), if more then MatchedTemp else Matched)
      ensures !same ==> watch == Blamed(old(watch), Doomed, Blame(AtVerify, VerifyMismatch))
    {
      hide Lawful, Steady, TargetView;
      if watch.phase == Prechecked {
        Note(ReadBack(same));
      } else {
        Note(SecondRead(same));
      }
    }

    // ------------------------------------------------------------------------------ looking

    /** The source's metadata by path. A stable source answers the same thing every time. */
    method LookAtSource() returns (s: Stat)
      ensures s.StatOk? && s.meta.identity.Strong? ==> s.meta.identity.id == sourceId
      ensures s.StatOk? && stable ==> s.meta.len == |source| && s.meta.modified == sourceTime
      ensures calm && Settles() ==> s == StatOk(sourceMeta)
    {
      s :| true;
      if calm {
        s := StatOk(sourceMeta);
      }
      if s.StatOk? {
        if s.meta.identity.Strong? {
          s := StatOk(s.meta.(identity := Strong(sourceId)));
        }
        if stable {
          s := StatOk(s.meta.(len := |source|, modified := sourceTime));
        }
      }
    }

    /** The first look at the source. Without one there is no copy. */
    method StatSource() returns (s: Stat)
      requires Valid() && watch.phase == Settled
      modifies this`trace, this`watch
      ensures Valid()
      ensures s.StatOk? && s.meta.identity.Strong? ==> s.meta.identity.id == sourceId
      ensures s.StatOk? && stable ==> s.meta.len == |source| && s.meta.modified == sourceTime
      ensures calm ==> s == StatOk(sourceMeta)
      ensures s.StatOk? ==> watch == old(watch)
      ensures !s.StatOk? ==>
        watch == Blamed(old(watch), Over, Blame(AtSource, if s.StatFailed? then s.code else IoError))
    {
      hide Lawful, Steady, TargetView;
      s := LookAtSource();
      if !s.StatOk? {
        LookFault(if s.StatFailed? then s.code else IoError);
      }
    }

    /** A destination entry's metadata: the name itself, never what a link there leads to. */
    method StatEntry(n: Name) returns (s: Stat)
      requires disk.WellFormed()
      ensures s.NotFound? ==> n !in disk.names
      ensures s.StatOk? ==> n in disk.names && disk.Backed(n) && s.meta.fileType == disk.kinds[disk.names[n]]
      ensures s.StatOk? && s.meta.fileType == File ==> s.meta.len == |disk.data[disk.names[n]]|
      ensures s.StatOk? && s.meta.identity.Strong? ==> s.meta.identity.id == disk.names[n]
      ensures s.StatOk? && s.meta.nlink.Some? ==> s.meta.nlink.value == disk.links[disk.names[n]]
      ensures calm ==> s == EntryStat(disk, n, if n == Target then targetMeta else tempMeta) && !s.StatFailed?
    {
      var c: Code :| true;
      var fails: bool :| true;
      if fails && !calm {
        return StatFailed(c);
      }
      assert n == Target || n == Temp;
      var m: Metadata :| true;
      s := EntryStat(disk, n, if !calm then m else if n == Target then targetMeta else tempMeta);
    }

    method OpenSource() returns (r: Reader?, c: Code)
      requires Valid() && (watch.phase == Plan || watch.phase == MatchedTemp)
      modifies this`trace, this`watch
      ensures Valid()
      ensures r != null ==> fresh(r) && r.Valid() && r.taken == [] && !r.ended && !r.broken && r.answer == None
      ensures r != null && stable ==> r.fixed == Some(source)
      ensures calm && stable ==> r != null && r.calm
      ensures r != null ==> watch == old(watch)
      ensures r == null ==>
        var step := if old(watch).phase == Plan then AtSource else AtVerify;
        watch == Blamed(old(watch), FailTo(old(watch).phase), Blame(step, c))
    {
      hide Lawful, Steady, TargetView;
      r := null;
      c :| true;
      var opens: bool :| true;
      var fuel: nat :| true;
      if calm && stable {
        r := new Reader(Some(source), fuel + |source|, true);
      } else if opens {
        r := new Reader(if stable then Some(source) else None, fuel, false);
      } else {
        LookFault(c);
      }
    }

    /** Opens the temporary for reading: its bytes do not change while this run reads them. */
    method OpenTemp() returns (r: Reader?, s: Stat)
      requires disk.WellFormed()
      ensures r != null ==> fresh(r) && r.Valid() && r.taken == [] && !r.ended && !r.broken && r.answer == None
      ensures r != null ==> Temp in disk.names && r.fixed == Some(disk.TempBytes())
      ensures r == null ==> !s.StatOk?
      ensures r == null && s.NotFound? ==> Temp !in disk.names
      ensures calm && Temp in disk.names ==> r != null && r.calm
    {
      r := null;
      s := StatEntry(Temp);
      if s.StatOk? {
        var fuel: nat :| true;
        r := new Reader(Some(disk.TempBytes()), fuel + |disk.TempBytes()|, calm);
      }
    }

    /** Opens the temporary to read it back. */
    method OpenForVerify() returns (r: Reader?, c: Code)
      requires Valid() && watch.phase == Prechecked
      modifies this`trace, this`watch
      ensures Valid()
      ensures r != null ==> fresh(r) && r.Valid() && r.taken == [] && !r.ended && !r.broken && r.answer == None
      ensures r != null ==> Temp in disk.names && r.fixed == Some(disk.TempBytes())
      ensures calm && Temp in disk.names ==> r != null && r.calm
      ensures r != null ==> watch == old(watch)
      ensures r == null ==> watch == Blamed(old(watch), Doomed, Blame(AtVerify, c))
    {
      hide Lawful, Steady, TargetView;
      var s;
      r, s := OpenTemp();
      c := if s.StatFailed? then s.code else IoError;
      if r == null {
        LookFault(c);
      }
    }

    /** What the log has of the file. */
    method LoadLog() returns (l: Loaded)
      ensures calm ==> l == log
    {
      l :| true;
      if calm {
        l := log;
      }
    }

    // ------------------------------------------------------------------------------ changing

    /** `let _ = parent.remove_file(&temp)`: best effort, and never a directory. */
    method Sweep()
      requires Valid() && watch.cleared
      requires watch.phase == FreshGuard || watch.phase == Skipping || (watch.phase == Owned && script.checkpointed)
      modifies this`trace, this`watch, this`disk
      ensures Valid()
      ensures watch == To(old(watch),
        if old(watch).phase == FreshGuard then Settled else if old(watch).phase == Skipping then Over else OwnedSwept)
      ensures disk == old(disk) || (Temp in old(disk).names && disk == WithoutTemp(old(disk)))
      ensures calm && (Temp in old(disk).names ==> old(disk).kinds[old(disk).names[Temp]] != Dir) ==>
        Temp !in disk.names
    {
      hide Lawful, Steady, TargetView;
      Note(Swept);
      var fails: bool :| true;
      if (calm || !fails) && Temp in disk.names && disk.kinds[disk.names[Temp]] != Dir {
        SweepKeepsTheTarget(disk);
        disk := WithoutTemp(disk);
      }
    }

    /** `parent.remove_file(&temp)` of a failed copy; that it is gone already is as good. */
    method Remove() returns (f: Option<Code>)
      requires Valid() && watch.phase == Doomed && watch.cleared
      modifies this`trace, this`watch, this`disk
      ensures Valid()
      ensures watch == To(old(watch), Over).(leftover := if f.Some? then Some(TempPath) else old(watch).leftover)
      ensures disk == old(disk) || (Temp in old(disk).names && disk == WithoutTemp(old(disk)))
      ensures f.None? ==> Temp !in disk.names
      ensures Adds(old(trace), trace, Removed(f))
      ensures calm && (Temp in old(disk).names ==> old(disk).kinds[old(disk).names[Temp]] != Dir) ==> f.None?
    {
      hide Lawful, Steady, TargetView;
      var s := StatEntry(Temp);
      f := match s
        case StatOk(m) => if m.fileType == Dir then Some(IoError) else None
        case NotFound => None
        case StatFailed(c) => Some(c);
      Note(Removed(f));
      if s.StatOk? && f.None? {
        SweepKeepsTheTarget(disk);
        disk := WithoutTemp(disk);
      }
    }

    /** The exclusive create: the name must be free, and the object is new. */
    method Create() returns (f: Option<Code>)
      requires Valid() && watch.phase == (if script.checkpointed then OwnedSwept else Owned)
      modifies this`trace, this`watch, this`disk, this`at
      ensures Valid()
      ensures f.Some? ==> disk == old(disk) && watch == Blamed(old(watch), Over, Blame(AtCreate, f.value))
      ensures f.None? ==> at == 0 && watch == To(old(watch), Writing).(isOpen := true)
      ensures f.None? ==> Temp !in old(disk).names && Temp in disk.names && disk.names[Temp] !in old(disk).data
      ensures f.None? ==> disk == WithTemp(old(disk), disk.names[Temp])
      ensures calm && Temp !in old(disk).names ==> f.None?
    {
      hide Lawful, Steady, TargetView, Allows, Observe;
      f :| true;
      var id := FreshObject(disk.data.Keys);
      if calm {
        f := None;
      }
      if f.None? && Temp in disk.names {
        f := Some(IoError);
      }
      CreateLeads(script, watch, f);
      Note(Created(f));
      if f.None? {
        CreateKeepsTheTarget(disk, id);
        disk := WithTemp(disk, id);
        at := 0;
      }
    }

    /** Reopens the partial by the identity that was validated; the handle stands at 0. */
    method Reopen(expected: FileIdentity) returns (f: Option<Code>)
      requires Valid() && watch.phase == Owned && watch.cleared && script.checkpointed
      modifies this`trace, this`watch, this`at
      ensures Valid()
      ensures f.Some? ==> watch == Blamed(old(watch), Over, Blame(AtCreate, f.value))
      ensures f.None? ==> watch == To(old(watch), Reopening) && at == 0
      ensures f.None? ==> Temp in disk.names && disk.kinds[disk.names[Temp]] == File && !expected.Unavailable?
      ensures f.None? && expected.Strong? ==> expected.id == disk.names[Temp]
      ensures calm && Reopens(disk, expected) ==> f.None?
    {
      hide Lawful, Steady, TargetView, Allows, Observe;
      f :| true;
      if calm {
        f := None;
      }
      if f.None? && (Temp !in disk.names || disk.kinds[disk.names[Temp]] != File || expected.Unavailable?
                     || (expected.Strong? && expected.id != disk.names[Temp])) {
        f := Some(SafetyRejected);
      }
      ReopenLeads(script, watch, f);
      Note(Reopened(f));
      at := 0;
    }

    /** `truncate_to`: cuts a tail and stands at the cut; it never extends. A failed cut may have cut something. */
    method CutTo(offset: nat) returns (f: Option<Code>)
      requires Valid() && watch.phase == Reopening && disk.SoleTemp()
      modifies this`trace, this`watch, this`disk, this`at
      ensures Valid() && disk.SoleTemp() && disk == WithTempBytes(old(disk), disk.TempBytes())
      ensures f.Some? ==> disk.TempBytes() <= old(disk).TempBytes()
      ensures f.Some? ==> watch == Blamed(old(watch), Over, Blame(AtCreate, f.value))
      ensures f.None? ==>
        offset <= |old(disk).TempBytes()| && at == offset && watch == To(old(watch), Writing).(isOpen := true)
      ensures f.None? ==> disk == WithTempBytes(old(disk), old(disk).TempBytes()[..offset])
      ensures calm && offset <= |old(disk).TempBytes()| ==> f.None?
      ensures offset > |old(disk).TempBytes()| ==> f.Some? && (calm ==> f == Some(DestinationError))
    {
      hide Lawful, Steady, TargetView, Allows, Observe;
      f :| true;
      if calm {
        f := None;
      }
      var size, left: nat := |disk.TempBytes()|, |disk.TempBytes()|;
      if f.None? && offset > size {
        f := Some(DestinationError);
      }
      CutLeads(script, watch, f);
      Note(Cut(f));
      if f.None? {
        left, at := offset, offset;
      } else {
        left :| 0 <= left <= size;
      }
      WriteKeepsTheTarget(disk, disk.TempBytes()[..left]);
      disk := WithTempBytes(disk, disk.TempBytes()[..left]);
    }

    /** `write_all` at the writer's position. A failed write may have stored anything. */
    method WriteAll(b: Bytes) returns (f: Option<Code>)
      requires Valid() && watch.phase == Writing && disk.SoleTemp()
      modifies this`trace, this`watch, this`disk, this`at
      ensures Valid() && disk.names == old(disk).names && disk == WithTempBytes(old(disk), disk.TempBytes())
      ensures f.Some? ==> watch == Blamed(old(watch), Doomed, Blame(AtStream, CopyCode(f.value)))
      ensures f.None? ==> watch == To(old(watch), Writing).(written := old(watch).written + b) && at == old(at) + |b|
      ensures f.None? && faithful && old(at) <= |old(disk).TempBytes()| ==>
        disk.TempBytes() == Spliced(old(disk).TempBytes(), old(at), b)
      ensures calm ==> f.None?
    {
      hide Lawful, Steady, TargetView, Allows, Observe;
      f :| true;
      if calm {
        f := None;
      }
      WriteLeads(script, watch, b, f);
      Note(Wrote(b, f));
      var c: Bytes :| true;
      if f.None? {
        if faithful && at <= |disk.TempBytes()| {
          c := Spliced(disk.TempBytes(), at, b);
        }
        at := at + |b|;
      }
      WriteKeepsTheTarget(disk, c);
      disk := WithTempBytes(disk, c);
    }

    method SetTimes(time: Option<int>) returns (f: Option<Code>)
      requires Valid() && MayTimes(script, watch.phase) && script.times != PreserveOff
      requires watch.src.Some? && time == watch.src.value.modified
      modifies this`trace, this`watch
      ensures Valid()
      ensures f.None? ==> watch == To(old(watch), Timed)
      ensures f.Some? && script.times == PreserveDefault ==>
        watch == To(old(watch), Timed).(missed := old(watch).missed + [Times])
      ensures f.Some? && script.times == PreserveStrict ==>
        watch == Blamed(old(watch), Doomed, Blame(AtMetadata, MetadataApplyFailed))
      ensures calm ==> f.None?
    {
      hide Lawful, Steady, TargetView;
      f :| true;
      if calm {
        f := None;
      }
      Note(TimesSet(time, f));
    }

    method SetPermissions(perms: Option<int>) returns (f: Option<Code>)
      requires Valid() && MayPerms(script, watch.phase) && script.perms != PreserveOff
      requires watch.src.Some? && perms == watch.src.value.permissions
      modifies this`trace, this`watch
      ensures Valid()
      ensures f.None? ==> watch == To(old(watch), Permed)
      ensures f.Some? && script.perms == PreserveDefault ==>
        watch == To(old(watch), Permed).(missed := old(watch).missed + [Permissions])
      ensures f.Some? && script.perms == PreserveStrict ==>
        watch == Blamed(old(watch), Doomed, Blame(AtMetadata, MetadataApplyFailed))
      ensures calm ==> f.None?
    {
      hide Lawful, Steady, TargetView;
      f :| true;
      if calm {
        f := None;
      }
      Note(PermsSet(perms, f));
    }

    method SyncAll() returns (f: Option<Code>)
      requires Valid() && MaySync(script, watch.phase) && script.syncInline
      modifies this`trace, this`watch
      ensures Valid()
      ensures f.None? ==> watch == To(old(watch), Durable)
      ensures f.Some? ==> watch == Blamed(old(watch), Doomed, Blame(AtDurability, StrictDurabilityUnavailable))
      ensures calm ==> f.None?
    {
      hide Lawful, Steady, TargetView;
      f :| true;
      if calm {
        f := None;
      }
      Note(Synced(f));
    }

    /** The identity read from the temporary's own handle; a failure to read it is `Unavailable`. */
    method WriterIdentity() returns (i: FileIdentity)
      requires disk.WellFormed() && Temp in disk.names
      ensures i.Strong? ==> i.id == disk.names[Temp]
      ensures calm ==> i == if tempMeta.identity.Strong? then Strong(disk.names[Temp]) else tempMeta.identity
    {
      i :| true;
      if calm {
        i := tempMeta.identity;
      }
      if i.Strong? {
        i := Strong(disk.names[Temp]);
      }
    }

    /** The publishing rename: all or nothing, and without replacement it needs a free name. */
    method Rename() returns (f: Option<Code>)
      requires Valid() && watch.phase == AnnouncedGuard && watch.cleared && disk.SoleTemp()
      modifies this`trace, this`watch, this`disk
      ensures Valid()
      ensures f.Some? ==> disk == old(disk) && watch == Blamed(old(watch), Doomed, Blame(AtPublish, f.value))
      ensures f.None? ==> disk == Moved(old(disk)) && watch == To(old(watch), Published)
      ensures f.None? && noReplace ==> Target !in old(disk).names
      ensures calm && (noReplace ==> Target !in old(disk).names) ==> f.None?
    {
      hide Lawful, Steady, TargetView;
      f :| true;
      if calm {
        f := None;
      }
      if f.None? && noReplace && Target in disk.names {
        f := Some(IoError);
      }
      Note(Renamed(f));
      if f.None? {
        disk := Moved(disk);
      }
    }

    // ------------------------------------------------------------------------------ the checkpoint log

    /** `duplicate` of the writer, for a log that syncs the data itself. */
    method Duplicate() returns (ok: bool)
      requires Valid() && watch.phase == Writing && SinkTakes(watch, BeginLog(0))
      modifies this`trace, this`watch
      ensures Valid()
      ensures watch ==
        if ok then old(watch) else Blamed(old(watch), Doomed, Blame(AtDurability, StrictDurabilityUnavailable))
      ensures calm ==> ok
    {
      hide Lawful, Steady, TargetView;
      ok :| true;
      if calm {
        ok := true;
      }
      if !ok {
        Note(NotDuplicated);
      }
    }

    /**
     One call on a file's checkpoint sink: `begin`, `record_proven`, `wrote` or `submit`, `complete`. It waits,
     beating as it does, and touches the log only.
     */
    method Sink(op: SinkOp) returns (r: SinkResult)
      requires Valid() && watch.phase == Writing && SinkTakes(watch, op)
      modifies this`trace, this`watch
      ensures Valid()
      ensures watch ==
        match r
        case SinkOk => To(old(watch), Writing).(sink := SinkAfter(old(watch).sink, SinkCall(op, SinkOk)))
        case SinkHeartbeat(c) => Blamed(old(watch), Doomed, Blame(AtHeartbeat, c))
        case SinkWal => Blamed(old(watch), Kept, Blame(AtCheckpoint, WalWriteFailed))
        case SinkData => Blamed(old(watch), Doomed, Blame(AtDurability, StrictDurabilityUnavailable))
      ensures calm ==> r.SinkOk?
    {
      hide Lawful, Steady, TargetView, Observe, Allows, SinkAfter;
      var beats: nat :| true;
      while beats > 0
        invariant Valid()
        invariant watch == old(watch) || watch == To(old(watch), Writing)
      {
        var f := Beat();
        if f.Some? {
          return SinkHeartbeat(f.value);
        }
        beats := beats - 1;
      }
      r :| true;
      if r.SinkHeartbeat? || calm {
        r := SinkOk;
      }
      SinkLeads(script, watch, op, r);
      Note(SinkCall(op, r));
    }

    /** `abort` of a sink: it beats while it waits and ignores what the heartbeats say. */
    method AbortSink()
      requires Valid() && (watch.phase == Doomed || watch.phase == Kept) && watch.blame.Some? && watch.sink.SinkOpen?
      modifies this`trace, this`watch
      ensures Valid() && watch == To(old(watch), old(watch).phase).(sink := SinkAborted)
    {
      hide Lawful, Steady, TargetView;
      var beats: nat :| true;
      while beats > 0
        invariant Valid() && (watch == old(watch) || watch == To(old(watch), old(watch).phase))
      {
        var _ := Beat();
        beats := beats - 1;
      }
      Note(Aborted);
    }
  }
}
