/** The run's lazily created hard-link index (crates/flux-core/src/hardlinks.rs). */
module HardlinkSlot {
  import opened Basics
  import opened Protocol

  datatype Kind = AlreadyExists | NotFound | OtherKind

  /** What a filesystem call, or the caller's own use of the index, answers. */
  datatype Answer = Done | Error(kind: Kind, code: Code)

  /** The calls a slot makes, each with its answer, and the caller's uses of the index. */
  datatype Act =
    | MakeDir(answer: Answer)
    | OpenDir(answer: Answer)
    | RemoveFile(answer: Answer)
    | CreateIndex(answer: Answer)
    | Use(answer: Answer)
    | RemoveDir(answer: Answer)

  /** The directory in hand, or the private one below a parent. */
  datatype Dir = Given | Private

  datatype Home = Ready | Pending | PendingFailed(code: Code) | Made | Absent

  datatype State = Unopened | Open | Failed(code: Code)

  // ---------------------------------------------------------------------------------------------
  // What a creation may look like

  function Tolerates(a: Act): bool { a.answer.Done? || a.answer.kind.NotFound? }

  /** The file's part of a creation: a stale one is removed, then a fresh one is made. */
  predicate CreatesFile(acts: seq<Act>, end: State) {
    || (|acts| == 1 && acts[0].RemoveFile? && !Tolerates(acts[0]) && end == Failed(acts[0].answer.code))
    || (|acts| == 2 && acts[0].RemoveFile? && Tolerates(acts[0]) && acts[1].CreateIndex? &&
        end == if acts[1].answer.Done? then Open else Failed(acts[1].answer.code))
  }

  /** The whole of a creation from one kind of home, the home it leaves and how it ends. */
  predicate Creates(home: Home, acts: seq<Act>, left: Home, end: State) {
    match home
    case Ready => left == Ready && CreatesFile(acts, end)
    case PendingFailed(code) => left == home && acts == [] && end == Failed(code)
    case Pending =>
      && acts != [] && acts[0].MakeDir?
      && match acts[0].answer {
        case Done => left == Made && CreatesFile(acts[1..], end)
        case Error(kind, code) =>
          if kind != AlreadyExists then left == Pending && |acts| == 1 && end == Failed(code)
          else
            && |acts| >= 2 && acts[1].OpenDir?
            && if acts[1].answer.Done? then left == Made && CreatesFile(acts[2..], end)
               else left == Pending && |acts| == 2 && end == Failed(acts[1].answer.code)
      }
    case _ => false
  }

  /** Uses of the index by the caller, nothing else. */
  predicate OnlyUses(acts: seq<Act>, answers: seq<Answer>) {
    |acts| == |answers| && forall i | 0 <= i < |acts| :: acts[i] == Use(answers[i])
  }

  class Slot {
    var home: Home
    var state: State
    /** The home the slot began with, what its one creation did, and the uses that were let through. */
    ghost const origin: Home
    ghost var creation: seq<Act>
    ghost var uses: seq<Answer>
    ghost var trace: seq<Act>
    /** Whether the private directory is there. */
    ghost var dirThere: bool

    ghost predicate Valid()
      reads this
    {
      && |creation| <= |trace| && trace[..|creation|] == creation && OnlyUses(trace[|creation|..], uses)
      && (home.Made? ==> dirThere)
      && match state {
        case Unopened => home == origin && !home.Made? && !home.Absent? && creation == [] && uses == []
        case Open => Creates(origin, creation, home, state) && !home.Absent? && !home.Pending? && !home.PendingFailed?
        case Failed(code) =>
          && uses == []
          && (origin.Absent? ==> home.Absent? && creation == [])
          && (!origin.Absent? ==> Creates(origin, creation, home, state))
      }
    }

    /** `new`: a directory in hand. */
    constructor New(dirThere: bool)
      ensures Valid() && origin == Ready && state == Unopened && trace == [] && this.dirThere == dirThere
    {
      home, origin, state := Ready, Ready, Unopened;
      creation, uses, trace, this.dirThere := [], [], [], dirThere;
    }

    /** `deferred`: a private directory to be made, or the failure to reach its parent. */
    constructor Deferred(parent: Option<Code>, dirThere: bool)
      ensures Valid() && state == Unopened && trace == [] && this.dirThere == dirThere
      ensures origin == if parent.Some? then PendingFailed(parent.value) else Pending
    {
      home := if parent.Some? then PendingFailed(parent.value) else Pending;
      origin := if parent.Some? then PendingFailed(parent.value) else Pending;
      state := Unopened;
      creation, uses, trace, this.dirThere := [], [], [], dirThere;
    }

    constructor Unavailable(code: Code)
      ensures Valid() && origin == Absent && state == Failed(code) && trace == []
    {
      home, origin, state := Absent, Absent, Failed(code);
      creation, uses, trace, dirThere := [], [], [], false;
    }

    /** Any answer may come from the filesystem. */
    method Ask() returns (a: Answer) {
      a :| true;
    }

    /** `create_dir` of the private directory: it is there afterwards when the call succeeds or finds it. */
    method CreateDir() returns (a: Answer)
      modifies this`trace, this`dirThere
      ensures trace == old(trace) + [MakeDir(a)]
      ensures a.Done? || a.kind == AlreadyExists ==> dirThere
      ensures a.Error? && a.kind != AlreadyExists ==> dirThere == old(dirThere)
    {
      a := Ask();
      if a.Done? || a.kind == AlreadyExists {
        dirThere := true;
      }
      trace := trace + [MakeDir(a)];
    }

    /** `open_dir` of the private directory. */
    method OpenPrivate() returns (a: Answer)
      modifies this`trace
      ensures trace == old(trace) + [OpenDir(a)]
    {
      a := Ask();
      trace := trace + [OpenDir(a)];
    }

    /** `remove_file` of the index. */
    method RemoveIndex() returns (a: Answer)
      modifies this`trace
      ensures trace == old(trace) + [RemoveFile(a)]
    {
      a := Ask();
      trace := trace + [RemoveFile(a)];
    }

    /** `create_hardlink_index`. */
    method MakeIndex() returns (a: Answer)
      modifies this`trace
      ensures trace == old(trace) + [CreateIndex(a)]
    {
      a := Ask();
      trace := trace + [CreateIndex(a)];
    }

    /** `remove_dir` of the private directory: it is gone if the call succeeds. */
    method RemovePrivate() returns (a: Answer)
      modifies this`trace, this`dirThere
      ensures trace == old(trace) + [RemoveDir(a)] && dirThere == (old(dirThere) && a.Error?)
    {
      a := Ask();
      dirThere := dirThere && a.Error?;
      trace := trace + [RemoveDir(a)];
    }

    /** `remove_file` and `create_hardlink_index` in the slot's directory. */
    method CreateFile() returns (end: State, ghost acts: seq<Act>)
      modifies this`trace
      ensures trace == old(trace) + acts
      ensures CreatesFile(acts, end)
    {
      var removed := RemoveIndex();
      if removed.Error? && removed.kind != NotFound {
        return Failed(removed.code), [RemoveFile(removed)];
      }
      var created := MakeIndex();
      return if created.Done? then Open else Failed(created.code), [RemoveFile(removed), CreateIndex(created)];
    }

    method Create() returns (end: State, ghost acts: seq<Act>)
      requires Valid() && state.Unopened?
      modifies this`home, this`trace, this`dirThere
      ensures trace == old(trace) + acts && Creates(old(home), acts, home, end)
      ensures home.Made? ==> dirThere
    {
      hide CreatesFile;
      if home.PendingFailed? {
        return Failed(home.code), [];
      }
      ghost var before := [];
      if home.Pending? {
        home := Absent;
        var made := CreateDir();
        before := [MakeDir(made)];
        if made.Done? {
          home := Made;
        } else if made.kind == AlreadyExists {
          var found := OpenPrivate();
          before := before + [OpenDir(found)];
          if found.Done? {
            home := Made;
          } else {
            home := Pending;
            return Failed(found.code), before;
          }
        } else {
          home := Pending;
          return Failed(made.code), before;
        }
      }
      match home {
        case Ready => {}
        case Made => {}
        case _ => assert false;
      }
      ghost var rest;
      end, rest := CreateFile();
      acts := before + rest;
      assert acts[|before|..] == rest;
    }

    /**
     `with`: the first call creates, no other does. The callback runs in an open slot and only there; a failure, once
     there, is the answer of every call, and nothing more is done.
     */
    method With(use: Answer) returns (r: Answer)
      requires Valid()
      modifies this
      ensures Valid() && !state.Unopened?
      ensures old(!state.Unopened?) ==> state == old(state) && home == old(home) && creation == old(creation)
      ensures match state {
        case Unopened => false
        case Open =>
          && r == use && uses == old(uses) + [use]
          && trace == old(trace) + creation[|old(creation)|..] + [Use(use)]
        case Failed(code) =>
          && r.Error? && r.code == code && uses == old(uses)
          && (old(state.Failed?) ==> trace == old(trace))
      }
    {
      hide Creates, CreatesFile;
      if state.Unopened? {
        var end;
        end, creation := Create();
        assert OnlyUses([], []);
        CreatesEnds(origin, creation, home, end);
        state := end;
        assert trace == creation && trace[|creation|..] == [];
      }
      match state
      case Open =>
        trace, uses := trace + [Use(use)], uses + [use];
        return use;
      case Failed(code) => return Error(OtherKind, code);
      case Unopened => assert false;
    }

    /**
     `close`: a slot that was never used touches nothing. One that removes takes its private directory away unless the
     removal fails.
     */
    method Close(remove: bool) returns (dir: Option<Dir>)
      requires Valid()
      modifies this`trace, this`dirThere
      ensures state.Unopened? || !remove ==> trace == old(trace) && dirThere == old(dirThere)
      ensures match home {
        case Ready => dir == Some(Given) && dirThere == old(dirThere)
        case Made => dir == if remove then None else Some(Private)
        case _ => dir == None && trace == old(trace) && dirThere == old(dirThere)
      }
      ensures home.Ready? && remove && !state.Unopened? ==> exists a :: trace == old(trace) + [RemoveFile(a)]
      ensures home.Made? && remove ==>
        exists a, b :: trace == old(trace) + [RemoveFile(a), RemoveDir(b)] && dirThere == b.Error?
    {
      hide Creates, CreatesFile, OnlyUses;
      var attempted := !state.Unopened?;
      match home
      case Ready =>
        if remove && attempted {
          var a := RemoveIndex();
        }
        return Some(Given);
      case Made =>
        if remove {
          var a := RemoveIndex();
          var b := RemovePrivate();
          assert trace == old(trace) + [RemoveFile(a), RemoveDir(b)];
          return None;
        } else {
          return Some(Private);
        }
      case _ => return None;
    }
  }

  lemma CreatesEnds(home: Home, acts: seq<Act>, left: Home, end: State)
    requires Creates(home, acts, left, end)
    ensures !end.Unopened? && !left.Absent?
    ensures end.Open? ==> !left.Pending? && !left.PendingFailed?
  {
  }

  /** A creation makes the directory, removes a stale file and makes the index at most once each. */
  lemma CreationIsSingle(home: Home, acts: seq<Act>, left: Home, end: State)
    requires Creates(home, acts, left, end)
    ensures forall i, j | 0 <= i < j < |acts| ::
      && !(acts[i].CreateIndex? && acts[j].CreateIndex?)
      && !(acts[i].MakeDir? && acts[j].MakeDir?)
      && !(acts[i].RemoveFile? && acts[j].RemoveFile?)
    ensures end.Open? <==> acts != [] && acts[|acts| - 1] == CreateIndex(Done)
    ensures forall i | 0 <= i < |acts| :: !acts[i].Use? && !acts[i].RemoveDir?
    ensures left.Made? <==> home.Pending? && exists i | 0 <= i < |acts| :: acts[i].RemoveFile?
  {
    var k := if !home.Pending? then 0 else if |acts| > 1 && acts[1].OpenDir? then 2 else 1;
    if CreatesFile(acts[k..], end) {
      assert acts[k].RemoveFile? && acts[k] == acts[k..][0];
      assert |acts| == k + 2 ==> acts[k + 1] == acts[k..][1];
    }
  }

  /** The directory is made at most once, and so is the index. */
  predicate AttemptedOnce(acts: seq<Act>) {
    forall i, j | 0 <= i < j < |acts| ::
      !(acts[i].CreateIndex? && acts[j].CreateIndex?) && !(acts[i].MakeDir? && acts[j].MakeDir?)
  }

  /** What a slot has done to create its index: nothing, or one creation. */
  ghost predicate CreatedOrNot(slot: Slot)
    reads slot
  {
    if slot.state.Unopened? || slot.origin.Absent? then slot.creation == []
    else Creates(slot.origin, slot.creation, slot.home, slot.state)
  }

  lemma CreatedAtMostOnce(slot: Slot)
    requires slot.Valid()
    ensures CreatedOrNot(slot) && AttemptedOnce(slot.creation)
  {
    if !slot.state.Unopened? && !slot.origin.Absent? {
      CreationIsSingle(slot.origin, slot.creation, slot.home, slot.state);
    }
  }

  lemma OnceInAll(creation: seq<Act>, uses: seq<Answer>, end: seq<Act>)
    requires AttemptedOnce(creation) && forall i | 0 <= i < |end| :: end[i].RemoveFile? || end[i].RemoveDir?
    ensures AttemptedOnce(creation + Uses(uses) + end)
  {
    var acts := creation + Uses(uses) + end;
    assert forall i | |creation| <= i < |acts| :: !acts[i].CreateIndex? && !acts[i].MakeDir?;
  }

  /**
   The life of a slot: any number of `with` calls, then a close. Its acts are one creation, at the first call, the
   uses that were let through, and the removals of the close. Either every call is let through or none is, and a slot
   that is never used does nothing at all.
   */
  method Life(slot: Slot, calls: seq<Answer>, remove: bool)
    returns (answers: seq<Answer>, dir: Option<Dir>, ghost end: seq<Act>)
    requires slot.Valid() && slot.trace == []
    modifies slot
    ensures |answers| == |calls|
    ensures slot.state.Open? ==> answers == calls && slot.uses == calls
    ensures slot.state.Failed? ==>
      slot.uses == [] && forall i | 0 <= i < |answers| :: answers[i].Error? && answers[i].code == slot.state.code
    ensures slot.state.Unopened? <==> calls == [] && old(slot.state.Unopened?)
    ensures slot.trace == slot.creation + Uses(slot.uses) + end
    ensures CreatedOrNot(slot) && AttemptedOnce(slot.trace)
    ensures forall i | 0 <= i < |end| :: end[i].RemoveFile? || end[i].RemoveDir?
    ensures slot.state.Unopened? ==> slot.trace == [] && slot.dirThere == old(slot.dirThere)
    ensures remove && slot.home.Made? ==>
      end != [] && end[|end| - 1].RemoveDir? && slot.dirThere == end[|end| - 1].answer.Error?
  {
    hide Creates, CreatesFile, AttemptedOnce;
    answers := [];
    assert slot.uses == [] && slot.creation == [];
    for i := 0 to |calls|
      invariant slot.Valid() && |answers| == i
      invariant i > 0 ==> !slot.state.Unopened?
      invariant i == 0 ==> slot.state == old(slot.state) && slot.trace == [] && slot.dirThere == old(slot.dirThere)
      invariant old(!slot.state.Unopened?) ==> !slot.state.Unopened?
      invariant i == 0 ==> slot.uses == []
      invariant slot.state.Open? ==> answers == calls[..i] && slot.uses == calls[..i]
      invariant slot.state.Failed? ==> slot.uses == []
      invariant slot.state.Failed? ==> forall j | 0 <= j < i :: answers[j].Error? && answers[j].code == slot.state.code
    {
      var r := slot.With(calls[i]);
      answers := answers + [r];
    }
    ghost var body := slot.trace;
    assert body == body[..|slot.creation|] + body[|slot.creation|..];
    assert body[|slot.creation|..] == Uses(slot.uses);
    CreatedAtMostOnce(slot);
    dir := slot.Close(remove);
    end := slot.trace[|body|..];
    OnceInAll(slot.creation, slot.uses, end);
  }

  function Uses(answers: seq<Answer>): (acts: seq<Act>)
    ensures OnlyUses(acts, answers)
  {
    seq(|answers|, i requires 0 <= i < |answers| => Use(answers[i]))
  }
}
