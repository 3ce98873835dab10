/** The claim store over its two tables (crates/flux-platform/src/claims.rs), proved against the contract. */
module RedbStore {
  import opened Basics
  import opened ClaimCodec
  import opened ClaimStore

  /** The commit that makes this many unsynced commits is synced. */
  const SYNC_CAP: nat := 1000

  datatype Outcome = Inserted | Present(record: ClaimRecord)

  /** What one call does: it follows the contract, unless the medium failed, and a failed call changes nothing. */
  ghost predicate Follows(before: Model, op: Op, after: Model, r: Result<()>, io: bool) {
    if io then r == Err(IoError) && after == before
    else
      match Apply(before, op)
      case Ok(m) => r.Ok? && after == m
      case Err(e) => r == Err(e) && after == before
  }

  predicate FitsOp(op: RecoveryOp) {
    Fits(op.key) && (op.Commit? && op.planned.Some? ==> Fits(op.planned.value))
  }

  predicate FitsCall(op: Op) {
    match op
    case Insert(key, _) => Fits(key)
    case Upgrade(key, _) => Fits(key)
    case PrepareMany(items) => forall i | 0 <= i < |items| :: Fits(items[i].0)
    case Recover(ops) => forall i | 0 <= i < |ops| :: FitsOp(ops[i])
  }

  /**
   A commit, as the count of unsynced commits takes it: one that is not synced, one that is and resets the count, or
   one of those that are always synced and leave the count alone.
   */
  datatype Kind = Unsynced | Resets | Always

  /** The count the store keeps. */
  function Counted(history: seq<Kind>): nat {
    if history == [] then 0
    else
      var before := Counted(history[..|history| - 1]);
      match history[|history| - 1]
      case Unsynced => before + 1
      case Resets => 0
      case Always => before
  }

  /** The commits since the last synced one. */
  function Pending(history: seq<Kind>): nat {
    if history != [] && history[|history| - 1].Unsynced? then Pending(history[..|history| - 1]) + 1 else 0
  }

  lemma OneMoreCommit(history: seq<Kind>, kind: Kind)
    ensures var h := history + [kind];
      && Counted(h) == (if kind.Resets? then 0 else Counted(history) + if kind.Unsynced? then 1 else 0)
      && Pending(h) == if kind.Unsynced? then Pending(history) + 1 else 0
  {
    assert (history + [kind])[..|history|] == history;
  }

  predicate ResetAfter(history: seq<Kind>, i: nat) {
    exists j | i < j < |history| :: history[j].Resets?
  }

  /** Since the count was last reset, no commit that is always synced was made while something was counted. */
  predicate NoneEarly(history: seq<Kind>) {
    forall i | 0 <= i < |history| :: history[i].Always? && !ResetAfter(history, i) ==> Counted(history[..i]) == 0
  }

  lemma EarlyBefore(history: seq<Kind>, kind: Kind)
    requires !kind.Resets?
    ensures NoneEarly(history + [kind]) <==> NoneEarly(history) && (kind.Always? ==> Counted(history) == 0)
  {
    var h := history + [kind];
    forall i | 0 <= i < |history|
      ensures h[i] == history[i] && h[..i] == history[..i] && (ResetAfter(h, i) <==> ResetAfter(history, i))
    {
      if ResetAfter(history, i) {
        var j :| i < j < |history| && history[j].Resets?;
        assert h[j].Resets?;
      }
    }
    assert h[..|history|] == history && h[|history|] == kind && !ResetAfter(h, |history|);
    if NoneEarly(h) {
      forall i | 0 <= i < |history| && history[i].Always? && !ResetAfter(history, i)
        ensures Counted(history[..i]) == 0
      {
        assert h[i].Always?;
      }
    }
  }

  /** Over every history of commits the count is the commits since the last synced one exactly when none was early. */
  lemma {:induction false} CountIsExactIff(history: seq<Kind>)
    ensures Counted(history) >= Pending(history)
    ensures Counted(history) == Pending(history) <==> NoneEarly(history)
  {
    if history != [] {
      var n := |history| - 1;
      var before, kind := history[..n], history[n];
      assert history == before + [kind];
      CountIsExactIff(before);
      if kind.Resets? {
        assert forall i | 0 <= i < n :: ResetAfter(history, i);
      } else {
        EarlyBefore(before, kind);
      }
    }
  }

  /** What the store is kept on: any call of the storage engine may fail, and `failures` counts those that did. */
  class Medium {
    var failures: nat

    /** Whether a call has failed since the count was `before`. */
    predicate Since(before: nat, failed: bool)
      reads this
    {
      before <= failures && failed == (before < failures)
    }

    method Fails() returns (b: bool)
      modifies this
      ensures failures == old(failures) + if b then 1 else 0
    {
      b :| true;
      failures := failures + if b then 1 else 0;
    }
  }

  class Store {
    const format: nat
    const strict: bool
    const medium: Medium
    var claims: Table
    var notes: Table
    var unsynced: nat
    /** The tables as a crash would leave them, and how many commits it would undo. */
    ghost var diskClaims: Table
    ghost var diskNotes: Table
    ghost var pending: nat
    /** Every commit made. */
    ghost var history: seq<Kind>

    /**
     A crash undoes no note, fewer than `SYNC_CAP` commits of claims, and under `Strict` none; what it leaves is an
     earlier state, from which claims have only grown.
     */
    ghost predicate Valid()
      reads this
    {
      && diskNotes == notes
      && unsynced == Counted(history) < SYNC_CAP && pending == Pending(history)
      && (pending == 0 ==> diskClaims == claims)
      && (strict ==> unsynced == 0)
      && Grows(ViewOf(diskClaims, diskNotes), ViewOf(claims, notes))
    }

    ghost function State(): Model
      reads this
    {
      ViewOf(claims, notes)
    }

    /** A store just created or opened: format 1 has no table of notes. */
    constructor (format: nat, strict: bool, claims: Table, notes: Table, medium: Medium)
      requires format == 1 || format == 2
      ensures Valid() && State() == ViewOf(claims, notes)
      ensures this.format == format && this.strict == strict && this.medium == medium && unsynced == 0 && history == []
    {
      hide Grows;
      this.format, this.strict, this.claims, this.notes, unsynced := format, strict, claims, notes, 0;
      this.medium := medium;
      diskClaims, diskNotes, pending, history := claims, notes, 0, [];
      new;
      SameGrows(State());
    }

    function NextCommit(): (bool, nat)
      reads this
    {
      if strict then (true, 0)
      else if unsynced + 1 >= SYNC_CAP then (true, 0)
      else (false, unsynced + 1)
    }

    /** The end of a transaction that wrote `c` and `n`. */
    method Commit(c: Table, n: Table, sync: bool)
      requires Grows(ViewOf(diskClaims, diskNotes), ViewOf(claims, notes)) && Grows(ViewOf(claims, notes), ViewOf(c, n))
      modifies this`claims, this`notes, this`diskClaims, this`diskNotes, this`pending
      ensures claims == c && notes == n
      ensures if sync then diskClaims == c && diskNotes == n && pending == 0
              else diskClaims == old(diskClaims) && diskNotes == old(diskNotes) && pending == old(pending) + 1
      ensures Grows(ViewOf(diskClaims, diskNotes), ViewOf(claims, notes))
    {
      hide Grows, ViewOf;
      SameGrows(ViewOf(c, n));
      GrowsOn(ViewOf(diskClaims, diskNotes), ViewOf(claims, notes), ViewOf(c, n));
      claims, notes := c, n;
      if sync {
        diskClaims, diskNotes, pending := c, n, 0;
      } else {
        pending := pending + 1;
      }
    }

    /** The end of a transaction that is synced whatever the store's durability. */
    method CommitNow(c: Table, n: Table, ghost op: Op) returns (r: Result<()>, ghost io: bool)
      requires Valid() && Apply(State(), op) == Ok(ViewOf(c, n))
      modifies this, medium
      ensures Valid() && unsynced == old(unsynced) && medium.Since(old(medium.failures), io)
      ensures r.Err? ==> unchanged(this)
      ensures Follows(old(State()), op, State(), r, io)
      ensures r.Ok? ==> history == old(history) + [Always]
    {
      hide Grows, ViewOf, Apply;
      var bad := medium.Fails();
      if bad {
        return Err(IoError), true;
      }
      StepGrows(State(), op, ViewOf(c, n));
      Commit(c, n, true);
      history := history + [Always];
      OneMoreCommit(old(history), Always);
      return Ok(()), false;
    }

    /** The end of a transaction on the claims, as `next_commit` said when it began. */
    method CommitClaim(table: Table, sync: bool, after: nat, ghost op: Op) returns (r: Result<()>, ghost io: bool)
      requires Valid() && (sync, after) == NextCommit() && Apply(State(), op) == Ok(ViewOf(table, notes))
      modifies this, medium
      ensures Valid() && medium.Since(old(medium.failures), io)
      ensures r.Err? ==> unchanged(this)
      ensures Follows(old(State()), op, State(), r, io)
      ensures r.Ok? ==>
        history == old(history) + [if strict || old(unsynced) == SYNC_CAP - 1 then Resets else Unsynced]
    {
      hide Grows, ViewOf, Apply;
      var bad := medium.Fails();
      if bad {
        return Err(IoError), true;
      }
      StepGrows(State(), op, ViewOf(table, notes));
      Commit(table, notes, sync);
      unsynced := after;
      history := history + [if sync then Resets else Unsynced];
      OneMoreCommit(old(history), if sync then Resets else Unsynced);
      return Ok(()), false;
    }

    method InsertIfAbsent(key: ClaimKey, record: ClaimRecord) returns (r: Result<Outcome>, ghost io: bool)
      requires Valid() && Fits(key)
      modifies this, medium
      ensures Valid() && medium.Since(old(medium.failures), io)
      ensures r != Ok(Inserted) ==> unchanged(this)
      ensures io ==> r == Err(IoError)
      ensures r == Ok(Inserted) ==>
        history == old(history) + [if strict || old(unsynced) == SYNC_CAP - 1 then Resets else Unsynced]
      ensures !io ==>
        match Apply(old(State()), Insert(key, record))
        case Ok(m) => r == Ok(Inserted) && State() == m
        case Err(_) =>
          match old(State()).claims[key]
          case None => r == Err(IoError)
          case Some(stored) => r == Ok(Present(stored))
    {
      hide EncodeKey, DecodeClaim, EncodeClaim, NoteOf, View, ViewOf, Keys, Grows;
      Lookup(claims, notes, key);
      var (sync, after) := NextCommit();
      var bad := medium.Fails();
      if bad {
        return Err(IoError), true;
      }
      var table, k := claims, EncodeKey(key);
      if k in table {
        match DecodeClaim(table[k])
        case None => return Err(IoError), false;
        case Some(stored) => return Ok(Present(stored)), false;
      }
      table := table[k := EncodeClaim(record)];
      PutClaim(claims, notes, key, record);
      var done;
      done, io := CommitClaim(table, sync, after, Insert(key, record));
      r := if done.Ok? then Ok(Inserted) else Err(IoError);
    }

    method Get(key: ClaimKey) returns (r: Result<Option<ClaimRecord>>, ghost io: bool)
      requires Fits(key)
      modifies medium
      ensures medium.Since(old(medium.failures), io)
      ensures io ==> r == Err(IoError)
      ensures !io && key !in State().claims ==> r == Ok(None)
      ensures !io && key in State().claims ==>
        r == if State().claims[key].None? then Err(StateCorrupt) else Ok(State().claims[key])
    {
      hide EncodeKey, DecodeClaim;
      var bad := medium.Fails();
      if bad {
        return Err(IoError), true;
      }
      var k := EncodeKey(key);
      if k !in claims {
        return Ok(None), false;
      }
      match DecodeClaim(claims[k])
      case None => return Err(StateCorrupt), false;
      case Some(stored) => return Ok(Some(stored)), false;
    }

    method UpgradeOwnClaim(key: ClaimKey, target: Bytes) returns (r: Result<()>, ghost io: bool)
      requires Valid() && Fits(key)
      modifies this, medium
      ensures Valid() && medium.Since(old(medium.failures), io)
      ensures r.Err? ==> unchanged(this)
      ensures Follows(old(State()), Upgrade(key, target), State(), r, io)
      ensures r.Ok? ==> history == old(history) + [if strict || old(unsynced) == SYNC_CAP - 1 then Resets else Unsynced]
    {
      hide EncodeKey, DecodeClaim, EncodeClaim, NoteOf, View, ViewOf, Keys, Grows;
      Lookup(claims, notes, key);
      var (sync, after) := NextCommit();
      var bad := medium.Fails();
      if bad {
        return Err(IoError), true;
      }
      var table, k := claims, EncodeKey(key);
      var stored := if k in table then DecodeClaim(table[k]) else None;
      if stored.None? || stored.value.target != target {
        return Err(IoError), false;
      }
      var upgraded := ClaimRecord(target, Created);
      table := table[k := EncodeClaim(upgraded)];
      PutClaim(claims, notes, key, upgraded);
      r, io := CommitClaim(table, sync, after, Upgrade(key, target));
    }

    /** After a flush that succeeds a crash undoes nothing. */
    method Flush() returns (r: Result<()>)
      requires Valid()
      modifies this, medium
      ensures Valid() && State() == old(State())
      ensures r.Ok? ==> diskClaims == claims && diskNotes == notes && unsynced == 0
      ensures r.Ok? ==> history == old(history) + if !strict && old(unsynced) > 0 then [Resets] else []
      ensures r.Ok? <==> medium.failures == old(medium.failures)
      ensures r.Err? ==> unchanged(this)
    {
      hide Grows, ViewOf;
      if !strict && unsynced > 0 {
        var bad := medium.Fails();
        if bad {
          return Err(IoError);
        }
        SameGrows(State());
        Commit(claims, notes, true);
        unsynced, history := 0, history + [Resets];
        OneMoreCommit(old(history), Resets);
      }
      return Ok(());
    }

    method PrepareMany(items: seq<(ClaimKey, PreparedRecord)>) returns (r: Result<()>, ghost io: bool)
      requires Valid() && forall i | 0 <= i < |items| :: Fits(items[i].0)
      modifies this, medium
      ensures Valid() && unsynced == old(unsynced) && medium.Since(old(medium.failures), io)
      ensures r.Err? ==> unchanged(this)
      ensures format != 2 ==> r == Err(IncompatibleState)
      ensures format == 2 ==> Follows(old(State()), Op.PrepareMany(items), State(), r, io)
      ensures r.Ok? && items != [] ==> history == old(history) + [Always]
      ensures items == [] ==> unchanged(this)
    {
      hide EncodeKey, DecodeClaim, NoteOf, Encoded, View, ViewOf, Keys, Grows;
      if format != 2 {
        return Err(IncompatibleState), false;
      }
      if items == [] {
        return Ok(()), false;
      }
      var bad := medium.Fails();
      if bad {
        return Err(IoError), true;
      }
      var table := notes;
      for i := 0 to |items|
        invariant medium.failures == old(medium.failures)
        invariant unchanged(this)
        invariant PrepareAll(State(), items[..i]) == Ok(ViewOf(claims, table))
      {
        assert items[..i + 1][..i] == items[..i];
        var (key, note) := items[i];
        var k := EncodeKey(key);
        LookupNote(claims, table, key);
        if k in table {
          PrepareFails(State(), items, i + 1);
          return Err(IoError), false;
        }
        var bytes := Encode(note);
        bad := medium.Fails();
        if bad {
          return Err(IoError), true;
        }
        PutNote(claims, table, key, bytes);
        table := table[k := bytes];
      }
      assert items[..|items|] == items;
      r, io := CommitNow(claims, table, Op.PrepareMany(items));
    }

    /** One operation inside a transaction over `claims` and `notes`. */
    method ApplyIn(claims: Table, notes: Table, op: RecoveryOp)
      returns (c: Table, n: Table, r: Result<()>, ghost io: bool)
      requires FitsOp(op)
      modifies medium
      ensures medium.Since(old(medium.failures), io)
      ensures io ==> r == Err(IoError)
      ensures !io ==>
        match ApplyRecoveryOp(ViewOf(claims, notes), op)
        case Ok(m) => r.Ok? && ViewOf(c, n) == m
        case Err(e) => r == Err(e)
    {
      hide EncodeKey, DecodeClaim, EncodeClaim, NoteOf, View, Keys, ViewOf;
      c, n := claims, notes;
      var bad := medium.Fails();
      if bad {
        return c, n, Err(IoError), true;
      }
      var k := EncodeKey(op.key);
      match op
      case Discard(key) =>
        DropNote(c, n, key);
        n := n - {k};
        return c, n, Ok(()), false;
      case Commit(key, target, planned) =>
        var foreign := OwnedByOther(c, key, target);
        if foreign.Err? {
          return c, n, Err(foreign.error), false;
        }
        if foreign.value == Some(true) {
          return c, n, Err(IoError), false;
        }
        var plannedAbsent := false;
        if planned.Some? {
          var there := OwnedByOther(c, planned.value, target);
          if there.Err? {
            return c, n, Err(there.error), false;
          }
          if there.value == Some(true) {
            return c, n, Err(IoError), false;
          }
          plannedAbsent := there.value.None?;
        }
        var created := ClaimRecord(target, Created);
        PutClaim(c, n, key, created);
        c := c[k := EncodeClaim(created)];
        if planned.Some? && plannedAbsent {
          PutClaim(c, n, planned.value, created);
          c := c[EncodeKey(planned.value) := EncodeClaim(created)];
        }
        bad := medium.Fails();
        if bad {
          return c, n, Err(IoError), true;
        }
        DropNote(c, n, key);
        n := n - {k};
        return c, n, Ok(()), false;
    }

    /** Nothing there, ours, or another's; a record that does not decode is a corrupt store. */
    static function OwnedByOther(claims: Table, key: ClaimKey, target: Bytes): (r: Result<Option<bool>>)
      requires Fits(key)
      ensures forall notes :: var view := ViewOf(claims, notes).claims;
        match Blocked(view, key, target)
        case None => r == Ok(if key in view then Some(false) else None)
        case Some(e) => r == if e == IoError then Ok(Some(true)) else Err(e)
    {
      var k := EncodeKey(key);
      if k !in claims then Ok(None)
      else
        match DecodeClaim(claims[k])
        case None => Err(StateCorrupt)
        case Some(stored) => Ok(Some(stored.target != target))
    }

    method ApplyRecovery(ops: seq<RecoveryOp>) returns (r: Result<()>, ghost io: bool)
      requires Valid() && forall i | 0 <= i < |ops| :: FitsOp(ops[i])
      modifies this, medium
      ensures Valid() && unsynced == old(unsynced) && medium.Since(old(medium.failures), io)
      ensures r.Err? ==> unchanged(this)
      ensures format != 2 ==> r == Err(IncompatibleState)
      ensures format == 2 ==> Follows(old(State()), Recover(ops), State(), r, io)
      ensures r.Ok? ==> history == old(history) + [Always]
    {
      hide EncodeKey, DecodeClaim, NoteOf, ApplyRecoveryOp, View, Keys, FitsOp, Grows;
      if format != 2 {
        return Err(IncompatibleState), false;
      }
      var bad := medium.Fails();
      if bad {
        return Err(IoError), true;
      }
      var c, n := claims, notes;
      for i := 0 to |ops|
        invariant medium.failures == old(medium.failures)
        invariant unchanged(this)
        invariant ApplyAll(State(), ops[..i]) == Ok(ViewOf(c, n))
      {
        assert ops[..i + 1][..i] == ops[..i];
        c, n, r, io := ApplyIn(c, n, ops[i]);
        if r.Err? {
          if !io {
            RecoveryFails(State(), ops, i + 1);
          }
          return;
        }
      }
      assert ops[..|ops|] == ops;
      r, io := CommitNow(c, n, Recover(ops));
    }

    method CommitPrepared(key: ClaimKey, target: Bytes, planned: Option<ClaimKey>)
      returns (r: Result<()>, ghost io: bool)
      requires Valid() && FitsOp(RecoveryOp.Commit(key, target, planned))
      modifies this, medium
      ensures Valid() && unsynced == old(unsynced) && medium.Since(old(medium.failures), io)
      ensures r.Err? ==> unchanged(this)
      ensures format != 2 ==> r == Err(IncompatibleState)
      ensures format == 2 ==> Follows(old(State()), Recover([RecoveryOp.Commit(key, target, planned)]), State(), r, io)
      ensures r.Ok? ==> history == old(history) + [Always]
    {
      r, io := ApplyRecovery([RecoveryOp.Commit(key, target, planned)]);
    }

    method DiscardPrepared(key: ClaimKey) returns (r: Result<()>, ghost io: bool)
      requires Valid() && Fits(key)
      modifies this, medium
      ensures Valid() && unsynced == old(unsynced) && medium.Since(old(medium.failures), io)
      ensures r.Err? ==> unchanged(this)
      ensures format != 2 ==> r == Err(IncompatibleState)
      ensures format == 2 ==> Follows(old(State()), Recover([Discard(key)]), State(), r, io)
      ensures r.Ok? ==> history == old(history) + [Always]
    {
      r, io := ApplyRecovery([Discard(key)]);
    }

    method Prepare(key: ClaimKey, note: PreparedRecord) returns (r: Result<()>, ghost io: bool)
      requires Valid() && Fits(key)
      modifies this, medium
      ensures Valid() && unsynced == old(unsynced) && medium.Since(old(medium.failures), io)
      ensures r.Err? ==> unchanged(this)
      ensures format != 2 ==> r == Err(IncompatibleState)
      ensures format == 2 ==> Follows(old(State()), Op.PrepareMany([(key, note)]), State(), r, io)
      ensures r.Ok? ==> history == old(history) + [Always]
    {
      r, io := PrepareMany([(key, note)]);
    }

    /** Any one call that may change the store. */
    method Call(op: Op) returns (r: Result<()>)
      requires Valid() && FitsCall(op)
      modifies this, medium
      ensures Valid()
      ensures old(history) <= history
      ensures Step(old(State()), op, State())
    {
      hide Apply, View, ViewOf, Keys;
      ghost var io;
      match op
      case Insert(key, record) =>
        var o;
        o, io := InsertIfAbsent(key, record);
        InsertMeans(old(State()), key, record);
        r := Ok(());
      case Upgrade(key, target) => r, io := UpgradeOwnClaim(key, target);
      case PrepareMany(items) => r, io := PrepareMany(items);
      case Recover(ops) => r, io := ApplyRecovery(ops);
    }

    /** Any calls one after another make a run of the contract, so everything proved of runs holds of this store. */
    method Calls(ops: seq<Op>) returns (ghost models: seq<Model>)
      requires Valid() && forall i | 0 <= i < |ops| :: FitsCall(ops[i])
      modifies this, medium
      ensures Valid() && Run(models, ops) && models[0] == old(State()) && models[|ops|] == State()
      ensures old(history) <= history && (unsynced == pending <==> NoneEarly(history))
    {
      hide Step, FitsCall;
      models := [State()];
      for i := 0 to |ops|
        invariant Valid() && |models| == i + 1 && models[0] == old(State()) && models[i] == State()
        invariant old(history) <= history
        invariant forall j | 0 <= j < i :: Step(models[j], ops[j], models[j + 1])
      {
        var r := Call(ops[i]);
        models := models + [State()];
      }
      CountIsExactIff(history);
    }

    /**
     `prepared`: all the notes, each with its own key, in the order of the keys; an unreadable key or note is an
     error, and never a note left out.
     */
    method Prepared() returns (r: Result<seq<(ClaimKey, PreparedRecord)>>, ghost io: bool)
      modifies medium
      ensures medium.Since(old(medium.failures), io)
      ensures format != 2 ==> r == Ok([])
      ensures format == 2 && !io ==> (r.Ok? <==> forall b | b in notes :: DecodeKey(b).Some? && Stored(notes[b]))
      ensures format == 2 && io ==> r == Err(IoError) || r == Err(StateCorrupt)
      ensures format == 2 && !io && r.Err? ==> r.error == StateCorrupt
      ensures format == 2 && r.Ok? ==> Lists(r.value, State().notes)
    {
      hide DecodeKey, DecodeClaim, NoteOf, Encoded, Lists, Ascending, Storable;
      if format != 2 {
        return Ok([]), false;
      }
      var corrupt: bool :| true;
      var failure := if corrupt then StateCorrupt else IoError;
      var bad := medium.Fails();
      if bad {
        return Err(failure), true;
      }
      var order := InOrder(notes);
      var out := [];
      for i := 0 to |order|
        invariant medium.failures == old(medium.failures)
        invariant |out| == i
        invariant forall j | 0 <= j < i :: Reads(notes, order[j], out[j])
      {
        bad := medium.Fails();
        if bad {
          return Err(failure), true;
        }
        var key := DecodeKey(order[i]);
        if key.None? {
          return Err(StateCorrupt), false;
        }
        var note := Decode(notes[order[i]]);
        if note.None? {
          return Err(StateCorrupt), false;
        }
        out := out + [(key.value, note.value)];
      }
      ListedInOrder(notes, order, out);
      return Ok(out), false;
    }
  }

  /**
   A claim is inserted and read back: the record given, if there was none, and otherwise the one that was there; an
   unreadable one stays unreadable.
   */
  method InsertThenGet(s: Store, key: ClaimKey, record: ClaimRecord) returns (r: Result<Option<ClaimRecord>>)
    requires s.Valid() && Fits(key)
    modifies s, s.medium
    ensures s.Valid()
    ensures s.medium.failures == old(s.medium.failures) ==>
      r ==
      if key !in old(s.State()).claims then Ok(Some(record))
      else if old(s.State()).claims[key].None? then Err(StateCorrupt)
      else Ok(old(s.State()).claims[key])
  {
    hide Grows, View, ViewOf, Keys, NoteOf, Apply;
    InsertMeans(s.State(), key, record);
    ghost var io;
    var inserted;
    inserted, io := s.InsertIfAbsent(key, record);
    r, io := s.Get(key);
  }

  /** A claim of ours is upgraded and read back: it is `Created`; the claim of another is read back as it was. */
  method UpgradeThenGet(s: Store, key: ClaimKey, target: Bytes) returns (r: Result<Option<ClaimRecord>>)
    requires s.Valid() && Fits(key)
    modifies s, s.medium
    ensures s.Valid()
    ensures s.medium.failures == old(s.medium.failures) ==>
      r ==
      if key !in old(s.State()).claims then Ok(None)
      else
        match old(s.State()).claims[key]
        case None => Err(StateCorrupt)
        case Some(was) => Ok(Some(if was.target == target then ClaimRecord(target, Created) else was))
  {
    hide Grows, View, ViewOf, Keys, NoteOf, Apply;
    UpgradeMeans(s.State(), key, target);
    ghost var io;
    var upgraded;
    upgraded, io := s.UpgradeOwnClaim(key, target);
    r, io := s.Get(key);
  }

  /** A commit of a claim and then of a note, which is always synced: nothing is unsynced, and one commit is counted. */
  method AnOvercount(medium: Medium, key: ClaimKey, record: ClaimRecord, note: PreparedRecord)
    returns (s: Store, ok: bool)
    requires Fits(key)
    modifies medium
    ensures ok <==> medium.failures == old(medium.failures)
    ensures ok ==> fresh(s) && s.Valid() && s.unsynced == 1 && s.pending == 0 && !NoneEarly(s.history)
  {
    hide Grows, View, ViewOf, Keys, NoteOf;
    s := new Store(2, false, map[], map[], medium);
    EmptyView();
    ghost var io;
    var inserted;
    inserted, io := s.InsertIfAbsent(key, record);
    if inserted != Ok(Inserted) {
      return s, false;
    }
    FirstNote(s.State(), key, note);
    var prepared;
    prepared, io := s.Prepare(key, note);
    ok := prepared.Ok?;
    CountIsExactIff(s.history);
  }

  lemma EmptyView()
    ensures ViewOf(map[], map[]) == Model(map[], map[])
  {
  }

  lemma FirstNote(m: Model, key: ClaimKey, note: PreparedRecord)
    requires key !in m.notes
    ensures Apply(m, Op.PrepareMany([(key, note)])).Ok?
  {
    var items := [(key, note)];
    assert items[..|items| - 1] == [] && PrepareAll(m, items[..|items| - 1]) == Ok(m);
  }

  lemma Lookup(claims: Table, notes: Table, key: ClaimKey)
    requires Fits(key)
    ensures var m := ViewOf(claims, notes);
      if key in m.claims then EncodeKey(key) in claims && m.claims[key] == DecodeClaim(claims[EncodeKey(key)])
      else EncodeKey(key) !in claims
  {
  }

  lemma LookupNote(claims: Table, notes: Table, key: ClaimKey)
    requires Fits(key)
    ensures key in ViewOf(claims, notes).notes <==> EncodeKey(key) in notes
  {
  }

  lemma PutNote(claims: Table, notes: Table, key: ClaimKey, b: Bytes)
    requires Fits(key)
    ensures var m := ViewOf(claims, notes);
      ViewOf(claims, notes[EncodeKey(key) := b]) == m.(notes := m.notes[key := NoteOf(b)])
  {
    hide EncodeKey, NoteOf, View;
    ViewPut(notes, b => NoteOf(b), key, b);
  }

  lemma DropNote(claims: Table, notes: Table, key: ClaimKey)
    requires Fits(key)
    ensures var m := ViewOf(claims, notes);
      ViewOf(claims, notes - {EncodeKey(key)}) == m.(notes := m.notes - {key})
  {
    hide EncodeKey, NoteOf, View;
    ViewRemove(notes, b => NoteOf(b), key);
  }

  lemma PutClaim(claims: Table, notes: Table, key: ClaimKey, record: ClaimRecord)
    requires Fits(key)
    ensures var m := ViewOf(claims, notes);
      ViewOf(claims[EncodeKey(key) := EncodeClaim(record)], notes) == m.(claims := m.claims[key := Some(record)])
  {
    hide EncodeKey, DecodeClaim, EncodeClaim, NoteOf, View;
    ViewPut(claims, DecodeClaim, key, EncodeClaim(record));
    ClaimCodecIsExact(EncodeClaim(record), record);
  }

  // ---------------------------------------------------------------------------------------------
  // Batches that stop

  lemma {:induction false} PrepareFails(m: Model, items: seq<(ClaimKey, PreparedRecord)>, n: nat)
    requires n <= |items| && PrepareAll(m, items[..n]).Err?
    ensures PrepareAll(m, items) == PrepareAll(m, items[..n])
    decreases |items|
  {
    if n == |items| {
      assert items[..n] == items;
    } else {
      var most := items[..|items| - 1];
      assert most[..n] == items[..n];
      PrepareFails(m, most, n);
    }
  }

  lemma {:induction false} RecoveryFails(m: Model, ops: seq<RecoveryOp>, n: nat)
    requires n <= |ops| && ApplyAll(m, ops[..n]).Err?
    ensures ApplyAll(m, ops) == ApplyAll(m, ops[..n])
    decreases |ops|
  {
    if n == |ops| {
      assert ops[..n] == ops;
    } else {
      var most := ops[..|ops| - 1];
      assert most[..n] == ops[..n];
      RecoveryFails(m, most, n);
    }
  }

  // ---------------------------------------------------------------------------------------------
  // The listing

  ghost predicate Reads(t: Table, b: Bytes, entry: (ClaimKey, PreparedRecord)) {
    b in t && DecodeKey(b) == Some(entry.0) && Storable(entry.1) && Encoded(entry.1) == t[b]
  }

  ghost predicate Lists(out: seq<(ClaimKey, PreparedRecord)>, notes: map<ClaimKey, Option<PreparedRecord>>) {
    && (forall i, j | 0 <= i < j < |out| :: KeyLess(out[i].0, out[j].0))
    && (forall i | 0 <= i < |out| :: out[i].0 in notes && notes[out[i].0] == Some(out[i].1))
    && (forall k | k in notes :: exists i | 0 <= i < |out| :: out[i].0 == k)
  }

  lemma ReadIsThere(t: Table, b: Bytes, entry: (ClaimKey, PreparedRecord))
    requires Reads(t, b, entry)
    ensures Fits(entry.0) && EncodeKey(entry.0) == b
    ensures entry.0 in Notes(t) && Notes(t)[entry.0] == Some(entry.1)
  {
    hide DecodeKey, EncodeKey, Encoded, Storable, NoteOf;
    KeyCodec(b, entry.0);
    NoteOfIsExact(t[b], entry.1);
  }

  lemma ReadsAreOrdered(t: Table, a: Bytes, b: Bytes, x: (ClaimKey, PreparedRecord), y: (ClaimKey, PreparedRecord))
    requires Reads(t, a, x) && Reads(t, b, y) && Less(a, b)
    ensures KeyLess(x.0, y.0)
  {
    hide Less, DecodeKey, EncodeKey, KeyLess, Encoded, Storable, NoteOf;
    ReadIsThere(t, a, x);
    ReadIsThere(t, b, y);
    StoredOrderIsKeyOrder(x.0, y.0);
  }

  lemma NoneIsLeftOut(t: Table, order: seq<Bytes>, out: seq<(ClaimKey, PreparedRecord)>, k: ClaimKey)
    requires (forall b :: b in order <==> b in t) && |out| == |order| && Fits(k) && EncodeKey(k) in t
    requires forall j | 0 <= j < |out| :: Reads(t, order[j], out[j])
    ensures exists i | 0 <= i < |out| :: out[i].0 == k
  {
    hide DecodeKey, EncodeKey, Encoded, Storable, NoteOf;
    var i :| 0 <= i < |order| && order[i] == EncodeKey(k);
    assert Reads(t, order[i], out[i]);
    KeyCodec(order[i], k);
  }

  ghost function Notes(t: Table): map<ClaimKey, Option<PreparedRecord>> { View(t, b => NoteOf(b)) }

  /** Which keys a table of notes has. */
  lemma NotesHas(t: Table, k: ClaimKey)
    requires k in Notes(t)
    ensures Fits(k) && EncodeKey(k) in t
  {
  }

  lemma ListedInOrder(t: Table, order: seq<Bytes>, out: seq<(ClaimKey, PreparedRecord)>)
    requires Ascending(order) && (forall b :: b in order <==> b in t) && |out| == |order|
    requires forall j | 0 <= j < |out| :: Reads(t, order[j], out[j])
    ensures Lists(out, Notes(t))
  {
    hide Less, EncodeKey, KeyLess, Reads, Fits, Notes;
    forall i | 0 <= i < |out|
      ensures out[i].0 in Notes(t) && Notes(t)[out[i].0] == Some(out[i].1)
    {
      ReadIsThere(t, order[i], out[i]);
    }
    forall i, j | 0 <= i < j < |out|
      ensures KeyLess(out[i].0, out[j].0)
    {
      ReadsAreOrdered(t, order[i], order[j], out[i], out[j]);
    }
    forall k | k in Notes(t)
      ensures exists i | 0 <= i < |out| :: out[i].0 == k
    {
      NotesHas(t, k);
      NoneIsLeftOut(t, order, out, k);
    }
  }

  predicate Ascending(keys: seq<Bytes>) {
    forall i, j | 0 <= i < j < |keys| :: Less(keys[i], keys[j])
  }

  lemma {:induction false} LessIsTotal(a: Bytes, b: Bytes)
    ensures Less(a, b) || a == b || Less(b, a)
    ensures !(Less(a, b) && Less(b, a)) && !Less(a, a)
  {
    if a != [] && b != [] {
      LessIsTotal(a[1..], b[1..]);
      assert a[0] == b[0] && a[1..] == b[1..] ==> a == [a[0]] + a[1..] == b;
    }
    if a != [] {
      LessIsTotal(a[1..], a[1..]);
    }
  }

  lemma {:induction false} LessIsTransitive(a: Bytes, b: Bytes, c: Bytes)
    requires Less(a, b) && Less(b, c)
    ensures Less(a, c)
  {
    if a != [] && a[0] == b[0] == c[0] {
      LessIsTransitive(a[1..], b[1..], c[1..]);
    }
  }

  method Least(keys: set<Bytes>) returns (least: Bytes)
    requires keys != {}
    ensures least in keys && forall b | b in keys :: b == least || Less(least, b)
  {
    hide Less;
    least :| least in keys;
    var rest := keys - {least};
    while rest != {}
      invariant rest <= keys && least in keys
      invariant forall b | b in keys - rest :: b == least || Less(least, b)
    {
      var next :| next in rest;
      LessIsTotal(next, least);
      if Less(next, least) {
        forall b | b in keys - rest
          ensures b == next || Less(next, b)
        {
          if b != least {
            LessIsTransitive(next, least, b);
          }
        }
        least := next;
      }
      rest := rest - {next};
    }
  }

  /** The storage engine's iteration: the keys of a table in byte order. */
  method InOrder(t: Table) returns (keys: seq<Bytes>)
    ensures Ascending(keys)
    ensures forall b :: b in keys <==> b in t
  {
    hide Less;
    keys := [];
    var rest := t.Keys;
    while rest != {}
      invariant rest <= t.Keys
      invariant Ascending(keys)
      invariant forall b :: b in keys <==> b in t.Keys - rest
      invariant forall a, b | a in keys && b in rest :: Less(a, b)
    {
      var least := Least(rest);
      keys := keys + [least];
      rest := rest - {least};
    }
  }
}
