/**
 The claim store: the contract of crates/flux-fs/src/claims.rs over keys and records, and the store of
 crates/flux-platform/src/claims.rs over tables of byte strings, proved against it.
 */
module ClaimStore {
  import opened Basics
  import opened ClaimCodec

  datatype Error = IoError | StateCorrupt | IncompatibleState

  datatype Result<+T> = Ok(value: T) | Err(error: Error)

  // ---------------------------------------------------------------------------------------------
  // The contract

  /** What a caller sees: a stored record that does not decode is there, but unreadable. */
  datatype Model = Model(claims: map<ClaimKey, Option<ClaimRecord>>, notes: map<ClaimKey, Option<PreparedRecord>>)

  /** The operations that change the store; only the last two may appear in a recovery batch. */
  datatype Op =
    | Insert(key: ClaimKey, record: ClaimRecord)
    | Upgrade(key: ClaimKey, target: Bytes)
    | PrepareMany(items: seq<(ClaimKey, PreparedRecord)>)
    | Recover(ops: seq<RecoveryOp>)

  datatype RecoveryOp =
    | Commit(key: ClaimKey, target: Bytes, planned: Option<ClaimKey>)
    | Discard(key: ClaimKey)

  function CreatedFor(target: Bytes): Option<ClaimRecord> { Some(ClaimRecord(target, Created)) }

  /** Why a claim for `target` cannot be made at `k`: an unreadable record, or a claim of another target. */
  function Blocked(claims: map<ClaimKey, Option<ClaimRecord>>, k: ClaimKey, target: Bytes): Option<Error> {
    if k !in claims then None
    else
      match claims[k]
      case None => Some(StateCorrupt)
      case Some(r) => if r.target != target then Some(IoError) else None
  }

  function ApplyRecoveryOp(m: Model, op: RecoveryOp): Result<Model> {
    match op
    case Discard(key) => Ok(m.(notes := m.notes - {key}))
    case Commit(key, target, planned) =>
      if Blocked(m.claims, key, target).Some? then Err(Blocked(m.claims, key, target).value)
      else if planned.Some? && Blocked(m.claims, planned.value, target).Some? then
        Err(Blocked(m.claims, planned.value, target).value)
      else
        var claims := m.claims[key := CreatedFor(target)];
        var all :=
          if planned.Some? && planned.value !in m.claims then claims[planned.value := CreatedFor(target)] else claims;
        Ok(Model(all, m.notes - {key}))
  }

  /** One operation after another, up to the first that fails. */
  function ApplyAll(m: Model, ops: seq<RecoveryOp>): Result<Model> {
    if ops == [] then Ok(m)
    else
      match ApplyAll(m, ops[..|ops| - 1])
      case Ok(n) => ApplyRecoveryOp(n, ops[|ops| - 1])
      case Err(e) => Err(e)
  }

  ghost function PrepareAll(m: Model, items: seq<(ClaimKey, PreparedRecord)>): Result<Model> {
    if items == [] then Ok(m)
    else
      match PrepareAll(m, items[..|items| - 1])
      case Err(e) => Err(e)
      case Ok(n) =>
        var (key, note) := items[|items| - 1];
        if key in n.notes then Err(IoError) else Ok(n.(notes := n.notes[key := NoteOf(Encoded(note))]))
  }

  /** The state an operation leads to when the medium does not fail. */
  ghost function Apply(m: Model, op: Op): Result<Model> {
    match op
    case Insert(key, record) =>
      if key in m.claims then Err(IoError) else Ok(m.(claims := m.claims[key := Some(record)]))
    case Upgrade(key, target) =>
      if key in m.claims && m.claims[key].Some? && m.claims[key].value.target == target
      then Ok(m.(claims := m.claims[key := CreatedFor(target)])) else Err(IoError)
    case PrepareMany(items) => PrepareAll(m, items)
    case Recover(ops) => ApplyAll(m, ops)
  }

  /** One call: it took effect, or it failed, for its own reason or the medium's, and changed nothing. */
  ghost predicate Step(m: Model, op: Op, n: Model) { n == m || Apply(m, op) == Ok(n) }

  /** The states of a run: `models[i]` before the i-th call. */
  ghost predicate Run(models: seq<Model>, ops: seq<Op>) {
    |models| == |ops| + 1 && forall i | 0 <= i < |ops| :: Step(models[i], ops[i], models[i + 1])
  }

  // ---------------------------------------------------------------------------------------------
  // Claims only grow

  predicate KeptAs(was: Option<ClaimRecord>, now: Option<ClaimRecord>) {
    match was
    case None => now == None
    case Some(r) => now.Some? && now.value.target == r.target && (r.status.Created? ==> now.value.status.Created?)
  }

  /** No claim is gone, none has another target, none has gone back from `Created` to `Existing`. */
  predicate Grows(m: Model, n: Model) {
    forall k | k in m.claims :: k in n.claims && KeptAs(m.claims[k], n.claims[k])
  }

  lemma GrowsOn(a: Model, b: Model, c: Model)
    requires Grows(a, b) && Grows(b, c)
    ensures Grows(a, c)
  {
  }

  lemma RecoveryOpGrows(m: Model, op: RecoveryOp)
    requires ApplyRecoveryOp(m, op).Ok?
    ensures Grows(m, ApplyRecoveryOp(m, op).value)
  {
  }

  lemma {:induction false} RecoveryGrows(m: Model, ops: seq<RecoveryOp>)
    requires ApplyAll(m, ops).Ok?
    ensures Grows(m, ApplyAll(m, ops).value)
  {
    hide ApplyRecoveryOp, Grows;
    if ops == [] {
      SameGrows(m);
    } else {
      var most := ops[..|ops| - 1];
      RecoveryGrows(m, most);
      RecoveryOpGrows(ApplyAll(m, most).value, ops[|ops| - 1]);
      GrowsOn(m, ApplyAll(m, most).value, ApplyAll(m, ops).value);
    }
  }

  lemma SameGrows(m: Model)
    ensures Grows(m, m)
  {
  }

  lemma {:induction false} PrepareKeepsClaims(m: Model, items: seq<(ClaimKey, PreparedRecord)>)
    requires PrepareAll(m, items).Ok?
    ensures PrepareAll(m, items).value.claims == m.claims
  {
    if items != [] {
      PrepareKeepsClaims(m, items[..|items| - 1]);
    }
  }

  lemma StepGrows(m: Model, op: Op, n: Model)
    requires Step(m, op, n)
    ensures Grows(m, n)
  {
    if n != m {
      match op
      case Insert(_, _) =>
      case Upgrade(_, _) =>
      case PrepareMany(items) => PrepareKeepsClaims(m, items);
      case Recover(ops) => RecoveryGrows(m, ops);
    }
  }

  /** Over every run, whatever fails on the way, a claim is never released, changed or taken back. */
  lemma {:induction false} ClaimsOnlyGrow(models: seq<Model>, ops: seq<Op>, i: nat, j: nat)
    requires Run(models, ops) && i <= j < |models|
    ensures Grows(models[i], models[j])
    decreases j
  {
    hide Grows;
    if i == j {
      SameGrows(models[i]);
    } else {
      ClaimsOnlyGrow(models, ops, i, j - 1);
      assert Step(models[j - 1], ops[j - 1], models[j - 1 + 1]);
      StepGrows(models[j - 1], ops[j - 1], models[j]);
      GrowsOn(models[i], models[j - 1], models[j]);
    }
  }

  // ---------------------------------------------------------------------------------------------
  // Batches

  /** The operations of a batch as calls of their own. */
  function Singles(ops: seq<RecoveryOp>): (calls: seq<Op>)
    ensures |calls| == |ops| && forall i | 0 <= i < |ops| :: calls[i] == Recover([ops[i]])
  {
    seq(|ops|, i requires 0 <= i < |ops| => Recover([ops[i]]))
  }

  lemma OneOp(m: Model, op: RecoveryOp)
    ensures Apply(m, Recover([op])) == ApplyRecoveryOp(m, op)
  {
    assert ApplyAll(m, [op][..0]) == Ok(m);
  }

  /**
   A batch does what its operations do one by one: there is a run of single calls, none of them failing, to the
   state the batch leads to, and when the batch fails, one of the single calls fails at the state reached so far.
   */
  lemma {:induction false} BatchesAreSequential(m: Model, ops: seq<RecoveryOp>) returns (models: seq<Model>)
    ensures 1 <= |models| <= |ops| + 1 && models[0] == m
    ensures forall i | 0 <= i < |models| - 1 :: Apply(models[i], Singles(ops)[i]) == Ok(models[i + 1])
    ensures match ApplyAll(m, ops)
      case Ok(n) => |models| == |ops| + 1 && models[|ops|] == n
      case Err(e) => |models| <= |ops| && Apply(models[|models| - 1], Singles(ops)[|models| - 1]) == Err(e)
  {
    hide ApplyRecoveryOp, Apply;
    if ops == [] {
      models := [m];
    } else {
      var most := ops[..|ops| - 1];
      models := BatchesAreSequential(m, most);
      forall i | 0 <= i < |most|
        ensures Singles(ops)[i] == Singles(most)[i]
      {
        assert most[i] == ops[i];
      }
      if ApplyAll(m, most).Ok? {
        OneOp(models[|most|], ops[|most|]);
        if ApplyAll(m, ops).Ok? {
          models := models + [ApplyAll(m, ops).value];
        }
      }
    }
  }

  /** No key of the batch has a note, in the store or earlier in the batch. */
  predicate FreshKeys(m: Model, items: seq<(ClaimKey, PreparedRecord)>) {
    forall i | 0 <= i < |items| :: FreshKey(m, items, i)
  }

  predicate FreshKey(m: Model, items: seq<(ClaimKey, PreparedRecord)>, i: nat)
    requires i < |items|
  {
    items[i].0 !in m.notes && forall j | 0 <= j < i :: items[j].0 != items[i].0
  }

  predicate KeyIn(items: seq<(ClaimKey, PreparedRecord)>, k: ClaimKey) {
    exists i | 0 <= i < |items| :: items[i].0 == k
  }

  /** A batch of notes is taken if and only if all its keys are fresh; it then adds just those keys. */
  lemma {:induction false} NotesAreAllOrNothing(m: Model, items: seq<(ClaimKey, PreparedRecord)>)
    ensures PrepareAll(m, items) == Err(IoError) || PrepareAll(m, items).Ok?
    ensures PrepareAll(m, items).Ok? <==> FreshKeys(m, items)
    ensures PrepareAll(m, items).Ok? ==>
              forall k :: k in PrepareAll(m, items).value.notes <==> k in m.notes || KeyIn(items, k)
  {
    hide NoteOf, Encoded;
    if items != [] {
      var last := |items| - 1;
      var most := items[..last];
      NotesAreAllOrNothing(m, most);
      assert forall i | 0 <= i < last :: most[i] == items[i];
      assert FreshKeys(m, items) <==> FreshKeys(m, most) && FreshKey(m, items, last) by {
        assert forall i | 0 <= i < last :: FreshKey(m, items, i) <==> FreshKey(m, most, i);
      }
      assert forall k :: KeyIn(items, k) <==> KeyIn(most, k) || items[last].0 == k;
    }
  }

  /** Each note of a taken batch is stored under its key, and no other note or claim changes. */
  lemma {:induction false} NotesAreStored(m: Model, items: seq<(ClaimKey, PreparedRecord)>)
    requires PrepareAll(m, items).Ok?
    ensures var n := PrepareAll(m, items).value;
      && n.claims == m.claims
      && (forall i | 0 <= i < |items| :: items[i].0 in n.notes && n.notes[items[i].0] == NoteOf(Encoded(items[i].1)))
      && (forall k | k in m.notes :: k in n.notes && n.notes[k] == m.notes[k])
  {
    hide NoteOf, Encoded;
    if items != [] {
      NotesAreStored(m, items[..|items| - 1]);
      assert forall i | 0 <= i < |items| - 1 :: items[..|items| - 1][i] == items[i];
    }
  }

  /** A key with no claim, or with a claim of this very target. */
  predicate Available(m: Model, k: ClaimKey, target: Bytes) {
    k in m.claims ==> m.claims[k].Some? && m.claims[k].value.target == target
  }

  /** Every claim but the one at `key` is as it was. */
  ghost predicate SameBut(m: Model, n: Model, key: ClaimKey) {
    && (forall k | k != key :: k in n.claims <==> k in m.claims)
    && (forall k | k in m.claims && k != key :: k in n.claims && n.claims[k] == m.claims[k])
  }

  /** An insert is taken exactly at a key without a claim; the claim there is then the very record given. */
  lemma InsertMeans(m: Model, key: ClaimKey, record: ClaimRecord)
    ensures var r := Apply(m, Insert(key, record));
      if key in m.claims then r == Err(IoError)
      else
        && r.Ok? && key in r.value.claims && r.value.claims[key] == Some(record)
        && SameBut(m, r.value, key) && r.value.notes == m.notes
  {
  }

  /** An upgrade is taken exactly of a readable claim of this target, which is then `Created`. */
  lemma UpgradeMeans(m: Model, key: ClaimKey, target: Bytes)
    ensures var r := Apply(m, Upgrade(key, target));
      if key !in m.claims || m.claims[key].None? || m.claims[key].value.target != target then r == Err(IoError)
      else
        && r.Ok? && key in r.value.claims && r.value.claims[key] == Some(ClaimRecord(target, Created))
        && SameBut(m, r.value, key) && r.value.notes == m.notes
  {
  }

  /** A discarded note is gone, and nothing else with it; that it is gone already is no error. */
  lemma DiscardMeans(m: Model, key: ClaimKey)
    ensures var r := Apply(m, Recover([Discard(key)]));
      && r.Ok? && r.value.claims == m.claims && key !in r.value.notes
      && (forall k | k != key :: k in r.value.notes <==> k in m.notes)
      && (forall k | k in m.notes && k != key :: r.value.notes[k] == m.notes[k])
  {
    OneOp(m, Discard(key));
  }

  /**
   The commit of a note: when it is refused and with which error, what it makes, and all it leaves as it was. An
   unreadable claim in the way is a corrupt store; the note's own key is looked at before the planned one.
   */
  lemma CommitMeans(m: Model, key: ClaimKey, target: Bytes, planned: Option<ClaimKey>)
    ensures var r := Apply(m, Recover([Commit(key, target, planned)]));
      var made := Some(ClaimRecord(target, Created));
      && (r.Ok? <==> Available(m, key, target) && (planned.Some? ==> Available(m, planned.value, target)))
      && (r.Err? ==>
            var k := if Available(m, key, target) then planned.value else key;
            r.error == if m.claims[k].None? then StateCorrupt else IoError)
      && (r.Ok? ==>
            && key in r.value.claims && r.value.claims[key] == made
            && (planned.Some? && planned.value !in m.claims ==>
                  planned.value in r.value.claims && r.value.claims[planned.value] == made)
            && (forall k | k != key && Some(k) != planned :: k in r.value.claims <==> k in m.claims)
            && (forall k | k in m.claims && k != key :: k in r.value.claims && r.value.claims[k] == m.claims[k])
            && r.value.notes == m.notes - {key})
  {
    OneOp(m, Commit(key, target, planned));
  }

  /** What is left to do of a recovery operation: nothing. */
  predicate Settled(m: Model, op: RecoveryOp) {
    && op.key !in m.notes
    && (op.Commit? ==>
          && op.key in m.claims && m.claims[op.key] == CreatedFor(op.target)
          && (op.planned.Some? ==>
                && op.planned.value in m.claims && m.claims[op.planned.value].Some?
                && m.claims[op.planned.value].value.target == op.target))
  }

  lemma AppliedIsSettled(m: Model, op: RecoveryOp)
    requires ApplyRecoveryOp(m, op).Ok?
    ensures Settled(ApplyRecoveryOp(m, op).value, op)
    ensures ApplyRecoveryOp(m, op).value.notes.Keys <= m.notes.Keys
  {
  }

  lemma SettledStays(m: Model, n: Model, op: RecoveryOp)
    requires Settled(m, op) && Grows(m, n) && n.notes.Keys <= m.notes.Keys
    ensures Settled(n, op)
  {
  }

  lemma SettledIsDone(m: Model, op: RecoveryOp)
    requires Settled(m, op)
    ensures ApplyRecoveryOp(m, op) == Ok(m)
  {
    assert m.notes - {op.key} == m.notes;
    if op.Commit? {
      assert m.claims[op.key := CreatedFor(op.target)] == m.claims;
    }
  }

  lemma {:induction false} BatchSettles(m: Model, ops: seq<RecoveryOp>)
    requires ApplyAll(m, ops).Ok?
    ensures forall i | 0 <= i < |ops| :: Settled(ApplyAll(m, ops).value, ops[i])
    ensures ApplyAll(m, ops).value.notes.Keys <= m.notes.Keys
  {
    hide ApplyRecoveryOp, Settled, Grows;
    if ops != [] {
      var last := |ops| - 1;
      var most := ops[..last];
      BatchSettles(m, most);
      var n := ApplyAll(m, most).value;
      AppliedIsSettled(n, ops[last]);
      RecoveryOpGrows(n, ops[last]);
      forall i | 0 <= i < last
        ensures Settled(ApplyAll(m, ops).value, ops[i])
      {
        assert most[i] == ops[i];
        SettledStays(n, ApplyAll(m, ops).value, ops[i]);
      }
    }
  }

  lemma {:induction false} SettledBatchIsDone(m: Model, ops: seq<RecoveryOp>)
    requires forall i | 0 <= i < |ops| :: Settled(m, ops[i])
    ensures ApplyAll(m, ops) == Ok(m)
  {
    hide ApplyRecoveryOp, Settled;
    if ops != [] {
      SettledBatchIsDone(m, ops[..|ops| - 1]);
      SettledIsDone(m, ops[|ops| - 1]);
    }
  }

  /** A recovery that took effect and is run again changes nothing. */
  lemma RecoveryIsIdempotent(m: Model, ops: seq<RecoveryOp>)
    requires ApplyAll(m, ops).Ok?
    ensures ApplyAll(ApplyAll(m, ops).value, ops) == ApplyAll(m, ops)
  {
    BatchSettles(m, ops);
    SettledBatchIsDone(ApplyAll(m, ops).value, ops);
  }

  // ---------------------------------------------------------------------------------------------
  // The tables

  type Table = map<Bytes, Bytes>

  ghost function Keys(t: Table): (keys: set<ClaimKey>)
    ensures forall k :: k in keys <==> Fits(k) && EncodeKey(k) in t
  {
    var keys := set b | b in t && DecodeKey(b).Some? :: DecodeKey(b).value;
    assert forall k :: k in keys <==> Fits(k) && EncodeKey(k) in t by {
      forall k
        ensures k in keys <==> Fits(k) && EncodeKey(k) in t
      {
        KeyCodec(EncodeKey(k), k);
        if k in keys {
          var b :| b in t && DecodeKey(b) == Some(k);
          KeyCodec(b, k);
        }
      }
    }
    keys
  }

  ghost function View<V>(t: Table, dec: Bytes -> V): map<ClaimKey, V> {
    map k | k in Keys(t) :: dec(t[EncodeKey(k)])
  }

  ghost function ViewOf(claims: Table, notes: Table): Model {
    Model(View(claims, DecodeClaim), View(notes, b => NoteOf(b)))
  }

  lemma ViewPut<V>(t: Table, dec: Bytes -> V, k: ClaimKey, v: Bytes)
    requires Fits(k)
    ensures View(t[EncodeKey(k) := v], dec) == View(t, dec)[k := dec(v)]
  {
    hide EncodeKey;
    forall o | Fits(o)
      ensures EncodeKey(o) == EncodeKey(k) <==> o == k
    {
      KeysAreInjective(o, k);
    }
  }

  lemma ViewRemove<V>(t: Table, dec: Bytes -> V, k: ClaimKey)
    requires Fits(k)
    ensures View(t - {EncodeKey(k)}, dec) == View(t, dec) - {k}
  {
    hide EncodeKey;
    forall o | Fits(o)
      ensures EncodeKey(o) == EncodeKey(k) <==> o == k
    {
      KeysAreInjective(o, k);
    }
  }
}
