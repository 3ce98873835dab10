/**
 The barrier that syncs a batch of staged files on several threads (crates/flux-core/src/copy.rs, `next_wake` and
 `sync_staged_many`), as an interleaving of atomic steps: workers draw indices from a shared counter, sync, and send;
 the calling thread receives, and beats on an absolute grid of times.
 */
module Barrier {
  import opened Basics
  import opened Protocol

  /** A sync's result: the failing code, if any. */
  type Synced = Option<Code>

  // ---------------------------------------------------------------------------------------------
  // The grid of heartbeats

  /** The first point after `now` on the grid through `deadline` with step `every`, never before `deadline`. */
  function GridAfter(deadline: int, now: int, every: int): int
    requires every > 0
  {
    if deadline > now then deadline else deadline + ((now - deadline) / every + 1) * every
  }

  /** `next_wake`: the loop ends at that point. A zero interval would never end it, so the interval is positive. */
  method NextWake(deadline: int, now: int, every: int) returns (d: int)
    requires every > 0
    ensures d == GridAfter(deadline, now, every)
  {
    d := deadline;
    ghost var k: nat := 0;
    while d <= now
      invariant d == deadline + k * every
      invariant k > 0 ==> deadline + (k - 1) * every <= now
      decreases now - d
    {
      d := d + every;
      k := k + 1;
    }
    if k > 0 {
      QuotientIsUnique(now - deadline, every, k - 1);
    }
  }

  lemma MulOrder(a: int, b: int, every: int)
    requires every > 0 && a <= b
    ensures a * every <= b * every
  {
    assert (b - a) * every >= 0;
  }

  lemma QuotientIsUnique(x: int, every: int, k: int)
    requires every > 0 && k * every <= x < (k + 1) * every
    ensures x / every == k
  {
    var q := x / every;
    assert q * every <= x < (q + 1) * every;
    if q < k {
      MulOrder(q + 1, k, every);
    }
    if q > k {
      MulOrder(k + 1, q, every);
    }
  }

  /** Whether the loop of `next_wake` ends: some number of steps leads past `now`. */
  ghost predicate Ends(deadline: int, now: int, every: int) {
    exists k: nat :: StepTo(deadline, k, every) > now
  }

  function StepTo(deadline: int, k: nat, every: int): int { deadline + k * every }

  /** The loop of `next_wake` ends exactly for a positive interval, or when there is nothing to step past. */
  lemma TheLoopEndsIff(deadline: int, now: int, every: int)
    requires every >= 0
    ensures Ends(deadline, now, every) <==> every > 0 || deadline > now
  {
    if deadline > now {
      assert StepTo(deadline, 0, every) > now;
    } else if every > 0 {
      var k := now - deadline + 1;
      MulOrder(1, every, k);
      assert StepTo(deadline, k, every) > now;
    }
  }

  lemma AZeroIntervalNeverEnds()
    ensures !Ends(0, 0, 0)
  {
    TheLoopEndsIff(0, 0, 0);
  }

  /** `GridAfter` is a grid point past `now`, and the grid point before it is not, unless no step was needed. */
  lemma GridAfterIsFirst(start: int, k: int, now: int, every: int) returns (j: int)
    requires every > 0
    ensures j >= k && GridAfter(start + k * every, now, every) == start + j * every > now
    ensures j > k ==> start + (j - 1) * every <= now
    ensures j == k ==> start + k * every > now
  {
    var deadline := start + k * every;
    if deadline > now {
      return k;
    }
    var q := (now - deadline) / every;
    j := k + q + 1;
    assert q * every <= now - deadline < q * every + every;
    assert (k + q) * every == k * every + q * every;
    assert j * every == k * every + q * every + every;
  }

  // ---------------------------------------------------------------------------------------------
  // The interleaving

  datatype Worker = Idle | Holding(i: nat) | Sending(i: nat, r: Synced) | Finished

  /** Where the index of a writer is; a record kept beside the run, which no step looks at. */
  datatype Place = Unclaimed | With(w: nat) | Queued | Delivered

  datatype Clock = Clock(start: int, every: int, now: int, deadline: int, beats: nat, heartbeat: Option<Code>)

  /** `syncs[i]` is the list of the results of every sync made of writer `i`. */
  datatype State = State(
    n: nat, next: nat, workers: seq<Worker>, channel: seq<(nat, Synced)>, slots: seq<Option<Synced>>, received: nat,
    clock: Clock, syncs: seq<seq<Synced>>, place: seq<Place>)

  datatype Step =
    | Fetch(w: nat)
    | SyncOne(w: nat, r: Synced)
    | Send(w: nat)
    | Receive
    | Wake(fault: Option<Code>, later: int)
    | Tick(later: int)

  /** The steps that move the batch forward, as against the passing of time. */
  predicate Works(st: Step) {
    !st.Wake? && !st.Tick?
  }

  /** The calling thread still waits, and an interval has passed for which it has not beaten. */
  predicate Due(s: State) {
    s.received < s.n && s.clock.now >= s.clock.deadline
  }

  /** What each thread may do. The calling thread takes a result that is queued before it looks at the time. */
  predicate Enabled(s: State, st: Step) {
    match st
    case Fetch(w) => w < |s.workers| && s.workers[w].Idle?
    case SyncOne(w, _) => w < |s.workers| && s.workers[w].Holding?
    case Send(w) => w < |s.workers| && s.workers[w].Sending?
    case Receive => s.received < s.n && s.channel != []
    case Wake(_, later) => s.channel == [] && Due(s) && later >= s.clock.now && s.clock.every > 0
    case Tick(later) => later >= s.clock.now
  }

  /** `beat_if_due`: one beat unless one has failed already, then on along the grid. */
  function Beaten(c: Clock, fault: Option<Code>, later: int): Clock
    requires c.every > 0
  {
    c.(now := later,
       deadline := GridAfter(c.deadline, later, c.every),
       beats := if c.heartbeat.None? then c.beats + 1 else c.beats,
       heartbeat := if c.heartbeat.None? then fault else c.heartbeat)
  }

  function Apply(s: State, st: Step): State
    requires Enabled(s, st) && Shaped(s)
  {
    match st
    case Fetch(w) =>
      if s.next >= s.n then s.(next := s.next + 1, workers := s.workers[w := Finished])
      else s.(next := s.next + 1, workers := s.workers[w := Holding(s.next)], place := s.place[s.next := With(w)])
    case SyncOne(w, r) =>
      var i := s.workers[w].i;
      s.(workers := s.workers[w := Sending(i, r)], syncs := s.syncs[i := s.syncs[i] + [r]])
    case Send(w) =>
      var Sending(i, r) := s.workers[w];
      s.(workers := s.workers[w := Idle], channel := s.channel + [(i, r)], place := s.place[i := Queued])
    case Receive =>
      var (i, r) := s.channel[0];
      s.(channel := s.channel[1..], slots := s.slots[i := Some(r)],
         received := s.received + 1, place := s.place[i := Delivered])
    case Wake(fault, later) => s.(clock := Beaten(s.clock, fault, later))
    case Tick(later) => s.(clock := s.clock.(now := later))
  }

  /** Every index anyone handles is one of a writer. */
  predicate Shaped(s: State) {
    && |s.slots| == |s.syncs| == |s.place| == s.n
    && (forall w | 0 <= w < |s.workers| :: (s.workers[w].Holding? || s.workers[w].Sending?) ==> s.workers[w].i < s.n)
    && (forall a | 0 <= a < |s.channel| :: s.channel[a].0 < s.n)
  }

  function Deliveries(place: seq<Place>): nat {
    if place == [] then 0 else (if place[0] == Delivered then 1 else 0) + Deliveries(place[1..])
  }

  /** The worker that holds an index is the one its place names. */
  predicate WorkersFit(s: State)
    requires Shaped(s)
  {
    && (forall w | 0 <= w < |s.workers| ::
          (s.workers[w].Holding? || s.workers[w].Sending?) ==> s.place[s.workers[w].i] == With(w))
    && (forall w | 0 <= w < |s.workers| :: s.workers[w].Holding? ==> s.syncs[s.workers[w].i] == [])
    && (forall w | 0 <= w < |s.workers| :: s.workers[w].Sending? ==> s.syncs[s.workers[w].i] == [s.workers[w].r])
    && (forall w | 0 <= w < |s.workers| :: s.workers[w].Finished? ==> s.next > s.n)
  }

  /** What is in the channel is there once, with the result of its writer's one sync. */
  predicate ChannelFits(s: State)
    requires Shaped(s)
  {
    && (forall a | 0 <= a < |s.channel| ::
          s.place[s.channel[a].0] == Queued && s.syncs[s.channel[a].0] == [s.channel[a].1])
    && (forall a, b | 0 <= a < b < |s.channel| :: s.channel[a].0 != s.channel[b].0)
  }

  /** Every place is real. */
  ghost predicate PlacesFit(s: State)
    requires Shaped(s)
  {
    && (forall i | 0 <= i < s.n :: s.place[i] == Unclaimed <==> i >= s.next)
    && (forall i | 0 <= i < s.n :: s.place[i] == Unclaimed ==> s.syncs[i] == [])
    && (forall i | 0 <= i < s.n :: s.place[i].With? ==>
         s.place[i].w < |s.workers| && (s.workers[s.place[i].w].Holding? || s.workers[s.place[i].w].Sending?)
         && s.workers[s.place[i].w].i == i)
    && (forall i | 0 <= i < s.n :: s.place[i] == Queued ==> exists a | 0 <= a < |s.channel| :: s.channel[a].0 == i)
    && (forall i | 0 <= i < s.n :: s.place[i] == Delivered <==> s.slots[i].Some?)
    && (forall i | 0 <= i < s.n :: s.slots[i].Some? ==> s.syncs[i] == [s.slots[i].value])
  }

  /** The deadline is a grid point still ahead of the last beat, and there are no more beats than grid points passed. */
  ghost predicate ClockFits(c: Clock) {
    && c.every > 0
    && exists k: nat {:trigger OnGrid(c, k)} :: OnGrid(c, k)
  }

  predicate OnGrid(c: Clock, k: nat) {
    k >= 1 && c.deadline == c.start + k * c.every && c.beats <= k - 1 && c.start + (k - 1) * c.every <= c.now
  }

  ghost predicate Inv(s: State) {
    && Shaped(s) && WorkersFit(s) && ChannelFits(s) && PlacesFit(s) && ClockFits(s.clock)
    && s.received == Deliveries(s.place) && |s.workers| >= 1
  }

  /** The barrier as its threads start: `k` workers, nothing claimed, the first deadline one interval ahead. */
  function Start(n: nat, k: nat, start: int, every: int): State {
    State(n, 0, seq(k, _ => Idle), [], seq(n, _ => None), 0, Clock(start, every, start, start + every, 0, None),
          seq(n, _ => []), seq(n, _ => Unclaimed))
  }

  lemma {:induction false} NothingDelivered(place: seq<Place>)
    requires forall i | 0 <= i < |place| :: place[i] != Delivered
    ensures Deliveries(place) == 0
  {
    if place != [] {
      NothingDelivered(place[1..]);
    }
  }

  lemma {:induction false} DeliverOne(place: seq<Place>, i: nat, p: Place)
    requires i < |place|
    ensures Deliveries(place[i := p]) ==
      Deliveries(place) + (if p == Delivered then 1 else 0) - (if place[i] == Delivered then 1 else 0)
  {
    if i == 0 {
      assert place[i := p][1..] == place[1..];
    } else {
      DeliverOne(place[1..], i - 1, p);
      assert place[i := p][1..] == place[1..][i - 1 := p];
    }
  }

  lemma {:induction false} AllDelivered(place: seq<Place>)
    ensures Deliveries(place) <= |place|
    ensures Deliveries(place) == |place| ==> forall i | 0 <= i < |place| :: place[i] == Delivered
  {
    if place != [] {
      AllDelivered(place[1..]);
    }
  }

  lemma StartIsFit(n: nat, k: nat, start: int, every: int)
    requires k >= 1 && every > 0
    ensures Inv(Start(n, k, start, every))
  {
    var s := Start(n, k, start, every);
    NothingDelivered(s.place);
    assert OnGrid(s.clock, 1);
  }

  lemma BeatKeepsTheGrid(c: Clock, fault: Option<Code>, later: int)
    requires ClockFits(c) && c.now >= c.deadline && later >= c.now
    ensures ClockFits(Beaten(c, fault, later)) && Beaten(c, fault, later).deadline > later
  {
    var k: nat :| OnGrid(c, k);
    var j := GridAfterIsFirst(c.start, k, later, c.every);
    assert OnGrid(Beaten(c, fault, later), j);
  }

  lemma FetchKeeps(s: State, w: nat)
    requires Inv(s) && Enabled(s, Fetch(w))
    ensures Inv(Apply(s, Fetch(w)))
  {
    if s.next < s.n {
      DeliverOne(s.place, s.next, With(w));
    }
  }

  lemma SyncKeeps(s: State, w: nat, r: Synced)
    requires Inv(s) && Enabled(s, SyncOne(w, r))
    ensures Inv(Apply(s, SyncOne(w, r)))
  {
    assert s.place[s.workers[w].i] == With(w);
  }

  lemma SendKeepsOthers(s: State, w: nat)
    requires Inv(s) && Enabled(s, Send(w))
    ensures var t := Apply(s, Send(w)); Shaped(t) && WorkersFit(t) && ChannelFits(t)
  {
    hide PlacesFit, ClockFits, Deliveries;
    var t := Apply(s, Send(w));
    assert s.place[s.workers[w].i] == With(w);
    assert forall a | 0 <= a < |s.channel| :: t.channel[a] == s.channel[a];
  }

  lemma SendKeepsPlaces(s: State, w: nat)
    requires Inv(s) && Enabled(s, Send(w)) && Shaped(Apply(s, Send(w)))
    ensures PlacesFit(Apply(s, Send(w)))
  {
    hide ChannelFits, ClockFits, Deliveries;
    var Sending(i, r) := s.workers[w];
    var t := Apply(s, Send(w));
    assert t.channel[|s.channel|] == (i, r);
    forall j | 0 <= j < t.n && t.place[j] == Queued
      ensures exists a | 0 <= a < |t.channel| :: t.channel[a].0 == j
    {
      if j != i {
        var a :| 0 <= a < |s.channel| && s.channel[a].0 == j;
        assert t.channel[a].0 == j;
      }
    }
  }

  lemma SendKeeps(s: State, w: nat)
    requires Inv(s) && Enabled(s, Send(w))
    ensures Inv(Apply(s, Send(w)))
  {
    SendKeepsOthers(s, w);
    SendKeepsPlaces(s, w);
    assert s.place[s.workers[w].i] == With(w);
    hide PlacesFit, ClockFits, WorkersFit, ChannelFits, Shaped;
    DeliverOne(s.place, s.workers[w].i, Queued);
  }

  lemma ReceiveKeepsOthers(s: State)
    requires Inv(s) && Enabled(s, Receive)
    ensures var t := Apply(s, Receive); Shaped(t) && WorkersFit(t) && ChannelFits(t)
  {
    hide PlacesFit, ClockFits, Deliveries;
    var t := Apply(s, Receive);
    assert s.place[s.channel[0].0] == Queued;
    assert forall a | 0 <= a < |t.channel| :: t.channel[a] == s.channel[a + 1];
  }

  lemma ReceiveKeepsPlaces(s: State)
    requires Inv(s) && Enabled(s, Receive) && Shaped(Apply(s, Receive))
    ensures PlacesFit(Apply(s, Receive))
  {
    hide ClockFits, Deliveries, WorkersFit;
    var t := Apply(s, Receive);
    forall j | 0 <= j < t.n && t.place[j] == Queued
      ensures exists a | 0 <= a < |t.channel| :: t.channel[a].0 == j
    {
      var a :| 0 <= a < |s.channel| && s.channel[a].0 == j;
      assert t.channel[a - 1].0 == j;
    }
  }

  lemma ReceiveKeeps(s: State)
    requires Inv(s) && Enabled(s, Receive)
    ensures Inv(Apply(s, Receive))
  {
    ReceiveKeepsOthers(s);
    ReceiveKeepsPlaces(s);
    assert s.place[s.channel[0].0] == Queued;
    hide PlacesFit, ClockFits, WorkersFit, ChannelFits, Shaped;
    DeliverOne(s.place, s.channel[0].0, Delivered);
  }

  lemma StepKeeps(s: State, st: Step)
    requires Inv(s) && Enabled(s, st)
    ensures Inv(Apply(s, st))
  {
    match st
    case Fetch(w) => FetchKeeps(s, w);
    case SyncOne(w, r) => SyncKeeps(s, w, r);
    case Send(w) => SendKeeps(s, w);
    case Receive => ReceiveKeeps(s);
    case Wake(f, later) => BeatKeepsTheGrid(s.clock, f, later);
    case Tick(later) =>
      var k: nat :| OnGrid(s.clock, k);
      assert OnGrid(Apply(s, st).clock, k);
  }

  // ---------------------------------------------------------------------------------------------
  // Whole runs

  /** `steps` is a schedule the threads may follow from `s`. */
  ghost predicate Schedule(s: State, steps: seq<Step>)
    decreases |steps|
  {
    steps == [] || (Shaped(s) && Enabled(s, steps[0]) && Schedule(Apply(s, steps[0]), steps[1..]))
  }

  ghost function Exec(s: State, steps: seq<Step>): State
    requires Schedule(s, steps)
    decreases |steps|
  {
    if steps == [] then s else Exec(Apply(s, steps[0]), steps[1..])
  }

  lemma {:induction false} EveryScheduleIsFit(s: State, steps: seq<Step>)
    requires Inv(s) && Schedule(s, steps)
    ensures Inv(Exec(s, steps)) && Exec(s, steps).n == s.n
    decreases |steps|
  {
    if steps != [] {
      StepKeeps(s, steps[0]);
      EveryScheduleIsFit(Apply(s, steps[0]), steps[1..]);
    }
  }

  /**
   For every number of workers and every schedule: once all results are received, every writer has been synced
   exactly once and its slot holds that sync's own result, so the final `expect` cannot fail.
   */
  lemma EveryWriterIsSyncedOnce(n: nat, k: nat, start: int, every: int, steps: seq<Step>, i: nat)
    requires k >= 1 && every > 0 && Schedule(Start(n, k, start, every), steps)
    requires Exec(Start(n, k, start, every), steps).received == n && i < n
    ensures var s := Exec(Start(n, k, start, every), steps);
      && |s.slots| == |s.syncs| == n
      && s.slots[i].Some? && s.syncs[i] == [s.slots[i].value]
  {
    StartIsFit(n, k, start, every);
    EveryScheduleIsFit(Start(n, k, start, every), steps);
    AllDelivered(Exec(Start(n, k, start, every), steps).place);
  }

  /** A writer some worker still has to deal with. */
  lemma SomeoneIsMissing(s: State) returns (i: nat)
    requires Inv(s) && s.received < s.n
    ensures i < s.n && s.place[i] != Delivered
  {
    if forall i | 0 <= i < s.n :: s.place[i] == Delivered {
      AllAreCounted(s.place);
    }
    i :| 0 <= i < s.n && s.place[i] != Delivered;
  }

  lemma {:induction false} AllAreCounted(place: seq<Place>)
    requires forall i | 0 <= i < |place| :: place[i] == Delivered
    ensures Deliveries(place) == |place|
  {
    if place != [] {
      AllAreCounted(place[1..]);
    }
  }

  /** The receive loop never finds the channel closed with a result missing. */
  lemma NeverDisconnectedEarly(s: State)
    requires Inv(s) && s.received < s.n
    ensures s.channel != [] || exists w | 0 <= w < |s.workers| :: !s.workers[w].Finished?
  {
    var i := SomeoneIsMissing(s);
    if s.place[i] == Unclaimed {
      assert !s.workers[0].Finished?;
    } else if s.place[i].With? {
      assert !s.workers[s.place[i].w].Finished?;
    }
  }

  /** While a result is missing, some thread can take a step that is not the mere passing of time. */
  lemma NeverStuck(s: State) returns (st: Step)
    requires Inv(s) && s.received < s.n
    ensures Works(st) && Enabled(s, st)
  {
    var i := SomeoneIsMissing(s);
    if s.place[i] == Queued {
      return Receive;
    }
    var w := if s.place[i].With? then s.place[i].w else 0;
    assert !s.workers[w].Finished?;
    match s.workers[w]
    case Idle => st := Fetch(w);
    case Holding(_) => st := SyncOne(w, None);
    case Sending(_, _) => st := Send(w);
  }

  function Weight(w: Worker): nat {
    match w
    case Idle => 1
    case Holding(_) => 4
    case Sending(_, _) => 3
    case Finished => 0
  }

  function Weights(ws: seq<Worker>): nat {
    if ws == [] then 0 else Weight(ws[0]) + Weights(ws[1..])
  }

  /** The steps of work still to come. */
  function Left(s: State): nat {
    4 * (s.n - Min(s.next, s.n)) + Weights(s.workers) + |s.channel|
  }

  lemma {:induction false} ReWeigh(ws: seq<Worker>, w: nat, x: Worker)
    requires w < |ws|
    ensures Weights(ws[w := x]) == Weights(ws) + Weight(x) - Weight(ws[w])
  {
    if w == 0 {
      assert ws[w := x][1..] == ws[1..];
    } else {
      ReWeigh(ws[1..], w - 1, x);
      assert ws[w := x][1..] == ws[1..][w - 1 := x];
    }
  }

  lemma WorkIsDone(s: State, st: Step)
    requires Shaped(s) && Enabled(s, st)
    ensures Left(Apply(s, st)) == Left(s) - (if Works(st) then 1 else 0)
  {
    match st
    case Fetch(w) => ReWeigh(s.workers, w, if s.next >= s.n then Finished else Holding(s.next));
    case SyncOne(w, r) => ReWeigh(s.workers, w, Sending(s.workers[w].i, r));
    case Send(w) => ReWeigh(s.workers, w, Idle);
    case _ =>
  }

  function WorkIn(steps: seq<Step>): nat {
    if steps == [] then 0 else (if Works(steps[0]) then 1 else 0) + WorkIn(steps[1..])
  }

  /** Work is conserved: what a schedule has done and what it leaves add up, to `4n + k` for `k` workers. */
  lemma {:induction false} WorkIsConserved(s: State, steps: seq<Step>)
    requires Inv(s) && Schedule(s, steps)
    ensures WorkIn(steps) + Left(Exec(s, steps)) == Left(s)
    decreases |steps|
  {
    if steps != [] {
      StepKeeps(s, steps[0]);
      WorkIsDone(s, steps[0]);
      WorkIsConserved(Apply(s, steps[0]), steps[1..]);
    }
  }

  lemma {:induction false} IdleWeights(k: nat)
    ensures Weights(seq(k, _ => Idle)) == k
  {
    if k > 0 {
      IdleWeights(k - 1);
      assert seq(k, _ => Idle)[1..] == seq(k - 1, _ => Idle);
    }
  }

  /** No schedule, however unfair, makes more than `4n + k` steps of work before every result is in. */
  lemma WorkIsBounded(n: nat, k: nat, start: int, every: int, steps: seq<Step>)
    requires k >= 1 && every > 0 && Schedule(Start(n, k, start, every), steps)
    ensures WorkIn(steps) <= 4 * n + k
    ensures WorkIn(steps) == 4 * n + k ==> Exec(Start(n, k, start, every), steps).received == n
  {
    var s := Start(n, k, start, every);
    StartIsFit(n, k, start, every);
    IdleWeights(k);
    WorkIsConserved(s, steps);
    EveryScheduleIsFit(s, steps);
    var t := Exec(s, steps);
    if WorkIn(steps) == 4 * n + k && t.received < n {
      var st := NeverStuck(t);
      WorkIsDone(t, st);
      assert false;
    }
    AllDelivered(t.place);
  }

  /** Beats never outnumber the intervals that have passed. */
  lemma BeatsFollowTheGrid(s: State)
    requires Inv(s)
    ensures s.clock.beats * s.clock.every <= s.clock.now - s.clock.start
  {
    var k: nat :| OnGrid(s.clock, k);
    MulOrder(s.clock.beats, k - 1, s.clock.every);
  }

  /** After a failed beat there is no other, and that failure is the one reported. */
  lemma {:induction false} AFailedBeatIsTheLast(s: State, steps: seq<Step>)
    requires Schedule(s, steps) && s.clock.heartbeat.Some?
    ensures Exec(s, steps).clock.heartbeat == s.clock.heartbeat && Exec(s, steps).clock.beats == s.clock.beats
    decreases |steps|
  {
    if steps != [] {
      AFailedBeatIsTheLast(Apply(s, steps[0]), steps[1..]);
    }
  }

  function Receives(steps: seq<Step>): nat {
    if steps == [] then 0 else (if steps[0].Receive? then 1 else 0) + Receives(steps[1..])
  }

  lemma {:induction false} ReceivesAreCounted(s: State, steps: seq<Step>)
    requires Inv(s) && Schedule(s, steps)
    ensures Exec(s, steps).received == s.received + Receives(steps)
    decreases |steps|
  {
    if steps != [] {
      StepKeeps(s, steps[0]);
      ReceivesAreCounted(Apply(s, steps[0]), steps[1..]);
    }
  }

  predicate IsCallers(st: Step) { st.Receive? || st.Wake? }

  predicate NoWake(steps: seq<Step>) {
    forall i | 0 <= i < |steps| :: !steps[i].Wake?
  }

  /** When a beat is due, it can be made exactly if no result is queued, and is then all the calling thread can do. */
  lemma ADueBeatIsMadeIffNothingIsQueued(s: State, st: Step)
    requires Inv(s) && Due(s)
    ensures Enabled(s, Wake(None, s.clock.now)) <==> s.channel == []
    ensures Enabled(s, st) && IsCallers(st) ==> (st.Wake? <==> s.channel == [])
  {
  }

  /**
   A beat that is due and not made stays due, and waits behind the missing results only: all the calling thread does
   meanwhile is to receive them. The batch is complete, and the beat never made, exactly when it received them all.
   */
  lemma {:induction false} ADueBeatWaitsForMissingResultsOnly(s: State, steps: seq<Step>)
    requires Inv(s) && Schedule(s, steps) && NoWake(steps) && s.clock.now >= s.clock.deadline
    ensures var t := Exec(s, steps);
      && t.clock.now >= t.clock.deadline && t.clock.beats == s.clock.beats
      && Receives(steps) <= s.n - s.received
      && (t.received == t.n <==> Receives(steps) == s.n - s.received)
    decreases |steps|
  {
    ReceivesAreCounted(s, steps);
    EveryScheduleIsFit(s, steps);
    AllDelivered(Exec(s, steps).place);
    if steps != [] {
      StepKeeps(s, steps[0]);
      ADueBeatWaitsForMissingResultsOnly(Apply(s, steps[0]), steps[1..]);
    }
  }

  /** A schedule of two writers and one worker in which an interval passes and no beat is ever made for it. */
  lemma ADueBeatMayNeverBeMade(start: int, every: int, t: int) returns (steps: seq<Step>)
    requires every > 0 && t >= start + every
    ensures Schedule(Start(2, 1, start, every), steps)
    ensures var s := Exec(Start(2, 1, start, every), steps);
      s.received == 2 && s.clock.now == t >= s.clock.deadline && s.clock.beats == 0
  {
    var fetch, sync, send := Fetch(0), SyncOne(0, None), Send(0);
    var last := [Receive] + [Receive];
    var more := [fetch] + ([sync] + ([send] + ([Tick(t)] + last)));
    steps := [fetch] + ([sync] + ([send] + more));
    var s0 := Start(2, 1, start, every);
    var s3 := HandsOver(s0, 0, more);
    var s6 := HandsOver(s3, 1, [Tick(t)] + last);
    Follow(s6, Tick(t), last);
    var s7 := Apply(s6, Tick(t));
    Follow(s7, Receive, [Receive]);
    var s8 := Apply(s7, Receive);
    assert [Receive] + [] == [Receive];
    Follow(s8, Receive, []);
  }

  lemma Follow(s: State, st: Step, rest: seq<Step>)
    requires Shaped(s) && Enabled(s, st)
    ensures Schedule(s, [st] + rest) <==> Schedule(Apply(s, st), rest)
    ensures Schedule(Apply(s, st), rest) ==> Exec(s, [st] + rest) == Exec(Apply(s, st), rest)
  {
    assert ([st] + rest)[1..] == rest;
  }

  /** The one worker draws writer `i`, syncs it and sends its result. */
  lemma HandsOver(s: State, i: nat, rest: seq<Step>) returns (t: State)
    requires Shaped(s) && s.workers == [Idle] && s.next == i < s.n
    ensures t == s.(next := i + 1, channel := s.channel + [(i, None)], place := t.place, syncs := t.syncs)
    ensures Shaped(t)
    ensures var steps := [Fetch(0)] + ([SyncOne(0, None)] + ([Send(0)] + rest));
      && (Schedule(s, steps) <==> Schedule(t, rest))
      && (Schedule(t, rest) ==> Exec(s, steps) == Exec(t, rest))
  {
    var a := Apply(s, Fetch(0));
    var b := Apply(a, SyncOne(0, None));
    t := Apply(b, Send(0));
    Follow(s, Fetch(0), [SyncOne(0, None)] + ([Send(0)] + rest));
    Follow(a, SyncOne(0, None), [Send(0)] + rest);
    Follow(b, Send(0), rest);
  }

  // ---------------------------------------------------------------------------------------------
  // The calling thread, by the calls it makes

  /** A call of the calling thread: a sync of its own, a look at the time, a beat, and what a wait for results gave. */
  datatype Act =
    | SyncOf(i: nat, r: Synced)
    | Look(now: int)
    | BeatOf(fault: Option<Code>)
    | Take(i: nat, r: Synced)
    | TimeOut(now: int)

  /**
   Where the calling thread stands, with its clock as it last saw it: what it must do next after a sync of its own,
   after a look before a wait, and after it has seen that the deadline has passed.
   */
  datatype Caller =
    | Unbegun
    | Free(clock: Clock)
    | JustSynced(clock: Clock)
    | Waiting(clock: Clock)
    | BeatDue(clock: Clock)
    | MustStep(clock: Clock)
    | Stray

  function Begun(start: int, every: int): Clock {
    Clock(start, every, start, start + every, 0, None)
  }

  /** The deadline has passed: a beat, unless one has failed already, and then on along the grid. */
  function Late(c: Clock): Caller {
    if c.heartbeat.None? then BeatDue(c) else MustStep(c)
  }

  function CallerAfter(every: int, c: Caller, a: Act): Caller
    requires every > 0
  {
    match (c, a)
    case (Unbegun, Look(t)) => Free(Begun(t, every))
    case (Free(k), SyncOf(_, _)) => JustSynced(k)
    case (Free(k), Look(t)) => if t < k.now then Stray else Waiting(k.(now := t))
    case (JustSynced(k), Look(t)) =>
      if t < k.now then Stray else if t < k.deadline then Free(k.(now := t)) else Late(k.(now := t))
    case (Waiting(k), Take(_, _)) => Free(k)
    case (Waiting(k), TimeOut(t)) => if t < k.now || t < k.deadline then Stray else Late(k.(now := t))
    case (BeatDue(k), BeatOf(f)) => MustStep(k.(beats := k.beats + 1, heartbeat := f))
    case (MustStep(k), Look(t)) =>
      if t < k.now then Stray else Free(k.(now := t, deadline := GridAfter(k.deadline, t, every)))
    case _ => Stray
  }

  /** Where the calls so far have led. */
  function CallerAt(every: int, calls: seq<Act>): Caller
    requires every > 0
  {
    if calls == [] then Unbegun
    else CallerAfter(every, CallerAt(every, calls[..|calls| - 1]), calls[|calls| - 1])
  }

  lemma OneMoreCall(every: int, calls: seq<Act>, a: Act)
    requires every > 0
    ensures CallerAt(every, calls + [a]) == CallerAfter(every, CallerAt(every, calls), a)
    ensures BeatsIn(calls + [a]) == BeatsIn(calls) + (if a.BeatOf? then [a.fault] else [])
  {
    assert (calls + [a])[..|calls|] == calls;
  }

  /** The answers of the heartbeats among the calls. */
  function BeatsIn(calls: seq<Act>): seq<Option<Code>> {
    if calls == [] then []
    else
      var a := calls[|calls| - 1];
      BeatsIn(calls[..|calls| - 1]) + (if a.BeatOf? then [a.fault] else [])
  }

  /** Every answer but the last let the wait go on, and a failing last one is the failure reported. */
  predicate OneFailure(beats: seq<Option<Code>>, heartbeat: Option<Code>) {
    && (forall i | 0 <= i < |beats| - 1 :: beats[i].None?)
    && heartbeat == if beats == [] then None else beats[|beats| - 1]
  }

  predicate Answered(c: Clock, beats: seq<Option<Code>>) {
    c.beats == |beats| && OneFailure(beats, c.heartbeat)
  }

  /** The clock is on its grid; right after a beat the deadline has still to step past it. */
  ghost predicate CallerFits(every: int, c: Caller) {
    match c
    case Unbegun => true
    case Stray => true
    case MustStep(k) =>
      k.every == every > 0 && exists m: nat {:trigger OnGrid(k.(beats := 0), m)} ::
        OnGrid(k.(beats := 0), m) && k.beats <= m && k.deadline <= k.now
    case _ => c.clock.every == every && ClockFits(c.clock) && (c.BeatDue? ==> c.clock.deadline <= c.clock.now)
  }

  lemma CallKeepsTheGrid(every: int, c: Caller, a: Act)
    requires every > 0 && CallerFits(every, c)
    ensures CallerFits(every, CallerAfter(every, c, a))
  {
    var d := CallerAfter(every, c, a);
    if c.Unbegun? && a.Look? {
      assert OnGrid(d.clock, 1);
    } else if c.MustStep? && a.Look? && !d.Stray? {
      var m: nat :| OnGrid(c.clock.(beats := 0), m) && c.clock.beats <= m;
      var j := GridAfterIsFirst(c.clock.start, m, a.now, every);
      assert OnGrid(d.clock, j);
    } else if !d.Stray? {
      var m: nat :| OnGrid(c.clock, m);
      assert OnGrid(d.clock.(beats := 0), m);
      assert d.clock.beats <= m - 1 ==> OnGrid(d.clock, m);
    }
  }

  /** Wherever the calling thread stands, its clock is on the grid, and its beats are the ones it made. */
  lemma {:induction false} CallsFit(every: int, calls: seq<Act>)
    requires every > 0
    ensures CallerFits(every, CallerAt(every, calls))
    ensures var c := CallerAt(every, calls);
      if c.Unbegun? then calls == [] else !c.Stray? ==> Answered(c.clock, BeatsIn(calls))
  {
    if calls != [] {
      var n := |calls| - 1;
      CallsFit(every, calls[..n]);
      CallKeepsTheGrid(every, CallerAt(every, calls[..n]), calls[n]);
    }
  }

  lemma {:induction false} NeverStray(every: int, calls: seq<Act>, i: nat)
    requires every > 0 && i <= |calls| && !CallerAt(every, calls).Stray?
    ensures !CallerAt(every, calls[..i]).Stray?
    decreases |calls|
  {
    if i < |calls| {
      NeverStray(every, calls[..|calls| - 1], i);
      assert calls[..|calls| - 1][..i] == calls[..i];
    } else {
      assert calls[..i] == calls;
    }
  }

  /** The calls up to one, and what that one does. */
  lemma CallAt(every: int, calls: seq<Act>, i: nat)
    requires every > 0 && i < |calls| && !CallerAt(every, calls).Stray?
    ensures var c := CallerAt(every, calls[..i]);
      !c.Stray? && CallerAt(every, calls[..i + 1]) == CallerAfter(every, c, calls[i]) != Stray
  {
    NeverStray(every, calls, i);
    NeverStray(every, calls, i + 1);
    assert calls[..i + 1][..i] == calls[..i];
  }

  /** The calling thread sees, by its `i`th call, that the deadline it had then has passed, and no beat has failed. */
  predicate SeesItLate(every: int, calls: seq<Act>, i: nat)
    requires every > 0 && i < |calls|
  {
    var c, a := CallerAt(every, calls[..i]), calls[i];
    && (a.TimeOut? || (a.Look? && i > 0 && calls[i - 1].SyncOf?))
    && !c.Unbegun? && !c.Stray? && a.now >= c.clock.deadline
    && forall j | 0 <= j < i :: calls[j].BeatOf? ==> calls[j].fault.None?
  }

  lemma {:induction false} BeatsInAre(calls: seq<Act>, f: Option<Code>)
    ensures f in BeatsIn(calls) <==> BeatOf(f) in calls
  {
    if calls != [] {
      var n := |calls| - 1;
      BeatsInAre(calls[..n], f);
      assert calls == calls[..n] + [calls[n]];
    }
  }

  /** The clock knows of a failed beat exactly if there was one. */
  lemma FailureIsKnown(every: int, calls: seq<Act>)
    requires every > 0 && !CallerAt(every, calls).Unbegun? && !CallerAt(every, calls).Stray?
    ensures CallerAt(every, calls).clock.heartbeat.None? <==>
      forall j | 0 <= j < |calls| :: calls[j].BeatOf? ==> calls[j].fault.None?
  {
    CallsFit(every, calls);
    var h := CallerAt(every, calls).clock.heartbeat;
    var beats := BeatsIn(calls);
    if h.Some? {
      BeatsInAre(calls, h);
      assert beats[|beats| - 1] in beats;
    } else {
      forall j | 0 <= j < |calls| && calls[j].BeatOf?
        ensures calls[j].fault.None?
      {
        BeatsInAre(calls, calls[j].fault);
      }
    }
  }

  /**
   In every completed record of calls: the time is looked at right after every sync made here; and there is a beat
   exactly right after the calling thread has seen, by such a look or by a wait that timed out, that its deadline has
   passed, unless a beat has failed before.
   */
  lemma BeatsAreMadeWhenDue(every: int, calls: seq<Act>, i: nat)
    requires every > 0 && CallerAt(every, calls).Free? && i < |calls|
    ensures calls[i].SyncOf? ==> i + 1 < |calls| && calls[i + 1].Look?
    ensures SeesItLate(every, calls, i) <==> i + 1 < |calls| && calls[i + 1].BeatOf?
  {
    CallAt(every, calls, i);
    var c, d := CallerAt(every, calls[..i]), CallerAt(every, calls[..i + 1]);
    if i + 1 < |calls| {
      CallAt(every, calls, i + 1);
    } else {
      assert calls[..i + 1] == calls;
    }
    if i > 0 {
      CallAt(every, calls, i - 1);
    }
    if !c.Unbegun? {
      FailureIsKnown(every, calls[..i]);
    }
  }

  // ---------------------------------------------------------------------------------------------
  // The calling thread, as it runs

  /** The steps of the workers, which they take while the calling thread waits. */
  predicate OfWorkers(st: Step) {
    st.Fetch? || st.SyncOne? || st.Send?
  }

  lemma FitIsShaped(s: State)
    requires Inv(s)
    ensures Shaped(s) && s.clock.every > 0
  {
  }

  /** A step of a worker, and the time it takes, change nothing of the calling thread's, and lessen the work left. */
  lemma WorkerStep(s: State, st: Step, later: int)
    requires Inv(s) && OfWorkers(st) && Enabled(s, st) && later >= s.clock.now
    ensures var t := Apply(s, st);
      && Shaped(t) && Enabled(t, Tick(later))
      && var u := Apply(t, Tick(later));
      && Inv(u) && u.n == s.n && u.slots == s.slots && u.received == s.received && u.clock == s.clock.(now := later)
      && Left(u) < Left(s)
  {
    hide WorkersFit, ChannelFits, PlacesFit, Deliveries, Left;
    StepKeeps(s, st);
    WorkIsDone(s, st);
    StepKeeps(Apply(s, st), Tick(later));
    WorkIsDone(Apply(s, st), Tick(later));
  }

  lemma TimePasses(s: State, later: int)
    requires Inv(s) && later >= s.clock.now
    ensures var t := Apply(s, Tick(later));
      Inv(t) && t == s.(clock := s.clock.(now := later)) && Left(t) == Left(s)
  {
    hide WorkersFit, ChannelFits, PlacesFit, Deliveries, Left;
    StepKeeps(s, Tick(later));
    WorkIsDone(s, Tick(later));
  }

  /**
   The writers of a batch, the threads, the time and the lock's heartbeat, with a record of every call made on them.
   They decide how long a sync takes, what it answers, which thread may start, how the workers interleave, and, finitely
   often, that a wait runs out.
   */
  class Batch {
    /** The results of every sync of each writer, and the order in which writers were synced by the calling thread. */
    var syncs: seq<seq<Synced>>
    var order: seq<nat>
    /** Whether each thread asked for could be started. */
    var spawns: seq<bool>
    /** The calls of the calling thread. */
    var calls: seq<Act>
    var time: int
    /** How many waits may still run out. */
    var patience: nat

    constructor (n: nat, time: int, patience: nat)
      ensures syncs == seq(n, _ => []) && order == [] && spawns == [] && calls == [] && this.time == time
    {
      syncs, order, spawns, calls := seq(n, _ => []), [], [], [];
      this.time, this.patience := time, patience;
    }

    /** `sync_all` of writer `i`, by the calling thread. */
    method Sync(i: nat) returns (r: Synced)
      requires i < |syncs|
      modifies this`syncs, this`order, this`calls
      ensures syncs == old(syncs)[i := old(syncs)[i] + [r]] && order == old(order) + [i]
      ensures calls == old(calls) + [SyncOf(i, r)]
    {
      r :| true;
      syncs, order, calls := syncs[i := syncs[i] + [r]], order + [i], calls + [SyncOf(i, r)];
    }

    /** `Instant::now`. */
    method Now() returns (t: int)
      modifies this`time, this`calls
      ensures t == time >= old(time) && calls == old(calls) + [Look(t)]
    {
      t :| t >= time;
      time, calls := t, calls + [Look(t)];
    }

    method Beat() returns (f: Option<Code>)
      modifies this`calls
      ensures calls == old(calls) + [BeatOf(f)]
    {
      f :| true;
      calls := calls + [BeatOf(f)];
    }

    method Spawn() returns (ok: bool)
      modifies this`spawns
      ensures spawns == old(spawns) + [ok]
    {
      ok :| true;
      spawns := spawns + [ok];
    }

    /**
     `recv_timeout`: the workers go on, and it ends with a result that is queued; or, once `wait` has passed and
     nothing is queued, with none.
     */
    method Receive(s: State, wait: nat) returns (t: State, got: Option<(nat, Synced)>)
      requires Inv(s) && s.received < s.n && syncs == s.syncs && time == s.clock.now
      modifies this`syncs, this`time, this`calls, this`patience
      ensures Inv(t) && syncs == t.syncs && time == t.clock.now >= old(time)
      ensures t.n == s.n && t.slots == s.slots && t.received == s.received && t.clock == s.clock.(now := time)
      ensures got.Some? ==> t.channel != [] && t.channel[0] == got.value
      ensures got.Some? ==> calls == old(calls) + [Take(got.value.0, got.value.1)]
      ensures got.None? ==> t.channel == [] && time >= old(time) + wait && calls == old(calls) + [TimeOut(time)]
      ensures Left(t) <= Left(s) && patience <= old(patience) && (got.None? ==> patience < old(patience))
    {
      hide Inv, WorkersFit, ChannelFits, PlacesFit, ClockFits, Deliveries, Left, Apply, Shaped;
      t := s;
      var until := time + wait;
      while true
        invariant Inv(t) && syncs == t.syncs && time == t.clock.now >= old(time) && calls == old(calls)
        invariant t.n == s.n && t.slots == s.slots && t.received == s.received && t.clock == s.clock.(now := time)
        invariant Left(t) <= Left(s) && patience == old(patience)
        decreases Left(t)
      {
        var ends: bool :| true;
        if ends && t.channel == [] && patience > 0 {
          var end: int :| end >= time && end >= until;
          TimePasses(t, end);
          t, time, patience := t.(clock := t.clock.(now := end)), end, patience - 1;
          calls := calls + [TimeOut(time)];
          return t, None;
        }
        var st: Step :| true;
        if !(OfWorkers(st) && Enabled(t, st)) {
          if t.channel == [] {
            ghost var possible := NeverStuck(t);
            st :| OfWorkers(st) && Enabled(t, st);
          } else {
            ends := true;
          }
        }
        if ends && t.channel != [] {
          var (i, r) := t.channel[0];
          calls := calls + [Take(i, r)];
          return t, Some((i, r));
        }
        var later: int :| later >= time;
        FitIsShaped(t);
        WorkerStep(t, st, later);
        t, time := Apply(Apply(t, st), Tick(later)), later;
        syncs := t.syncs;
      }
    }
  }

  /** `beat_if_due`, at a deadline that has passed. */
  method BeatIfDue(batch: Batch, clock: Clock) returns (after: Clock, ghost fault: Option<Code>)
    requires clock.every > 0 && CallerAt(clock.every, batch.calls) == Late(clock) && clock.now <= batch.time
    modifies batch`calls, batch`time
    ensures CallerAt(clock.every, batch.calls) == Free(after) && after.now == batch.time >= old(batch.time)
    ensures after == Beaten(clock, fault, batch.time) && after.now < after.deadline
  {
    var every := clock.every;
    fault, after := None, clock;
    if clock.heartbeat.None? {
      OneMoreBeat(every, batch.calls);
      var f := batch.Beat();
      fault, after := f, clock.(beats := clock.beats + 1, heartbeat := f);
    }
    OneMoreLook(every, batch.calls);
    var later := batch.Now();
    var wake := NextWake(clock.deadline, later, every);
    after := after.(now := later, deadline := wake);
    var _ := GridAfterIsFirst(clock.deadline, 0, later, every);
  }

  lemma OneMoreBeat(every: int, calls: seq<Act>)
    requires every > 0
    ensures forall f :: CallerAt(every, calls + [BeatOf(f)]) == CallerAfter(every, CallerAt(every, calls), BeatOf(f))
  {
    forall f
      ensures CallerAt(every, calls + [BeatOf(f)]) == CallerAfter(every, CallerAt(every, calls), BeatOf(f))
    {
      OneMoreCall(every, calls, BeatOf(f));
    }
  }

  lemma OneMoreLook(every: int, calls: seq<Act>)
    requires every > 0
    ensures forall t :: CallerAt(every, calls + [Look(t)]) == CallerAfter(every, CallerAt(every, calls), Look(t))
  {
    forall t
      ensures CallerAt(every, calls + [Look(t)]) == CallerAfter(every, CallerAt(every, calls), Look(t))
    {
      OneMoreCall(every, calls, Look(t));
    }
  }

  /** Writer `i` of the first `done` has been synced once, with the result in its place; the others not at all. */
  predicate SyncedOnce(syncs: seq<seq<Synced>>, results: seq<Synced>, done: nat) {
    && |results| == done <= |syncs|
    && forall i | 0 <= i < |syncs| :: syncs[i] == if i < done then [results[i]] else []
  }

  /** One writer's turn on the calling thread: its sync, a look at the time, and a beat if the deadline has passed. */
  method SyncOneHere(batch: Batch, i: nat, clock: Clock) returns (r: Synced, after: Clock)
    requires clock.every > 0 && i < |batch.syncs| && CallerAt(clock.every, batch.calls) == Free(clock)
    requires clock.now == batch.time
    modifies batch`syncs, batch`order, batch`calls, batch`time
    ensures batch.syncs == old(batch.syncs)[i := old(batch.syncs)[i] + [r]] && batch.order == old(batch.order) + [i]
    ensures CallerAt(clock.every, batch.calls) == Free(after) && after.every == clock.every
    ensures after.now == batch.time < after.deadline
  {
    hide CallerAt;
    var every := clock.every;
    r := batch.Sync(i);
    OneMoreCall(every, old(batch.calls), SyncOf(i, r));
    OneMoreLook(every, batch.calls);
    var now := batch.Now();
    after := clock.(now := now);
    if now >= after.deadline {
      ghost var fault;
      after, fault := BeatIfDue(batch, after);
    }
  }

  /** With no worker the syncs are made here, in index order, beating whenever the deadline has passed. */
  method SyncHere(batch: Batch, n: nat, every: int) returns (results: seq<Synced>, clock: Clock)
    requires every > 0 && |batch.syncs| == n && batch.calls == [] && SyncedOnce(batch.syncs, [], 0)
    modifies batch`syncs, batch`order, batch`calls, batch`time
    ensures SyncedOnce(batch.syncs, results, n)
    ensures batch.order == old(batch.order) + seq(n, i => i)
    ensures CallerAt(every, batch.calls) == Free(clock) && clock.now < clock.deadline
  {
    OneMoreLook(every, batch.calls);
    var start := batch.Now();
    clock := Begun(start, every);
    results := [];
    for i := 0 to n
      invariant |batch.syncs| == n && SyncedOnce(batch.syncs, results, i)
      invariant batch.order == old(batch.order) + seq(i, j => j)
      invariant CallerAt(every, batch.calls) == Free(clock) && clock.every == every && clock.now == batch.time
      invariant clock.now < clock.deadline
    {
      var r;
      r, clock := SyncOneHere(batch, i, clock);
      results := results + [r];
    }
  }

  /** The threads are asked for one by one, until enough run or one is refused. */
  method SpawnWorkers(batch: Batch, wanted: nat) returns (ran: nat)
    requires batch.spawns == []
    modifies batch`spawns
    ensures ran <= wanted
    ensures batch.spawns == seq(ran, _ => true) + if ran < wanted then [false] else []
  {
    ran := 0;
    while ran < wanted
      invariant ran <= wanted && batch.spawns == seq(ran, _ => true)
    {
      var ok := batch.Spawn();
      if !ok {
        return;
      }
      ran := ran + 1;
    }
  }

  /** The threads, from their start until the calling thread has every result. */
  method RunWorkers(batch: Batch, n: nat, ran: nat, every: int) returns (s: State)
    requires every > 0 && ran >= 1 && |batch.syncs| == n && batch.calls == [] && SyncedOnce(batch.syncs, [], 0)
    modifies batch`syncs, batch`calls, batch`time, batch`patience
    ensures |s.slots| == |batch.syncs| == n
    ensures forall i | 0 <= i < n :: s.slots[i].Some? && batch.syncs[i] == [s.slots[i].value]
    ensures CallerAt(every, batch.calls).Free? && CallerAt(every, batch.calls).clock.heartbeat == s.clock.heartbeat
  {
    OneMoreLook(every, batch.calls);
    var start := batch.Now();
    s := Start(n, ran, start, every);
    assert batch.syncs == s.syncs;
    StartIsFit(n, ran, start, every);
    while s.received < n
      invariant Inv(s) && s.n == n && s.clock.every == every && batch.syncs == s.syncs && batch.time == s.clock.now
      invariant CallerAt(every, batch.calls).Free? && SeenBy(s.clock, CallerAt(every, batch.calls).clock)
      decreases Left(s) + batch.patience
    {
      s := ReceiveOrBeat(batch, s);
    }
    AllDelivered(s.place);
  }

  /** What the calling thread knows of the time is not ahead of it. */
  predicate SeenBy(c: Clock, seen: Clock) {
    seen == c.(now := seen.now) && seen.now <= c.now
  }

  /** One turn of the receiving loop. */
  method ReceiveOrBeat(batch: Batch, s: State) returns (t: State)
    requires Inv(s) && s.received < s.n && batch.syncs == s.syncs && batch.time == s.clock.now
    requires CallerAt(s.clock.every, batch.calls).Free?
    requires SeenBy(s.clock, CallerAt(s.clock.every, batch.calls).clock)
    modifies batch`syncs, batch`calls, batch`time, batch`patience
    ensures Inv(t) && t.n == s.n && t.clock.every == s.clock.every
    ensures batch.syncs == t.syncs && batch.time == t.clock.now
    ensures CallerAt(s.clock.every, batch.calls).Free?
    ensures SeenBy(t.clock, CallerAt(s.clock.every, batch.calls).clock)
    ensures Left(t) + batch.patience < Left(s) + old(batch.patience)
  {
    hide Inv, WorkersFit, ChannelFits, PlacesFit, ClockFits, Deliveries, Shaped, Left;
    var every := s.clock.every;
    FitIsShaped(s);
    OneMoreLook(every, batch.calls);
    var now := batch.Now();
    TimePasses(s, now);
    t := s.(clock := s.clock.(now := now));
    ghost var asked := batch.calls;
    var got;
    t, got := batch.Receive(t, if t.clock.deadline > now then t.clock.deadline - now else 0);
    FitIsShaped(t);
    if got.Some? {
      OneMoreCall(every, asked, Take(got.value.0, got.value.1));
      StepKeeps(t, Step.Receive);
      WorkIsDone(t, Step.Receive);
      t := Apply(t, Step.Receive);
    } else {
      OneMoreCall(every, asked, TimeOut(batch.time));
      var clock, fault := BeatIfDue(batch, t.clock);
      StepKeeps(t, Wake(fault, batch.time));
      WorkIsDone(t, Wake(fault, batch.time));
      t := t.(clock := clock);
    }
  }

  /**
   `sync_staged_many`. The operating system may refuse any thread, so any number of the wanted workers may run,
   including none; with some, the threads interleave in any order until the calling thread has every result. However
   it goes, every writer has been synced once and its result is the one returned in its place, the record of the
   calling thread's calls is a completed one, and the heartbeat reported is the one beat that failed, after which there
   was none.
   */
  method SyncStagedMany(batch: Batch, n: nat, threads: nat, every: int)
    returns (results: seq<Synced>, heartbeat: Option<Code>, ran: nat)
    requires every > 0 && |batch.syncs| == n && SyncedOnce(batch.syncs, [], 0)
    requires batch.calls == [] && batch.spawns == []
    modifies batch
    ensures SyncedOnce(batch.syncs, results, n)
    ensures OneFailure(BeatsIn(batch.calls), heartbeat)
    ensures if n == 0 then batch.calls == [] else CallerAt(every, batch.calls).Free?
    ensures var wanted := if n <= 1 then 0 else Min(threads, n);
      ran <= wanted && batch.spawns == seq(ran, _ => true) + if ran < wanted then [false] else []
    ensures ran == 0 ==> batch.order == old(batch.order) + seq(n, i => i)
    ensures ran == 0 < n ==>
      CallerAt(every, batch.calls).clock.now < CallerAt(every, batch.calls).clock.deadline
  {
    if n == 0 {
      return [], None, 0;
    }
    ran := SpawnWorkers(batch, if n == 1 then 0 else Min(threads, n));
    if ran == 0 {
      var clock;
      results, clock := SyncHere(batch, n, every);
      heartbeat := clock.heartbeat;
    } else {
      var s := RunWorkers(batch, n, ran, every);
      results := seq(n, i requires 0 <= i < |s.slots| && s.slots[i].Some? => s.slots[i].value);
      heartbeat := s.clock.heartbeat;
    }
    CallsFit(every, batch.calls);
  }
}
