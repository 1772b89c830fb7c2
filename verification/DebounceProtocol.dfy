/**
 The debounce protocol as atomic steps: upsert (under the map's lock), spawn of its timer task,
 the timer's sleep finishing, a cancellation being observed, take (under the lock), send.

 Every interleaving is allowed. In particular a timer that has woken can no longer be cancelled,
 so it may take an entry that a newer update has put under its key.
 */
module DebounceProtocol {
  import opened Sequences
  import opened DebounceMerge

  /** Where a timer task is; `Sending(b)` holds the b-th batch taken, until it has been delivered. */
  datatype Phase = Unspawned | Sleeping | Woken | Sending(batch: nat) | Ended

  /** `cancelled`: the task's cancel receiver has resolved, by a send or by its sender being dropped. */
  datatype Timer = Timer(key: string, phase: Phase, cancelled: bool)

  /** A pending update and the timer whose cancel sender it owns. */
  datatype Entry = Entry(update: Update, timer: nat)

  /** An entry removed by timer `taker`; it covers the accepted updates number lo, ..., hi - 1 of its key. */
  datatype Batch = Batch(key: string, lo: nat, hi: nat, entry: Entry, taker: nat)

  /**
   The map and the tasks, with three histories: the updates accepted for each key, the batches
   in the order they were taken, and the batch numbers in the order they were sent.
   */
  datatype State = State(
    pending: map<string, Entry>,
    timers: seq<Timer>,
    accepted: map<string, seq<Update>>,
    batches: seq<Batch>,
    sent: seq<nat>)
  {
    function Accepted(key: string): seq<Update> {
      if key in accepted then accepted[key] else []
    }
  }

  datatype Step =
    | Upsert(key: string, update: Update)
    | Spawn(timer: nat)
    | Wake(timer: nat)
    | ObserveCancel(timer: nat)
    | Take(timer: nat)
    | Send(timer: nat)

  const Initial := State(map[], [], map[], [], [])

  /** How many of a key's accepted updates have been taken out of the map. */
  function TakenCount(batches: seq<Batch>, key: string): nat {
    if batches == [] then 0
    else if Last(batches).key == key then Last(batches).hi
    else TakenCount(Init(batches), key)
  }

  predicate Enabled(s: State, step: Step) {
    match step
    case Upsert(_, _) => true
    case Spawn(t) => t < |s.timers| && s.timers[t].phase == Unspawned
    case Wake(t) => t < |s.timers| && s.timers[t].phase == Sleeping
    case ObserveCancel(t) => t < |s.timers| && s.timers[t].phase == Sleeping && s.timers[t].cancelled
    case Take(t) => t < |s.timers| && s.timers[t].phase == Woken
    case Send(t) => t < |s.timers| && s.timers[t].phase.Sending?
  }

  function SetPhase(timers: seq<Timer>, t: nat, phase: Phase): seq<Timer>
    requires t < |timers|
  {
    timers[t := timers[t].(phase := phase)]
  }

  function Cancel(timers: seq<Timer>, t: nat): seq<Timer> {
    if t < |timers| then timers[t := timers[t].(cancelled := true)] else timers
  }

  function Apply(s: State, step: Step): State
    requires Enabled(s, step)
  {
    match step
    case Upsert(k, u) =>
      var timers := if k in s.pending then Cancel(s.timers, s.pending[k].timer) else s.timers;
      var update := if k in s.pending then Merge(s.pending[k].update, u) else u;
      s.(pending := s.pending[k := Entry(update, |timers|)],
         timers := timers + [Timer(k, Unspawned, false)],
         accepted := s.accepted[k := s.Accepted(k) + [u]])
    case Spawn(t) => s.(timers := SetPhase(s.timers, t, Sleeping))
    case Wake(t) => s.(timers := SetPhase(s.timers, t, Woken))
    case ObserveCancel(t) => s.(timers := SetPhase(s.timers, t, Ended))
    case Take(t) =>
      var k := s.timers[t].key;
      if k in s.pending then
        s.(pending := s.pending - {k},
           timers := SetPhase(s.timers, t, Sending(|s.batches|)),
           batches := s.batches + [Batch(k, TakenCount(s.batches, k), |s.Accepted(k)|, s.pending[k], t)])
      else
        s.(timers := SetPhase(s.timers, t, Ended))
    case Send(t) =>
      // Delivering the batch also drops the cancel sender that came with it.
      var b := s.timers[t].phase.batch;
      var timers := if b < |s.batches| then Cancel(s.timers, s.batches[b].entry.timer) else s.timers;
      s.(timers := SetPhase(timers, t, Ended), sent := s.sent + [b])
  }

  /** `steps` is a run: each step is enabled where it is taken. */
  predicate Runs(steps: seq<Step>)
    decreases |steps|, 0
  {
    steps == [] || (Runs(Init(steps)) && Enabled(Exec(Init(steps)), Last(steps)))
  }

  /** The state after `steps`, from an empty map. */
  function Exec(steps: seq<Step>): State
    requires Runs(steps)
    decreases |steps|, 1
  {
    if steps == [] then Initial else Apply(Exec(Init(steps)), Last(steps))
  }

  // ---- the invariant ----------------------------------------------------------

  /** A timer that can still reach its take. */
  predicate Live(timer: Timer) {
    timer.phase in {Unspawned, Sleeping, Woken}
  }

  /** The batches of `key` tile its accepted updates 0, ..., n - 1 in order, leaving no gap and no overlap. */
  predicate Tiled(batches: seq<Batch>, key: string, n: nat) {
    if batches == [] then n == 0
    else if Last(batches).key != key then Tiled(Init(batches), key, n)
    else Last(batches).hi == n && Last(batches).lo < n && Tiled(Init(batches), key, Last(batches).lo)
  }

  /** A pending entry has its own timer: not ended, not cancelled, and for the same key. */
  predicate Guarded(s: State, key: string) {
    key in s.pending ==>
      var t := s.pending[key].timer;
      t < |s.timers| && s.timers[t].key == key && Live(s.timers[t]) && !s.timers[t].cancelled
  }

  /** What is pending for a key merges exactly its accepted updates that were not taken yet. */
  predicate PendingIsRest(s: State, key: string) {
    var n, all := TakenCount(s.batches, key), s.Accepted(key);
    && n <= |all|
    && (key in s.pending <==> n < |all|)
    && (key in s.pending ==> s.pending[key].update == Fold(all[n..]))
  }

  /** A batch merges exactly the accepted updates it covers. */
  predicate BatchMerges(s: State, batch: Batch) {
    && batch.lo < batch.hi <= |s.Accepted(batch.key)|
    && batch.entry.update == Fold(s.Accepted(batch.key)[batch.lo..batch.hi])
  }

  /** The cancel sender that left the map with `batch` belongs to no pending entry. */
  ghost predicate Detached(s: State, batch: Batch) {
    && batch.entry.timer < |s.timers|
    && forall k :: k in s.pending ==> s.pending[k].timer != batch.entry.timer
  }

  /** A batch is held by the timer that took it until it has been sent. */
  predicate HeldOrSent(s: State, b: nat)
    requires b < |s.batches|
  {
    var t := s.batches[b].taker;
    t < |s.timers| && s.timers[t].phase == if b in s.sent then Ended else Sending(b)
  }

  predicate HoldsOwnBatch(s: State, t: nat)
    requires t < |s.timers|
  {
    s.timers[t].phase.Sending? ==>
      s.timers[t].phase.batch < |s.batches| && s.batches[s.timers[t].phase.batch].taker == t
  }

  ghost predicate MapInv(s: State) {
    && (forall k :: Guarded(s, k))
    && (forall k :: PendingIsRest(s, k))
    && (forall k :: Tiled(s.batches, k, TakenCount(s.batches, k)))
    && (forall b :: 0 <= b < |s.batches| ==> BatchMerges(s, s.batches[b]) && Detached(s, s.batches[b]))
  }

  ghost predicate TaskInv(s: State) {
    && NoDup(s.sent)
    && (forall i :: 0 <= i < |s.sent| ==> s.sent[i] < |s.batches|)
    && (forall b :: 0 <= b < |s.batches| ==> HeldOrSent(s, b))
    && (forall t :: 0 <= t < |s.timers| ==> HoldsOwnBatch(s, t))
  }

  lemma UpsertKeepsRest(s: State, key: string, u: Update, k: string)
    requires Guarded(s, k) && PendingIsRest(s, k) && Guarded(s, key) && PendingIsRest(s, key)
    ensures var s' := Apply(s, Upsert(key, u)); Guarded(s', k) && PendingIsRest(s', k)
  {
    var n, all := TakenCount(s.batches, key), s.Accepted(key);
    assert (all + [u])[n..] == all[n..] + [u];
    assert Init(all[n..] + [u]) == all[n..];
  }

  lemma UpsertKeepsBatch(s: State, key: string, u: Update, batch: Batch)
    requires BatchMerges(s, batch) && Detached(s, batch)
    ensures var s' := Apply(s, Upsert(key, u)); BatchMerges(s', batch) && Detached(s', batch)
  {
    var s' := Apply(s, Upsert(key, u));
    assert s'.Accepted(batch.key)[batch.lo..batch.hi] == s.Accepted(batch.key)[batch.lo..batch.hi];
  }

  lemma UpsertKeepsMap(s: State, key: string, u: Update)
    requires MapInv(s)
    ensures MapInv(Apply(s, Upsert(key, u)))
  {
    forall k {
      UpsertKeepsRest(s, key, u, k);
    }
    forall b | 0 <= b < |s.batches| {
      UpsertKeepsBatch(s, key, u, s.batches[b]);
    }
  }

  lemma TakeKeepsRest(s: State, t: nat, k: string)
    requires Enabled(s, Take(t)) && Guarded(s, k) && PendingIsRest(s, k) && PendingIsRest(s, s.timers[t].key)
    requires Tiled(s.batches, k, TakenCount(s.batches, k))
    ensures var s' := Apply(s, Take(t));
      Guarded(s', k) && PendingIsRest(s', k) && Tiled(s'.batches, k, TakenCount(s'.batches, k))
  {
    var s' := Apply(s, Take(t));
    if s.timers[t].key in s.pending {
      assert Init(s'.batches) == s.batches;
    }
  }

  lemma TakeKeepsBatch(s: State, t: nat, batch: Batch)
    requires Enabled(s, Take(t)) && BatchMerges(s, batch) && Detached(s, batch)
    ensures var s' := Apply(s, Take(t)); BatchMerges(s', batch) && Detached(s', batch)
  {
  }

  /** The batch just taken is exactly what was pending, and its cancel sender has left the map. */
  lemma TakenBatchMerges(s: State, t: nat)
    requires Enabled(s, Take(t)) && s.timers[t].key in s.pending
    requires PendingIsRest(s, s.timers[t].key) && forall k :: Guarded(s, k)
    ensures var s' := Apply(s, Take(t)); BatchMerges(s', Last(s'.batches)) && Detached(s', Last(s'.batches))
  {
    var s', key := Apply(s, Take(t)), s.timers[t].key;
    var n, all := TakenCount(s.batches, key), s.Accepted(key);
    assert all[n..|all|] == all[n..];
    assert Guarded(s, key);
    forall k | k in s'.pending ensures s.pending[k].timer != s.pending[key].timer {
      assert Guarded(s, k);
    }
  }

  lemma TakeKeepsMap(s: State, t: nat)
    requires MapInv(s) && Enabled(s, Take(t))
    ensures MapInv(Apply(s, Take(t)))
  {
    forall k {
      TakeKeepsRest(s, t, k);
    }
    forall b | 0 <= b < |s.batches| {
      TakeKeepsBatch(s, t, s.batches[b]);
    }
    if s.timers[t].key in s.pending {
      TakenBatchMerges(s, t);
    }
  }

  /** Spawn, wake, an observed cancellation and a send leave the map and the histories it explains alone. */
  lemma TasksKeepMap(s: State, step: Step)
    requires MapInv(s) && TaskInv(s) && Enabled(s, step) && !step.Upsert? && !step.Take?
    ensures MapInv(Apply(s, step))
  {
    var s' := Apply(s, step);
    forall k ensures Guarded(s', k) && PendingIsRest(s', k) {
      assert Guarded(s, k) && PendingIsRest(s, k);
      if step.Send? {
        assert HoldsOwnBatch(s, step.timer);
        assert Detached(s, s.batches[s.timers[step.timer].phase.batch]);
      }
    }
    forall b | 0 <= b < |s'.batches| ensures BatchMerges(s', s'.batches[b]) && Detached(s', s'.batches[b]) {
      assert BatchMerges(s, s.batches[b]) && Detached(s, s.batches[b]);
    }
  }

  lemma StepKeepsHeld(s: State, step: Step, b: nat)
    requires Enabled(s, step) && b < |s.batches| && HeldOrSent(s, b)
    requires step.Send? ==> HoldsOwnBatch(s, step.timer)
    ensures HeldOrSent(Apply(s, step), b)
  {
    if step.Send? {
      assert Apply(s, step).sent == s.sent + [s.timers[step.timer].phase.batch];
    }
  }

  lemma StepKeepsHolder(s: State, step: Step, t: nat)
    requires Enabled(s, step) && t < |s.timers| && HoldsOwnBatch(s, t)
    ensures HoldsOwnBatch(Apply(s, step), t)
  {
  }

  lemma StepKeepsTasks(s: State, step: Step)
    requires TaskInv(s) && Enabled(s, step)
    ensures TaskInv(Apply(s, step))
  {
    var s' := Apply(s, step);
    if step.Send? {
      var sending := s.timers[step.timer].phase.batch;
      assert HoldsOwnBatch(s, step.timer) && HeldOrSent(s, sending);
      assert s'.sent == s.sent + [sending];
    }
    forall b | 0 <= b < |s.batches| {
      StepKeepsHeld(s, step, b);
    }
    forall t | 0 <= t < |s.timers| {
      StepKeepsHolder(s, step, t);
    }
  }

  /** Every run keeps both invariants, also when a stale timer takes a newer entry. */
  lemma {:induction false} InvHolds(steps: seq<Step>)
    requires Runs(steps)
    ensures MapInv(Exec(steps)) && TaskInv(Exec(steps))
  {
    if steps != [] {
      var s, step := Exec(Init(steps)), Last(steps);
      InvHolds(Init(steps));
      StepKeepsTasks(s, step);
      match step {
        case Upsert(key, u) => UpsertKeepsMap(s, key, u);
        case Take(t) => TakeKeepsMap(s, t);
        case _ => TasksKeepMap(s, step);
      }
    }
  }

  // ---- conservation -----------------------------------------------------------

  /** The accepted updates covered by the batches of `key`, in the order the batches were taken. */
  function Windows(s: State, batches: seq<Batch>, key: string): seq<seq<Update>> {
    if batches == [] then []
    else
      var b := Last(batches);
      if b.key == key && b.lo <= b.hi <= |s.Accepted(key)|
      then Windows(s, Init(batches), key) + [s.Accepted(key)[b.lo..b.hi]]
      else Windows(s, Init(batches), key)
  }

  lemma {:induction false} TilesConcat(s: State, batches: seq<Batch>, key: string, n: nat)
    requires Tiled(batches, key, n) && n <= |s.Accepted(key)|
    ensures Concat(Windows(s, batches, key)) == s.Accepted(key)[..n]
  {
    if batches != [] {
      var b, rest := Last(batches), Init(batches);
      if b.key != key {
        TilesConcat(s, rest, key, n);
      } else {
        TilesConcat(s, rest, key, b.lo);
        var windows := Windows(s, rest, key);
        assert Init(windows + [s.Accepted(key)[b.lo..b.hi]]) == windows;
        assert s.Accepted(key)[..b.lo] + s.Accepted(key)[b.lo..b.hi] == s.Accepted(key)[..b.hi];
      }
    }
  }

  ghost predicate AllEnded(s: State) {
    forall t :: 0 <= t < |s.timers| ==> s.timers[t].phase == Ended
  }

  /** What has not been taken of `key` yet. */
  function PendingWindow(s: State, key: string): seq<Update> {
    var n := TakenCount(s.batches, key);
    if n <= |s.Accepted(key)| then s.Accepted(key)[n..] else []
  }

  /**
   In every interleaving the batches taken for a key, followed by what is still pending, are
   exactly its accepted updates in acceptance order; every batch and the pending entry carry the
   merge of their own stretch and nothing else; and no batch is sent twice.
   */
  lemma Conservation(steps: seq<Step>, key: string)
    requires Runs(steps)
    ensures var s := Exec(steps); Concat(Windows(s, s.batches, key)) + PendingWindow(s, key) == s.Accepted(key)
    ensures var s := Exec(steps); key in s.pending <==> PendingWindow(s, key) != []
    ensures var s := Exec(steps); key in s.pending ==> s.pending[key].update == Fold(PendingWindow(s, key))
    ensures var s := Exec(steps); forall b :: 0 <= b < |s.batches| ==> BatchMerges(s, s.batches[b])
    ensures var s := Exec(steps); NoDup(s.sent) && forall b :: b in s.sent ==> b < |s.batches|
  {
    InvHolds(steps);
    PendingIsWindow(Exec(steps), key);
    PendingIffWindow(Exec(steps), key);
  }

  lemma PendingIsWindow(s: State, key: string)
    requires PendingIsRest(s, key) && Tiled(s.batches, key, TakenCount(s.batches, key))
    ensures Concat(Windows(s, s.batches, key)) + PendingWindow(s, key) == s.Accepted(key)
  {
    var n, all := TakenCount(s.batches, key), s.Accepted(key);
    TilesConcat(s, s.batches, key, n);
    assert all[..n] + all[n..] == all;
  }

  lemma PendingIffWindow(s: State, key: string)
    requires PendingIsRest(s, key)
    ensures key in s.pending <==> PendingWindow(s, key) != []
  {
    assert |PendingWindow(s, key)| == |s.Accepted(key)| - TakenCount(s.batches, key);
  }

  /** Once every timer task has ended, nothing is pending and every batch taken has been sent. */
  lemma AllEndedMeansAllSent(steps: seq<Step>, key: string)
    requires Runs(steps) && AllEnded(Exec(steps))
    ensures var s := Exec(steps);
      && s.pending == map[]
      && Concat(Windows(s, s.batches, key)) == s.Accepted(key)
      && (forall b :: 0 <= b < |s.batches| <==> b in s.sent)
  {
    Conservation(steps, key);
    InvHolds(steps);
    var s := Exec(steps);
    forall k ensures k !in s.pending {
      assert Guarded(s, k);
    }
    forall b | 0 <= b < |s.batches| ensures b in s.sent {
      assert HeldOrSent(s, b);
    }
  }

  // ---- the order of notifications ---------------------------------------------

  /** No batch of the same key taken earlier is still being sent when this step delivers its own. */
  ghost predicate OvertakesNone(s: State, step: Step) {
    step.Send? && Enabled(s, step) ==>
      var b := s.timers[step.timer].phase.batch;
      forall e: nat :: e < b && SameKey(s, e, b) ==> e in s.sent
  }

  ghost predicate NeverOvertakes(steps: seq<Step>)
    requires Runs(steps)
  {
    steps == [] || (NeverOvertakes(Init(steps)) && OvertakesNone(Exec(Init(steps)), Last(steps)))
  }

  /** The notifications of every key went out in the order its updates were accepted. */
  ghost predicate SentInOrder(s: State) {
    forall i, j :: 0 <= i < j < |s.sent| && SameKey(s, s.sent[i], s.sent[j]) ==> s.sent[i] < s.sent[j]
  }

  predicate SameKey(s: State, b: nat, c: nat) {
    b < |s.batches| && c < |s.batches| && s.batches[b].key == s.batches[c].key
  }

  /** At each position of the send log, all earlier batches of that key had gone out before. */
  ghost predicate EarlierSent(s: State) {
    forall i, e: nat :: 0 <= i < |s.sent| && e < s.sent[i] && SameKey(s, e, s.sent[i]) ==> e in s.sent[..i]
  }

  lemma SendKeepsEarlierSent(s: State, step: Step)
    requires TaskInv(s) && Enabled(s, step) && step.Send?
    ensures EarlierSent(Apply(s, step)) <==> EarlierSent(s) && OvertakesNone(s, step)
  {
    var s' := Apply(s, step);
    var b, n := s.timers[step.timer].phase.batch, |s.sent|;
    assert s'.sent == s.sent + [b] && s'.batches == s.batches;
    assert forall i :: 0 <= i <= n ==> s'.sent[..i] == s.sent[..i];
    assert forall e: nat, c: nat :: SameKey(s', e, c) <==> SameKey(s, e, c);
    if EarlierSent(s') {
      forall i, e: nat | 0 <= i < n && e < s.sent[i] && SameKey(s, e, s.sent[i]) ensures e in s.sent[..i] {
        assert s'.sent[i] == s.sent[i] && e in s'.sent[..i];
      }
      forall e: nat | e < b && SameKey(s, e, b) ensures e in s.sent {
        assert s'.sent[n] == b && e in s'.sent[..n];
      }
    }
  }

  lemma TakeKeepsEarlierSent(s: State, step: Step)
    requires TaskInv(s) && Enabled(s, step) && !step.Send?
    ensures EarlierSent(Apply(s, step)) <==> EarlierSent(s)
  {
    var s' := Apply(s, step);
    assert s'.sent == s.sent && s.batches <= s'.batches;
    forall i, e: nat | 0 <= i < |s.sent| && e < s.sent[i]
      ensures SameKey(s', e, s.sent[i]) <==> SameKey(s, e, s.sent[i])
    {
      assert s'.batches[e] == s.batches[e];
    }
  }

  lemma {:induction false} EarlierSentIffNeverOvertakes(steps: seq<Step>)
    requires Runs(steps)
    ensures EarlierSent(Exec(steps)) <==> NeverOvertakes(steps)
  {
    if steps != [] {
      InvHolds(Init(steps));
      EarlierSentIffNeverOvertakes(Init(steps));
      if Last(steps).Send? {
        SendKeepsEarlierSent(Exec(Init(steps)), Last(steps));
      } else {
        TakeKeepsEarlierSent(Exec(Init(steps)), Last(steps));
      }
    }
  }

  lemma OrderMeansEarlierSent(s: State)
    requires forall b: nat :: b < |s.batches| ==> b in s.sent
    ensures SentInOrder(s) ==> EarlierSent(s)
  {
    if SentInOrder(s) {
      forall i, e: nat | 0 <= i < |s.sent| && e < s.sent[i] && SameKey(s, e, s.sent[i])
        ensures e in s.sent[..i]
      {
        assert e in s.sent;
        var j :| 0 <= j < |s.sent| && s.sent[j] == e;
        assert s.sent[..i + 1][i] == s.sent[i];
        assert j < i;
        assert s.sent[..i][j] == e;
      }
    }
  }

  lemma EarlierSentMeansOrder(s: State)
    requires NoDup(s.sent)
    ensures EarlierSent(s) ==> SentInOrder(s)
  {
    if EarlierSent(s) {
      forall i, j | 0 <= i < j < |s.sent| && SameKey(s, s.sent[i], s.sent[j])
        ensures s.sent[i] < s.sent[j]
      {
        assert s.sent[i] != s.sent[j];
        assert s.sent[j] !in s.sent[..i];
        assert SameKey(s, s.sent[j], s.sent[i]);
      }
    }
  }

  /**
   Sends of one key can overlap, so its notifications may go out in a different order than
   its updates were accepted. They go out in order exactly when no send completes while an
   earlier batch of its key is still being sent.
   */
  lemma SentInOrderIffNeverOvertakes(steps: seq<Step>)
    requires Runs(steps) && AllEnded(Exec(steps))
    ensures SentInOrder(Exec(steps)) <==> NeverOvertakes(steps)
  {
    AllEndedMeansAllSent(steps, "");
    EarlierSentIffNeverOvertakes(steps);
    InvHolds(steps);
    OrderMeansEarlierSent(Exec(steps));
    EarlierSentMeansOrder(Exec(steps));
  }

  /** Appends `step` to a run that leads to `s`; `next` is where it leads from there. */
  lemma Extend(steps: seq<Step>, s: State, step: Step, next: State) returns (longer: seq<Step>)
    requires Runs(steps) && Exec(steps) == s && Enabled(s, step) && Apply(s, step) == next
    ensures longer == steps + [step] && Runs(longer) && Exec(longer) == next
  {
    longer := steps + [step];
    assert Init(longer) == steps;
  }

  /** `u` accepted for `key` and taken again by its own timer, which holds it. */
  function AcceptedAndTaken(s: State, key: string, u: Update): State {
    var t := |s.timers|;
    s.(timers := s.timers + [Timer(key, Sending(|s.batches|), false)],
       accepted := s.accepted[key := s.Accepted(key) + [u]],
       batches := s.batches + [Batch(key, TakenCount(s.batches, key), |s.Accepted(key)| + 1, Entry(u, t), t)])
  }

  /** `u` accepted for `key`, whose timer is at `phase`. */
  function AcceptedOnly(s: State, key: string, u: Update, phase: Phase): State {
    s.(pending := s.pending[key := Entry(u, |s.timers|)],
       timers := s.timers + [Timer(key, phase, false)],
       accepted := s.accepted[key := s.Accepted(key) + [u]])
  }

  lemma SetLastPhase(timers: seq<Timer>, key: string, phase: Phase, next: Phase)
    ensures SetPhase(timers + [Timer(key, phase, false)], |timers|, next) == timers + [Timer(key, next, false)]
  {
  }

  lemma AcceptStep(s: State, key: string, u: Update)
    requires key !in s.pending
    ensures Apply(s, Upsert(key, u)) == AcceptedOnly(s, key, u, Unspawned)
  {
  }

  /** The last timer spawns and wakes. */
  lemma TimerStep(s: State, key: string, u: Update, phase: Phase, step: Step)
    requires (phase == Unspawned && step == Spawn(|s.timers|)) || (phase == Sleeping && step == Wake(|s.timers|))
    ensures Enabled(AcceptedOnly(s, key, u, phase), step)
    ensures Apply(AcceptedOnly(s, key, u, phase), step)
         == AcceptedOnly(s, key, u, if step.Spawn? then Sleeping else Woken)
  {
    SetLastPhase(s.timers, key, phase, if step.Spawn? then Sleeping else Woken);
  }

  lemma TakeStep(s: State, key: string, u: Update)
    requires key !in s.pending
    ensures Enabled(AcceptedOnly(s, key, u, Woken), Take(|s.timers|))
    ensures Apply(AcceptedOnly(s, key, u, Woken), Take(|s.timers|)) == AcceptedAndTaken(s, key, u)
  {
    SetLastPhase(s.timers, key, Woken, Sending(|s.batches|));
    assert s.pending[key := Entry(u, |s.timers|)] - {key} == s.pending;
  }

  lemma AcceptAndTake(steps: seq<Step>, s: State, key: string, u: Update) returns (longer: seq<Step>)
    requires Runs(steps) && Exec(steps) == s && key !in s.pending
    ensures Runs(longer) && Exec(longer) == AcceptedAndTaken(s, key, u)
  {
    var t := |s.timers|;
    AcceptStep(s, key, u);
    longer := Extend(steps, s, Upsert(key, u), AcceptedOnly(s, key, u, Unspawned));
    TimerStep(s, key, u, Unspawned, Spawn(t));
    longer := Extend(longer, AcceptedOnly(s, key, u, Unspawned), Spawn(t), AcceptedOnly(s, key, u, Sleeping));
    TimerStep(s, key, u, Sleeping, Wake(t));
    longer := Extend(longer, AcceptedOnly(s, key, u, Sleeping), Wake(t), AcceptedOnly(s, key, u, Woken));
    TakeStep(s, key, u);
    longer := Extend(longer, AcceptedOnly(s, key, u, Woken), Take(t), AcceptedAndTaken(s, key, u));
  }

  /** Two updates of one key, each taken by its own timer, neither sent yet. */
  function TwoInFlight(key: string, u: Update, v: Update): State {
    State(
      map[], [Timer(key, Sending(0), false), Timer(key, Sending(1), false)], map[key := [u, v]],
      [Batch(key, 0, 1, Entry(u, 0), 0), Batch(key, 1, 2, Entry(v, 1), 1)], [])
  }

  lemma TwoInFlightIs(key: string, u: Update, v: Update)
    ensures AcceptedAndTaken(AcceptedAndTaken(Initial, key, u), key, v) == TwoInFlight(key, u, v)
  {
    var one := AcceptedAndTaken(Initial, key, u);
    assert one.timers == [Timer(key, Sending(0), false)] && one.Accepted(key) == [u];
    assert one.batches == [Batch(key, 0, 1, Entry(u, 0), 0)];
    var s, two := AcceptedAndTaken(one, key, v), TwoInFlight(key, u, v);
    assert s.timers == two.timers && s.batches == two.batches;
    assert s.accepted[key] == [u] + [v] == [u, v];
    assert s.accepted == two.accepted;
  }

  lemma TwoInFlightReachable(key: string, u: Update, v: Update) returns (steps: seq<Step>)
    ensures Runs(steps) && Exec(steps) == TwoInFlight(key, u, v)
  {
    steps := AcceptAndTake([], Initial, key, u);
    steps := AcceptAndTake(steps, AcceptedAndTaken(Initial, key, u), key, v);
    TwoInFlightIs(key, u, v);
  }

  /** A second update accepted while the first one's send is under way can overtake it. */
  lemma SendsCanOvertake(key: string, u: Update, v: Update) returns (steps: seq<Step>)
    ensures Runs(steps) && AllEnded(Exec(steps))
    ensures Exec(steps).Accepted(key) == [u, v] && Exec(steps).sent == [1, 0]
    ensures !SentInOrder(Exec(steps))
  {
    steps := TwoInFlightReachable(key, u, v);
    var two := TwoInFlight(key, u, v);
    var late := two.(timers := [Timer(key, Sending(0), false), Timer(key, Ended, true)], sent := [1]);
    steps := Extend(steps, two, Send(1), late);
    var done := late.(timers := [Timer(key, Ended, true), Timer(key, Ended, true)], sent := [1, 0]);
    steps := Extend(steps, late, Send(0), done);
    assert SameKey(done, done.sent[0], done.sent[1]);
  }

  // ---- every timer ends ---------------------------------------------------------

  /** How many steps a timer task has left at most. */
  function StepsLeft(phase: Phase): nat {
    match phase
    case Unspawned => 4
    case Sleeping => 3
    case Woken => 2
    case Sending(_) => 1
    case Ended => 0
  }

  function TotalLeft(timers: seq<Timer>): nat {
    if timers == [] then 0 else TotalLeft(Init(timers)) + StepsLeft(Last(timers).phase)
  }

  lemma {:induction false} TotalAfterUpdate(timers: seq<Timer>, t: nat, timer: Timer)
    requires t < |timers|
    ensures TotalLeft(timers[t := timer]) == TotalLeft(timers) - StepsLeft(timers[t].phase) + StepsLeft(timer.phase)
  {
    if t == |timers| - 1 {
      assert Init(timers[t := timer]) == Init(timers);
    } else {
      assert Init(timers[t := timer]) == Init(timers)[t := timer];
      TotalAfterUpdate(Init(timers), t, timer);
    }
  }

  lemma StepUsesOne(s: State, step: Step)
    requires Enabled(s, step)
    ensures TotalLeft(Apply(s, step).timers) + 1 <=
      TotalLeft(s.timers) + 5 * (|Apply(s, step).timers| - |s.timers|)
  {
    match step
    case Upsert(k, u) =>
      var timers := if k in s.pending then Cancel(s.timers, s.pending[k].timer) else s.timers;
      if k in s.pending && s.pending[k].timer < |s.timers| {
        var t := s.pending[k].timer;
        TotalAfterUpdate(s.timers, t, s.timers[t].(cancelled := true));
      }
      assert Init(timers + [Timer(k, Unspawned, false)]) == timers;
    case Send(t) =>
      var b := s.timers[t].phase.batch;
      var timers := if b < |s.batches| then Cancel(s.timers, s.batches[b].entry.timer) else s.timers;
      if b < |s.batches| && s.batches[b].entry.timer < |s.timers| {
        var c := s.batches[b].entry.timer;
        TotalAfterUpdate(s.timers, c, s.timers[c].(cancelled := true));
      }
      TotalAfterUpdate(timers, t, timers[t].(phase := Ended));
    case Spawn(t) => TotalAfterUpdate(s.timers, t, s.timers[t].(phase := Sleeping));
    case Wake(t) => TotalAfterUpdate(s.timers, t, s.timers[t].(phase := Woken));
    case ObserveCancel(t) => TotalAfterUpdate(s.timers, t, s.timers[t].(phase := Ended));
    case Take(t) =>
      TotalAfterUpdate(s.timers, t, s.timers[t].(phase := Ended));
      TotalAfterUpdate(s.timers, t, s.timers[t].(phase := Sending(|s.batches|)));
  }

  /** A run of n accepted updates takes at most 4 n further steps: no timer goes on for ever. */
  lemma {:induction false} RunsAreBounded(steps: seq<Step>)
    requires Runs(steps)
    ensures |steps| + TotalLeft(Exec(steps).timers) <= 5 * |Exec(steps).timers|
  {
    if steps != [] {
      RunsAreBounded(Init(steps));
      StepUsesOne(Exec(Init(steps)), Last(steps));
    }
  }

  /** As long as some timer has not ended, a timer step is possible: nothing gets stuck unsent. */
  lemma NothingStuck(s: State)
    requires forall step :: Enabled(s, step) ==> step.Upsert?
    ensures AllEnded(s)
  {
    forall t | 0 <= t < |s.timers| ensures s.timers[t].phase == Ended {
      assert !Enabled(s, Spawn(t)) && !Enabled(s, Wake(t)) && !Enabled(s, Take(t)) && !Enabled(s, Send(t));
    }
  }

  // ---- the link to the map and to what a notification says ------------------------

  function Updates(pending: map<string, Entry>): map<string, Update> {
    map k | k in pending :: pending[k].update
  }

  /** The protocol's upsert changes the map as DebounceMap.Upsert does. */
  lemma UpsertMatchesMap(s: State, key: string, u: Update)
    ensures Updates(Apply(s, Upsert(key, u)).pending) == Upserted(Updates(s.pending), key, u)
  {
  }

  /** Each notification describes its own stretch of updates, as DebounceMerge.Summarises spells out. */
  lemma NotificationsSummarise(steps: seq<Step>, b: nat)
    requires Runs(steps) && b < |Exec(steps).batches|
    ensures var s := Exec(steps); var batch := s.batches[b];
      && batch.lo < batch.hi <= |s.Accepted(batch.key)|
      && (Summarises(batch.entry.update, s.Accepted(batch.key)[batch.lo..batch.hi])
          <==> NoDup(s.Accepted(batch.key)[batch.lo].notif.changes))
  {
    Conservation(steps, "");
    var s := Exec(steps);
    var batch := s.batches[b];
    assert BatchMerges(s, batch);
    FoldSummarises(s.Accepted(batch.key)[batch.lo..batch.hi]);
  }
}
