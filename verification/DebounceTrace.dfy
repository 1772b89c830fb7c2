/**
 The debounce protocol read off the list of steps alone: which timer belongs to which update, who owns
 the pending entry of a key, whose cancel sender is gone, and with that which step can come next.
 */
module DebounceTrace {
  import opened Sequences
  import opened DebounceMerge
  import opened DebounceProtocol

  // ---- the reference ------------------------------------------------------------------------

  /** The keys and updates accepted, in order; timer t was set for number t. */
  function Upserts(steps: seq<Step>): seq<(string, Update)> {
    if steps == [] then []
    else if Last(steps).Upsert? then Upserts(Init(steps)) + [(Last(steps).key, Last(steps).update)]
    else Upserts(Init(steps))
  }

  function UpdatesOf(upserts: seq<(string, Update)>, key: string): seq<Update> {
    if upserts == [] then []
    else if Last(upserts).0 == key then UpdatesOf(Init(upserts), key) + [Last(upserts).1]
    else UpdatesOf(Init(upserts), key)
  }

  function KeyOfTimer(steps: seq<Step>, t: nat): Option<string> {
    if t < |Upserts(steps)| then Some(Upserts(steps)[t].0) else None
  }

  /** What timer task t has done so far. */
  function Own(steps: seq<Step>, t: nat): seq<Step> {
    if steps == [] then []
    else if !Last(steps).Upsert? && Last(steps).timer == t then Own(Init(steps), t) + [Last(steps)]
    else Own(Init(steps), t)
  }

  /** The timer of the last update accepted for `key`, unless some timer of that key has taken since. */
  function Owner(steps: seq<Step>, key: string): Option<nat> {
    if steps == [] then None
    else match Last(steps)
      case Upsert(k, _) => if k == key then Some(|Upserts(Init(steps))|) else Owner(Init(steps), key)
      case Take(t) => if KeyOfTimer(Init(steps), t) == Some(key) then None else Owner(Init(steps), key)
      case _ => Owner(Init(steps), key)
  }

  /** The owner of the entry that timer t found when it took. */
  function Found(steps: seq<Step>, t: nat): Option<nat> {
    if steps == [] then None
    else if Last(steps) == Take(t) then
      var key := KeyOfTimer(Init(steps), t);
      if key.Some? then Owner(Init(steps), key.value) else None
    else Found(Init(steps), t)
  }

  /** The cancel sender of timer t is gone: its entry was replaced, or the notification it went into was sent. */
  function Superseded(steps: seq<Step>, t: nat): bool {
    steps != [] &&
    (Superseded(Init(steps), t)
     || match Last(steps)
        case Upsert(k, _) => Owner(Init(steps), k) == Some(t)
        case Send(x) => Found(Init(steps), x) == Some(t)
        case _ => false)
  }

  /** What can follow `steps`. */
  predicate Allowed(steps: seq<Step>, step: Step) {
    match step
    case Upsert(_, _) => true
    case Spawn(t) => t < |Upserts(steps)| && Own(steps, t) == []
    case Wake(t) => Own(steps, t) == [Spawn(t)]
    case ObserveCancel(t) => Own(steps, t) == [Spawn(t)] && Superseded(steps, t)
    case Take(t) => Own(steps, t) == [Spawn(t), Wake(t)]
    case Send(t) => Own(steps, t) == [Spawn(t), Wake(t), Take(t)] && Found(steps, t).Some?
  }

  // ---- the state is explained by the list -----------------------------------------------------

  predicate PhaseFits(phase: Phase, own: seq<Step>, t: nat, found: bool) {
    match phase
    case Unspawned => own == []
    case Sleeping => own == [Spawn(t)]
    case Woken => own == [Spawn(t), Wake(t)]
    case Sending(_) => own == [Spawn(t), Wake(t), Take(t)] && found
    case Ended =>
      || own == [Spawn(t), ObserveCancel(t)]
      || (own == [Spawn(t), Wake(t), Take(t)] && !found)
      || own == [Spawn(t), Wake(t), Take(t), Send(t)]
  }

  predicate TimerFits(s: State, steps: seq<Step>, t: nat) {
    if t < |s.timers| then
      && KeyOfTimer(steps, t) == Some(s.timers[t].key)
      && PhaseFits(s.timers[t].phase, Own(steps, t), t, Found(steps, t).Some?)
      && (s.timers[t].cancelled <==> Superseded(steps, t))
    else Own(steps, t) == [] && Found(steps, t) == None && !Superseded(steps, t)
  }

  predicate EntryFits(s: State, steps: seq<Step>, key: string) {
    && Owner(steps, key) == (if key in s.pending then Some(s.pending[key].timer) else None)
    && s.Accepted(key) == UpdatesOf(Upserts(steps), key)
  }

  predicate BatchFits(s: State, steps: seq<Step>, batch: Batch) {
    && KeyOfTimer(steps, batch.taker) == Some(batch.key)
    && Found(steps, batch.taker) == Some(batch.entry.timer)
    && Take(batch.taker) in Own(steps, batch.taker)
  }

  ghost predicate Fits(s: State, steps: seq<Step>) {
    && |s.timers| == |Upserts(steps)|
    && (forall t: nat :: TimerFits(s, steps, t))
    && (forall key :: EntryFits(s, steps, key))
    && (forall b :: 0 <= b < |s.batches| ==> BatchFits(s, steps, s.batches[b]))
  }

  /** The reference functions after one more step. */
  lemma Grows(steps: seq<Step>, step: Step, next: seq<Step>, t: nat)
    requires next == steps + [step]
    ensures Upserts(next) == if step.Upsert? then Upserts(steps) + [(step.key, step.update)] else Upserts(steps)
    ensures Own(next, t) == if !step.Upsert? && step.timer == t then Own(steps, t) + [step] else Own(steps, t)
    ensures step == Take(t) && KeyOfTimer(steps, t).Some? ==>
      Found(next, t) == Owner(steps, KeyOfTimer(steps, t).value)
    ensures step != Take(t) ==> Found(next, t) == Found(steps, t)
    ensures Superseded(next, t) <==>
      || Superseded(steps, t)
      || (step.Upsert? && Owner(steps, step.key) == Some(t))
      || (step.Send? && Found(steps, step.timer) == Some(t))
  {
    assert Init(next) == steps && Last(next) == step;
  }

  lemma UpsertTimerFits(s: State, s': State, steps: seq<Step>, key: string, u: Update, next: seq<Step>, t: nat)
    requires s' == Apply(s, Upsert(key, u)) && next == steps + [Upsert(key, u)]
    requires |s.timers| == |Upserts(steps)| && TimerFits(s, steps, t) && EntryFits(s, steps, key) && Guarded(s, key)
    ensures TimerFits(s', next, t)
  {
    Grows(steps, Upsert(key, u), next, t);
  }

  /** What the steps of a task before its send do to its timer. */
  lemma OwnTimerFits(s: State, s': State, steps: seq<Step>, step: Step, next: seq<Step>, t: nat)
    requires Enabled(s, step) && s' == Apply(s, step) && next == steps + [step]
    requires !step.Upsert? && !step.Send? && step.timer == t
    requires |s.timers| == |Upserts(steps)| && TimerFits(s, steps, t) && EntryFits(s, steps, s.timers[t].key)
    ensures TimerFits(s', next, t)
  {
    Grows(steps, step, next, t);
  }

  lemma OtherTimerFits(s: State, s': State, steps: seq<Step>, step: Step, next: seq<Step>, t: nat)
    requires Enabled(s, step) && s' == Apply(s, step) && next == steps + [step]
    requires !step.Upsert? && !step.Send? && step.timer != t
    requires |s.timers| == |Upserts(steps)| && TimerFits(s, steps, t)
    ensures TimerFits(s', next, t)
  {
    Grows(steps, step, next, t);
    assert |s'.timers| == |s.timers| && (t < |s.timers| ==> s'.timers[t] == s.timers[t]);
  }

  lemma SendTimerFits(
    s: State, s': State, steps: seq<Step>, x: nat, next: seq<Step>, t: nat, batch: Batch, cancelled: seq<Timer>)
    requires Enabled(s, Send(x)) && s' == Apply(s, Send(x)) && next == steps + [Send(x)]
    requires |s.timers| == |Upserts(steps)| && TimerFits(s, steps, t) && HoldsOwnBatch(s, x)
    requires batch == s.batches[s.timers[x].phase.batch] && BatchFits(s, steps, batch)
    requires batch.entry.timer < |s.timers| && cancelled == Cancel(s.timers, batch.entry.timer)
    ensures TimerFits(s', next, t)
  {
    Grows(steps, Send(x), next, t);
    assert s'.timers == cancelled[x := cancelled[x].(phase := Ended)];
  }

  lemma EntryFitsNext(s: State, s': State, steps: seq<Step>, step: Step, next: seq<Step>, key: string)
    requires Enabled(s, step) && s' == Apply(s, step) && next == steps + [step]
    requires |s.timers| == |Upserts(steps)| && EntryFits(s, steps, key)
    requires step.Take? ==> KeyOfTimer(steps, step.timer) == Some(s.timers[step.timer].key)
    requires step.Upsert? && step.key in s.pending ==> s.pending[step.key].timer < |s.timers|
    ensures EntryFits(s', next, key)
  {
    assert Init(next) == steps && Last(next) == step;
    if step.Upsert? {
      assert Init(Upserts(next)) == Upserts(steps);
    }
  }

  lemma BatchFitsNext(s: State, s': State, steps: seq<Step>, step: Step, next: seq<Step>, batch: Batch)
    requires next == steps + [step] && BatchFits(s, steps, batch) && step != Take(batch.taker)
    ensures BatchFits(s', next, batch)
  {
    Grows(steps, step, next, batch.taker);
  }

  lemma TakenBatchFits(s: State, s': State, steps: seq<Step>, t: nat, next: seq<Step>)
    requires Enabled(s, Take(t)) && s' == Apply(s, Take(t)) && next == steps + [Take(t)]
    requires TimerFits(s, steps, t) && EntryFits(s, steps, s.timers[t].key) && s.timers[t].key in s.pending
    ensures BatchFits(s', next, Last(s'.batches))
  {
    Grows(steps, Take(t), next, t);
  }

  /** A timer that has taken is not woken. */
  lemma NotAgain(s: State, steps: seq<Step>, step: Step, batch: Batch)
    requires Enabled(s, step) && BatchFits(s, steps, batch) && TimerFits(s, steps, batch.taker)
    ensures step != Take(batch.taker)
  {
    assert Take(batch.taker) !in [Spawn(batch.taker), Wake(batch.taker)];
  }

  lemma FitsNext(s: State, s': State, steps: seq<Step>, step: Step, next: seq<Step>)
    requires Enabled(s, step) && s' == Apply(s, step) && next == steps + [step]
    requires Fits(s, steps) && MapInv(s) && TaskInv(s)
    ensures Fits(s', next)
  {
    forall t: nat ensures TimerFits(s', next, t) {
      TimerFitsNext(s, s', steps, step, next, t);
    }
    forall key ensures EntryFits(s', next, key) {
      assert EntryFits(s, steps, key);
      if step.Take? {
        assert TimerFits(s, steps, step.timer);
      } else if step.Upsert? {
        assert Guarded(s, step.key);
      }
      EntryFitsNext(s, s', steps, step, next, key);
    }
    BatchesFitNext(s, s', steps, step, next);
    Grows(steps, step, next, 0);
  }

  lemma TimerFitsNext(s: State, s': State, steps: seq<Step>, step: Step, next: seq<Step>, t: nat)
    requires Enabled(s, step) && s' == Apply(s, step) && next == steps + [step]
    requires Fits(s, steps) && MapInv(s) && TaskInv(s)
    ensures TimerFits(s', next, t)
  {
    assert TimerFits(s, steps, t);
    match step {
      case Upsert(key, u) =>
        assert EntryFits(s, steps, key) && Guarded(s, key);
        UpsertTimerFits(s, s', steps, key, u, next, t);
      case Send(x) =>
        assert HoldsOwnBatch(s, x);
        var batch := s.batches[s.timers[x].phase.batch];
        assert BatchFits(s, steps, batch) && Detached(s, batch);
        SendTimerFits(s, s', steps, x, next, t, batch, Cancel(s.timers, batch.entry.timer));
      case _ =>
        if step.timer == t {
          assert EntryFits(s, steps, s.timers[t].key);
          OwnTimerFits(s, s', steps, step, next, t);
        } else {
          OtherTimerFits(s, s', steps, step, next, t);
        }
    }
  }

  lemma BatchesFitNext(s: State, s': State, steps: seq<Step>, step: Step, next: seq<Step>)
    requires Enabled(s, step) && s' == Apply(s, step) && next == steps + [step] && Fits(s, steps)
    ensures forall b :: 0 <= b < |s'.batches| ==> BatchFits(s', next, s'.batches[b])
  {
    forall b | 0 <= b < |s'.batches| ensures BatchFits(s', next, s'.batches[b]) {
      if b < |s.batches| {
        assert BatchFits(s, steps, s.batches[b]) && TimerFits(s, steps, s.batches[b].taker);
        NotAgain(s, steps, step, s.batches[b]);
        BatchFitsNext(s, s', steps, step, next, s.batches[b]);
      } else {
        assert TimerFits(s, steps, step.timer) && EntryFits(s, steps, s.timers[step.timer].key);
        TakenBatchFits(s, s', steps, step.timer, next);
      }
    }
  }

  /** In every run the list of steps explains timers, phases, cancellations, pending entries and batches. */
  lemma {:induction false} FitsAlways(steps: seq<Step>)
    requires Runs(steps)
    ensures Fits(Exec(steps), steps)
  {
    if steps != [] {
      var p, step := Init(steps), Last(steps);
      assert steps == p + [step];
      InvHolds(p);
      FitsAlways(p);
      FitsNext(Exec(p), Exec(steps), p, step, steps);
    }
  }

  // ---- what follows -----------------------------------------------------------------------------

  /** The steps possible after a run are those that the list alone allows. */
  lemma NextStepIff(steps: seq<Step>, step: Step)
    requires Runs(steps)
    ensures Runs(steps + [step]) <==> Allowed(steps, step)
  {
    FitsAlways(steps);
    assert Init(steps + [step]) == steps;
    if !step.Upsert? {
      var s, t := Exec(steps), step.timer;
      assert TimerFits(s, steps, t);
      EnabledIff(s, steps, step, t);
    }
  }

  lemma EnabledIff(s: State, steps: seq<Step>, step: Step, t: nat)
    requires !step.Upsert? && step.timer == t
    requires |s.timers| == |Upserts(steps)| && TimerFits(s, steps, t)
    ensures Enabled(s, step) <==> Allowed(steps, step)
  {
  }

  /** Every timer task lives one of two lives: it wakes, takes and sends, or it observes its cancellation. */
  lemma LifeCycle(steps: seq<Step>, t: nat)
    requires Runs(steps)
    ensures Own(steps, t) <= [Spawn(t), Wake(t), Take(t), Send(t)] || Own(steps, t) <= [Spawn(t), ObserveCancel(t)]
  {
    FitsAlways(steps);
    assert TimerFits(Exec(steps), steps, t);
  }

  lemma {:induction false} OwnMembers(steps: seq<Step>, step: Step)
    requires !step.Upsert?
    ensures step in steps <==> step in Own(steps, step.timer)
  {
    if steps != [] {
      OwnMembers(Init(steps), step);
      assert steps == Init(steps) + [Last(steps)];
    }
  }

  /** A task that observed its cancellation never wakes, takes or sends, and no batch is its own. */
  lemma ObservedCancelIsFinal(steps: seq<Step>, t: nat)
    requires Runs(steps) && ObserveCancel(t) in steps
    ensures Wake(t) !in steps && Take(t) !in steps && Send(t) !in steps
    ensures forall b :: 0 <= b < |Exec(steps).batches| ==> Exec(steps).batches[b].taker != t
  {
    FitsAlways(steps);
    LifeCycle(steps, t);
    OwnMembers(steps, ObserveCancel(t));
    OwnMembers(steps, Wake(t));
    OwnMembers(steps, Take(t));
    OwnMembers(steps, Send(t));
    forall b | 0 <= b < |Exec(steps).batches| ensures Exec(steps).batches[b].taker != t {
      assert BatchFits(Exec(steps), steps, Exec(steps).batches[b]);
    }
  }

  /** A batch is sent exactly if the task that took it has sent. */
  lemma SentIff(steps: seq<Step>, b: nat)
    requires Runs(steps) && b < |Exec(steps).batches|
    ensures b in Exec(steps).sent <==> Send(Exec(steps).batches[b].taker) in steps
  {
    FitsAlways(steps);
    InvHolds(steps);
    var s := Exec(steps);
    var t := s.batches[b].taker;
    assert HeldOrSent(s, b) && TimerFits(s, steps, t) && BatchFits(s, steps, s.batches[b]);
    TakerHasSent(s.timers[t].phase, Own(steps, t), t, Found(steps, t).Some?);
    OwnMembers(steps, Send(t));
  }

  lemma TakerHasSent(phase: Phase, own: seq<Step>, t: nat, found: bool)
    requires PhaseFits(phase, own, t, found) && found && Take(t) in own
    ensures phase == Ended <==> Send(t) in own
  {
  }

  /** Whoever takes, takes whatever is pending for its key, its own entry or a newer one, and leaves nothing pending. */
  lemma TakeFindsPending(steps: seq<Step>, t: nat, next: seq<Step>)
    requires Runs(steps) && next == steps + [Take(t)] && Allowed(steps, Take(t)) && Runs(next)
    ensures var s, s' := Exec(steps), Exec(next);
      && t < |s.timers| && s.timers[t].key !in s'.pending
      && (if s.timers[t].key in s.pending
          then |s'.batches| == |s.batches| + 1 && Last(s'.batches).taker == t
               && Last(s'.batches).entry == s.pending[s.timers[t].key]
          else s'.batches == s.batches)
  {
    assert Init(next) == steps && Last(next) == Take(t);
  }

  /**
   Conservation in terms of what came in: the batches of a key, in the order taken, and what is pending
   are together exactly the updates accepted for it, in order.
   */
  lemma EveryUpdateIsCarried(steps: seq<Step>, key: string)
    requires Runs(steps)
    ensures var s := Exec(steps);
      Concat(Windows(s, s.batches, key)) + PendingWindow(s, key) == UpdatesOf(Upserts(steps), key)
  {
    Conservation(steps, key);
    FitsAlways(steps);
    assert EntryFits(Exec(steps), steps, key);
  }

  /** `u` accepted for `key`, its timer at `phase`. */
  function One(key: string, u: Update, phase: Phase): State {
    State(map[key := Entry(u, 0)], [Timer(key, phase, false)], map[key := [u]], [], [])
  }

  /** `v` accepted on top of that. */
  function Two(key: string, u: Update, v: Update): State {
    State(map[key := Entry(Merge(u, v), 1)], [Timer(key, Woken, true), Timer(key, Unspawned, false)],
          map[key := [u, v]], [], [])
  }

  /** The first timer has taken both. */
  function BothTaken(key: string, u: Update, v: Update): State {
    State(map[], [Timer(key, Sending(0), true), Timer(key, Unspawned, false)], map[key := [u, v]],
          [Batch(key, 0, 2, Entry(Merge(u, v), 1), 0)], [])
  }

  lemma FirstAccepted(key: string, u: Update)
    ensures Apply(Initial, Upsert(key, u)) == One(key, u, Unspawned)
  {
    var s := Apply(Initial, Upsert(key, u));
    assert s.timers == [Timer(key, Unspawned, false)] && [] + [u] == [u];
    assert s.accepted == map[key := [u]];
  }

  lemma SecondAccepted(key: string, u: Update, v: Update)
    ensures Apply(One(key, u, Woken), Upsert(key, v)) == Two(key, u, v)
  {
    var s := Apply(One(key, u, Woken), Upsert(key, v));
    assert s.timers == Two(key, u, v).timers && [u] + [v] == [u, v];
    assert s.accepted == map[key := [u, v]];
    assert s.pending == map[key := Entry(Merge(u, v), 1)];
  }

  lemma FirstTakes(key: string, u: Update, v: Update)
    ensures Apply(Two(key, u, v), Take(0)) == BothTaken(key, u, v)
  {
    var s := Apply(Two(key, u, v), Take(0));
    assert s.timers == BothTaken(key, u, v).timers && s.batches == BothTaken(key, u, v).batches;
    assert s.pending == map[];
  }

  lemma FirstWakes(key: string, u: Update) returns (steps: seq<Step>)
    ensures steps == [Upsert(key, u), Spawn(0), Wake(0)] && Runs(steps) && Exec(steps) == One(key, u, Woken)
  {
    FirstAccepted(key, u);
    steps := Extend([], Initial, Upsert(key, u), One(key, u, Unspawned));
    steps := Extend(steps, One(key, u, Unspawned), Spawn(0), One(key, u, Sleeping));
    steps := Extend(steps, One(key, u, Sleeping), Wake(0), One(key, u, Woken));
  }

  /** A timer that woke just before a newer update takes the newer entry: no quiet window follows it. */
  lemma StaleTimerTakesNewer(key: string, u: Update, v: Update) returns (steps: seq<Step>)
    ensures steps == [Upsert(key, u), Spawn(0), Wake(0), Upsert(key, v), Take(0)] && Runs(steps)
    ensures Exec(steps).batches == [Batch(key, 0, 2, Entry(Merge(u, v), 1), 0)] && Exec(steps).pending == map[]
  {
    steps := FirstWakes(key, u);
    SecondAccepted(key, u, v);
    steps := Extend(steps, One(key, u, Woken), Upsert(key, v), Two(key, u, v));
    FirstTakes(key, u, v);
    steps := Extend(steps, Two(key, u, v), Take(0), BothTaken(key, u, v));
  }
}
