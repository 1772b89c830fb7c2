/**
 The per-app supervisor as atomic steps: the watched configuration, the enable / build / run /
 restart loop, the run task of each generation, and the slot through which ingress routes see it.
 */
module Supervisor {
  import opened Sequences
  import opened Config

  // ---- restart delays --------------------------------------------------------------

  const MAX_DELAY := 60

  /** The delay, in seconds, that follows `delay`. */
  function NextDelay(delay: nat): nat {
    if delay * 2 < MAX_DELAY then delay * 2 else MAX_DELAY
  }

  /** Drawing a delay: the one to wait, and the one that follows. */
  function Drawn(current: nat): (nat, nat) {
    (current, NextDelay(current))
  }

  class Backoff {
    var current: nat

    constructor ()
      ensures current == 1
    {
      current := 1;
    }

    method Reset()
      modifies this
      ensures current == 1
    {
      current := 1;
    }

    method Next() returns (delay: nat)
      modifies this
      ensures (delay, current) == Drawn(old(current))
    {
      delay := current;
      current := if current * 2 <= MAX_DELAY then current * 2 else MAX_DELAY;
    }
  }

  function Pow2(n: nat): nat {
    if n == 0 then 1 else 2 * Pow2(n - 1)
  }

  /** The n-th delay in a row, counting from zero: 1, 2, 4, ... seconds, capped at 60. */
  function Delay(n: nat): nat {
    if Pow2(n) < MAX_DELAY then Pow2(n) else MAX_DELAY
  }

  // ---- the slot ----------------------------------------------------------------------

  /** A cell holding the live state of an app; dropping the guard empties it unconditionally. */
  class StateSlot<T> {
    var current: Option<T>

    constructor ()
      ensures current == None
    {
      current := None;
    }

    method Publish(state: T)
      modifies this
      ensures current == Some(state)
    {
      current := Some(state);
    }

    method DropGuard()
      modifies this
      ensures current == None
    {
      current := None;
    }
  }

  // ---- the state machine ---------------------------------------------------------------

  /** Where the run task of a generation is; its guard is dropped before the task counts as finished. */
  datatype RunPhase = Spawned | Published | Dropped | Finished

  /** One generation: the change key it was built from, and its run task. */
  datatype Generation = Generation(key: ChangeKey, phase: RunPhase, cancelled: bool)

  datatype Status = Starting | Running | Errored | Stopped

  datatype Pc =
    | Top
    | Idle                                          // disabled, awaiting a change
    | Building(config: Option<Document>, key: ChangeKey)
    | Waiting(delay: nat, crashed: bool)            // after a failed build or a crash
    | Selecting(gen: nat)                           // run task or config change, whichever comes first
    | Comparing(gen: nat)                           // a change was seen, its key not yet compared
    | Stopping(gen: nat, restart: bool)             // cancelled, awaiting the run task
    | Exited

  /**
   The watch channel (value, version, the version last seen by this supervisor, closed), the
   supervisor's own position, all generations so far, the slot's content by generation number,
   the next delay, and how many waits there were since the last successful build.
   */
  datatype State = State(
    config: Option<Document>, version: nat, seen: nat, closed: bool,
    pc: Pc, gens: seq<Generation>, slot: Option<nat>,
    backoff: nat, waits: nat, status: Option<Status>)

  datatype Step =
    | SetConfig(config: Option<Document>) | Close
    | ReadConfig | SeeChange | SeeClosed
    | BuildOk | BuildFail
    | WaitOver
    | SelectExit | Compare | Joined
    | Publish(gen: nat) | EndRun(gen: nat) | FinishRun(gen: nat)

  function Initial(config: Option<Document>): State {
    State(config, 0, 0, false, Top, [], None, 1, 0, None)
  }

  predicate Unread(s: State) {
    s.seen != s.version
  }

  predicate AwaitsChange(pc: Pc) {
    pc.Idle? || pc.Waiting? || pc.Selecting?
  }

  predicate Enabled(s: State, step: Step) {
    match step
    case SetConfig(_) => true
    case Close => true
    case ReadConfig => s.pc.Top?
    case SeeChange => AwaitsChange(s.pc) && Unread(s)
    case SeeClosed => AwaitsChange(s.pc) && !Unread(s) && s.closed
    case BuildOk => s.pc.Building?
    case BuildFail => s.pc.Building?
    case WaitOver => s.pc.Waiting?
    case SelectExit => s.pc.Selecting? && s.pc.gen < |s.gens| && s.gens[s.pc.gen].phase == Finished
    case Compare => s.pc.Comparing? && s.pc.gen < |s.gens|
    case Joined => s.pc.Stopping? && s.pc.gen < |s.gens| && s.gens[s.pc.gen].phase == Finished
    case Publish(g) => g < |s.gens| && s.gens[g].phase == Spawned
    case EndRun(g) => g < |s.gens| && s.gens[g].phase in {Spawned, Published}
    case FinishRun(g) => g < |s.gens| && s.gens[g].phase == Dropped
  }

  function SetPhase(gens: seq<Generation>, g: nat, phase: RunPhase): seq<Generation>
    requires g < |gens|
  {
    gens[g := gens[g].(phase := phase)]
  }

  function CancelRun(gens: seq<Generation>, g: nat): seq<Generation> {
    if g < |gens| then gens[g := gens[g].(cancelled := true)] else gens
  }

  function StartWait(s: State, crashed: bool): State {
    s.(pc := Waiting(s.backoff, crashed), backoff := NextDelay(s.backoff), waits := s.waits + 1,
       status := Some(Errored))
  }

  function Apply(s: State, step: Step, app: string): State
    requires Enabled(s, step)
  {
    match step
    case SetConfig(c) => s.(config := c, version := s.version + 1)
    case Close => s.(closed := true)
    case ReadConfig =>
      var key := Compute(s.config, app);
      if key.Enabled()
      then s.(seen := s.version, pc := Building(s.config, key), status := Some(Starting))
      else s.(seen := s.version, pc := Idle, status := Some(Stopped))
    case SeeChange =>
      s.(seen := s.version, pc := if s.pc.Selecting? then Comparing(s.pc.gen) else Top)
    case SeeClosed =>
      if s.pc.Selecting? then s.(pc := Stopping(s.pc.gen, false), gens := CancelRun(s.gens, s.pc.gen))
      else s.(pc := Exited)
    case BuildOk =>
      s.(pc := Selecting(|s.gens|), gens := s.gens + [Generation(s.pc.key, Spawned, false)],
         backoff := 1, waits := 0, status := Some(Running))
    case BuildFail => StartWait(s, false)
    case WaitOver => s.(pc := Top)
    case SelectExit => StartWait(s, true)
    case Compare =>
      var g := s.pc.gen;
      if Compute(s.config, app) != s.gens[g].key
      then s.(pc := Stopping(g, true), gens := CancelRun(s.gens, g))
      else s.(pc := Selecting(g))
    case Joined => s.(pc := if s.pc.restart then Top else Exited)
    case Publish(g) => s.(gens := SetPhase(s.gens, g, Published), slot := Some(g))
    case EndRun(g) =>
      s.(gens := SetPhase(s.gens, g, Dropped), slot := if s.gens[g].phase == Published then None else s.slot)
    case FinishRun(g) => s.(gens := SetPhase(s.gens, g, Finished))
  }

  /** `steps` is a run of app `app`'s supervisor from a host that booted with `config`. */
  predicate Runs(config: Option<Document>, app: string, steps: seq<Step>)
    decreases |steps|, 0
  {
    steps == [] || (Runs(config, app, Init(steps)) && Enabled(Exec(config, app, Init(steps)), Last(steps)))
  }

  function Exec(config: Option<Document>, app: string, steps: seq<Step>): State
    requires Runs(config, app, steps)
    decreases |steps|, 1
  {
    if steps == [] then Initial(config) else Apply(Exec(config, app, Init(steps)), Last(steps), app)
  }

  /** The back-off and the slot of the machine move as the methods of Backoff and StateSlot do. */
  lemma StepMatchesClasses(s: State, step: Step, app: string)
    requires Enabled(s, step)
    ensures var s' := Apply(s, step, app);
      && (step.BuildOk? ==> s'.backoff == 1)
      && (step.BuildFail? || step.SelectExit? ==>
            s'.pc.Waiting? && (s'.pc.delay, s'.backoff) == Drawn(s.backoff))
      && (!step.BuildOk? && !step.BuildFail? && !step.SelectExit? ==> s'.backoff == s.backoff)
      && (step.Publish? ==> s'.slot == Some(step.gen))
      && (step.EndRun? && s.gens[step.gen].phase == Published ==> s'.slot == None)
      && (!step.Publish? && !step.EndRun? ==> s'.slot == s.slot)
  {
  }

  // ---- invariants -------------------------------------------------------------------------

  /** The generation the supervisor is driving or stopping. */
  function Current(s: State): Option<nat> {
    if s.pc.Selecting? || s.pc.Comparing? || s.pc.Stopping? then Some(s.pc.gen) else None
  }

  /** Only the newest generation can be live, and only while the supervisor is driving or stopping it. */
  ghost predicate OneRun(s: State) {
    && (Current(s).Some? ==> Current(s).value + 1 == |s.gens|)
    && forall g :: 0 <= g < |s.gens| && s.gens[g].phase != Finished ==> Current(s) == Some(g)
  }

  /** The slot holds a generation's state exactly while that generation has published and not dropped its guard. */
  ghost predicate SlotLive(s: State) {
    forall g: nat :: s.slot == Some(g) <==> g < |s.gens| && s.gens[g].phase == Published
  }

  /** What the supervisor acts on is the live configuration, unless a newer version is still unread. */
  predicate CaughtUp(s: State, app: string) {
    && s.seen <= s.version
    && (s.pc.Building? ==> s.pc.key == Compute(s.pc.config, app) && s.pc.key.Enabled())
    && (!Unread(s) ==> match s.pc
        case Idle => !Compute(s.config, app).Enabled()
        case Building(config, _) => config == s.config
        case Selecting(g) => g < |s.gens| && s.gens[g].key == Compute(s.config, app)
        case _ => true)
  }

  predicate Paced(s: State) {
    && s.backoff == Delay(s.waits)
    && (Current(s).Some? ==> s.waits == 0)
    && (s.pc.Waiting? ==> s.waits >= 1 && s.pc.delay == Delay(s.waits - 1) && (s.pc.crashed ==> s.waits == 1))
  }

  predicate StatusFits(s: State) {
    match s.pc
    case Idle => s.status == Some(Stopped)
    case Building(_, _) => s.status == Some(Starting)
    case Waiting(_, _) => s.status == Some(Errored)
    case Selecting(_) => s.status == Some(Running)
    case Comparing(_) => s.status == Some(Running)
    case _ => true
  }

  ghost predicate Inv(s: State, app: string) {
    OneRun(s) && SlotLive(s) && CaughtUp(s, app) && Paced(s) && StatusFits(s)
  }

  lemma OneRunKept(s: State, step: Step, app: string)
    requires OneRun(s) && Enabled(s, step)
    ensures OneRun(Apply(s, step, app))
  {
  }

  lemma SlotKept(s: State, step: Step, app: string)
    requires OneRun(s) && SlotLive(s) && Enabled(s, step)
    ensures SlotLive(Apply(s, step, app))
  {
  }

  lemma CaughtUpKept(s: State, step: Step, app: string)
    requires OneRun(s) && CaughtUp(s, app) && Enabled(s, step)
    ensures CaughtUp(Apply(s, step, app), app)
  {
  }

  lemma DelayDoubles(n: nat)
    ensures NextDelay(Delay(n)) == Delay(n + 1)
  {
  }

  lemma PacedKept(s: State, step: Step, app: string)
    requires OneRun(s) && Paced(s) && StatusFits(s) && Enabled(s, step)
    ensures Paced(Apply(s, step, app)) && StatusFits(Apply(s, step, app))
  {
    DelayDoubles(s.waits);
  }

  lemma {:induction false} InvHolds(config: Option<Document>, app: string, steps: seq<Step>)
    requires Runs(config, app, steps)
    ensures Inv(Exec(config, app, steps), app)
  {
    if steps != [] {
      var s, step := Exec(config, app, Init(steps)), Last(steps);
      InvHolds(config, app, Init(steps));
      OneRunKept(s, step, app);
      SlotKept(s, step, app);
      CaughtUpKept(s, step, app);
      PacedKept(s, step, app);
    }
  }

  // ---- which configurations start an app ------------------------------------------------------

  /** Generations come from keys that were enabled. */
  predicate FromEnabled(s: State) {
    forall g :: 0 <= g < |s.gens| ==> s.gens[g].key.Enabled()
  }

  lemma {:induction false} BuiltKeysEnabled(config: Option<Document>, app: string, steps: seq<Step>)
    requires Runs(config, app, steps)
    ensures FromEnabled(Exec(config, app, steps))
  {
    if steps != [] {
      var s := Exec(config, app, Init(steps));
      InvHolds(config, app, Init(steps));
      BuiltKeysEnabled(config, app, Init(steps));
      FromEnabledKept(s, Last(steps), app);
    }
  }

  lemma FromEnabledKept(s: State, step: Step, app: string)
    requires CaughtUp(s, app) && Enabled(s, step) && FromEnabled(s)
    ensures FromEnabled(Apply(s, step, app))
  {
  }

  /** The live configuration: the last one set, or the one the host booted with. */
  function LiveConfig(config: Option<Document>, steps: seq<Step>): Option<Document> {
    if steps == [] then config
    else if Last(steps).SetConfig? then Last(steps).config
    else LiveConfig(config, Init(steps))
  }

  lemma {:induction false} ConfigIsLive(config: Option<Document>, app: string, steps: seq<Step>)
    requires Runs(config, app, steps)
    ensures Exec(config, app, steps).config == LiveConfig(config, steps)
  {
    if steps != [] {
      ConfigIsLive(config, app, Init(steps));
    }
  }

  /** The loop goes on to build exactly if the flag is set in the configuration that is live at that moment. */
  lemma BuildsIffFlagSet(config: Option<Document>, app: string, steps: seq<Step>, next: seq<Step>)
    requires Runs(config, app, steps) && next == steps + [ReadConfig] && Runs(config, app, next)
    ensures var pc := Exec(config, app, next).pc;
      && (pc.Building? <==> FlagSet(LiveConfig(config, steps), app))
      && (pc.Idle? <==> !FlagSet(LiveConfig(config, steps), app))
      && (pc.Building? ==> pc.config == LiveConfig(config, steps))
  {
    assert Init(next) == steps && Last(next) == ReadConfig;
    ConfigIsLive(config, app, steps);
    EnabledIffFlag(LiveConfig(config, steps), app);
  }

  /** An app whose flag no configuration sets is never built nor run, whatever else they say. */
  lemma {:induction false} NeverSetNeverBuilt(config: Option<Document>, app: string, steps: seq<Step>)
    requires Runs(config, app, steps) && !FlagSet(config, app)
    requires forall step :: step in steps && step.SetConfig? ==> !FlagSet(step.config, app)
    ensures var s := Exec(config, app, steps);
      && s.gens == [] && s.slot == None && (s.pc.Top? || s.pc.Idle? || s.pc.Exited?)
      && (s.status == None || s.status == Some(Stopped)) && !FlagSet(s.config, app)
  {
    if steps != [] {
      assert steps == Init(steps) + [Last(steps)];
      NeverSetNeverBuilt(config, app, Init(steps));
      EnabledIffFlag(Exec(config, app, Init(steps)).config, app);
    }
  }

  /** The supervisor sees the channel closed only once it has seen every edit, and then it leaves for good. */
  lemma {:induction false} ClosedMeansLeaving(config: Option<Document>, app: string, steps: seq<Step>)
    requires Runs(config, app, steps) && SeeClosed in steps
    ensures var s := Exec(config, app, steps);
      s.closed && (s.pc.Exited? || (s.pc.Stopping? && !s.pc.restart))
  {
    assert steps == Init(steps) + [Last(steps)];
    if Last(steps) != SeeClosed {
      ClosedMeansLeaving(config, app, Init(steps));
    }
  }

  lemma ClosedIsSeenLast(config: Option<Document>, app: string, steps: seq<Step>, next: seq<Step>)
    requires Runs(config, app, steps) && next == steps + [SeeClosed] && Runs(config, app, next)
    ensures !Unread(Exec(config, app, steps)) && Close in steps
  {
    assert Init(next) == steps && Last(next) == SeeClosed;
    ClosedIffClose(config, app, steps);
  }

  lemma {:induction false} ClosedIffClose(config: Option<Document>, app: string, steps: seq<Step>)
    requires Runs(config, app, steps)
    ensures Exec(config, app, steps).closed <==> Close in steps
  {
    if steps != [] {
      ClosedIffClose(config, app, Init(steps));
      assert steps == Init(steps) + [Last(steps)];
    }
  }

  // ---- what every run guarantees -----------------------------------------------------------

  /**
   At most one run task is live; the slot holds the state of the live generation only, while it
   runs; and dropping a guard, which empties the slot whatever it holds, only ever erases the
   state of the guard's own generation.
   */
  lemma RunsAreExclusive(config: Option<Document>, app: string, steps: seq<Step>, g: nat, h: nat)
    requires Runs(config, app, steps)
    ensures var s := Exec(config, app, steps);
      && (g < |s.gens| && h < |s.gens| && s.gens[g].phase != Finished && s.gens[h].phase != Finished ==> g == h)
      && (s.slot == Some(g) ==> g + 1 == |s.gens| && s.gens[g].phase == Published && Current(s) == Some(g))
      && (Enabled(s, EndRun(g)) && s.slot != None ==> s.slot == Some(g))
  {
    InvHolds(config, app, steps);
  }

  /** No supervisor step can be taken: the supervisor rests until the next edit, crash or shutdown. */
  predicate AtRest(s: State) {
    && (forall step
          | step in {ReadConfig, SeeChange, SeeClosed, BuildOk, BuildFail, WaitOver, SelectExit, Compare, Joined}
          :: !Enabled(s, step))
    && forall g :: 0 <= g < |s.gens| && s.gens[g].cancelled ==> s.gens[g].phase == Finished
  }

  /**
   Whenever the supervisor is at rest it agrees with the live configuration: the app is stopped
   and disabled, or runs a generation built from the live change key, and the status says so.
   */
  lemma RestAgreesWithConfig(config: Option<Document>, app: string, steps: seq<Step>)
    requires Runs(config, app, steps) && AtRest(Exec(config, app, steps))
    ensures var s := Exec(config, app, steps); var key := Compute(s.config, app);
      || s.pc.Exited?
      || (s.pc.Idle? && !FlagSet(s.config, app) && s.status == Some(Stopped) && s.slot == None)
      || (s.pc.Selecting? && s.pc.gen + 1 == |s.gens| && s.gens[s.pc.gen].key == key && s.status == Some(Running)
          && FlagSet(s.config, app))
  {
    InvHolds(config, app, steps);
    BuiltKeysEnabled(config, app, steps);
    EnabledIffFlag(Exec(config, app, steps).config, app);
    CancelledIsStopping(config, app, steps);
    var s := Exec(config, app, steps);
    assert !Enabled(s, ReadConfig) && !Enabled(s, SeeChange) && !Enabled(s, BuildOk) && !Enabled(s, WaitOver);
    assert !Enabled(s, Compare) && !Enabled(s, Joined);
    if s.slot.Some? {
      assert Current(s) == s.slot;
    }
  }

  lemma {:induction false} CancelledIsStopping(config: Option<Document>, app: string, steps: seq<Step>)
    requires Runs(config, app, steps)
    ensures var s := Exec(config, app, steps);
      s.pc.Stopping? ==> s.pc.gen < |s.gens| && s.gens[s.pc.gen].cancelled
  {
    if steps != [] {
      InvHolds(config, app, Init(steps));
      CancelledIsStopping(config, app, Init(steps));
      StoppingKept(Exec(config, app, Init(steps)), Last(steps), app);
    }
  }

  lemma StoppingKept(s: State, step: Step, app: string)
    requires OneRun(s) && Enabled(s, step)
    requires s.pc.Stopping? ==> s.pc.gen < |s.gens| && s.gens[s.pc.gen].cancelled
    ensures var s' := Apply(s, step, app);
      s'.pc.Stopping? ==> s'.pc.gen < |s'.gens| && s'.gens[s'.pc.gen].cancelled
  {
  }

  /** The live configuration is `config` and generation `g`, built from another key, has not outlived the edit. */
  ghost predicate OnItsWay(s: State, config: Option<Document>, g: nat, app: string) {
    && s.config == config && g < |s.gens| && s.gens[g].key != Compute(config, app)
    && match s.pc
       case Selecting(h) =>
         if h == g then Unread(s) else !Unread(s) && h < |s.gens| && s.gens[h].key == Compute(config, app)
       case Comparing(h) => h == g
       case Building(c, _) => !Unread(s) && c == config
       case Idle => !Unread(s) && !Compute(config, app).Enabled()
       case _ => true
  }

  /**
   A generation whose key differs from the live one ends. However the run goes on without a further
   edit, that generation is being driven only as long as the supervisor has not looked at the
   channel; every later build, generation or stop is based on the live configuration.
   */
  lemma {:induction false} StaleGenerationEnds(
    config: Option<Document>, app: string, before: seq<Step>, after: seq<Step>, g: nat)
    requires Runs(config, app, before + after)
    requires Runs(config, app, before) && Exec(config, app, before).pc == Selecting(g)
    requires g < |Exec(config, app, before).gens|
    requires Exec(config, app, before).gens[g].key != Compute(Exec(config, app, before).config, app)
    requires forall step :: step in after ==> !step.SetConfig?
    ensures OnItsWay(Exec(config, app, before + after), Exec(config, app, before).config, g, app)
    ensures SeeChange in after ==> Exec(config, app, before + after).pc != Selecting(g)
  {
    if after == [] {
      assert before + after == before;
      InvHolds(config, app, before);
    } else {
      assert Init(before + after) == before + Init(after) && Last(before + after) == Last(after);
      assert after == Init(after) + [Last(after)];
      StaleGenerationEnds(config, app, before, Init(after), g);
      var s := Exec(config, app, before + Init(after));
      InvHolds(config, app, before + Init(after));
      StaleStep(s, Last(after), g, app);
    }
  }

  lemma StaleStep(s: State, step: Step, g: nat, app: string)
    requires OneRun(s) && CaughtUp(s, app)
    requires Enabled(s, step) && !step.SetConfig? && OnItsWay(s, s.config, g, app)
    ensures OnItsWay(Apply(s, step, app), s.config, g, app)
    ensures Apply(s, step, app).pc == Selecting(g) ==> s.pc == Selecting(g) && step != SeeChange
  {
    KeysStay(s, step, app, g);
  }

  /** No step changes the key of a generation. */
  lemma KeysStay(s: State, step: Step, app: string, g: nat)
    requires Enabled(s, step) && g < |s.gens|
    ensures g < |Apply(s, step, app).gens| && Apply(s, step, app).gens[g].key == s.gens[g].key
  {
  }

  /** Where a generation is neither driven nor compared any more, its run task has finished or is cancelled. */
  lemma LeftBehindIsStopped(config: Option<Document>, app: string, steps: seq<Step>, g: nat)
    requires Runs(config, app, steps) && g < |Exec(config, app, steps).gens|
    requires var pc := Exec(config, app, steps).pc; pc != Selecting(g) && pc != Comparing(g)
    ensures var run := Exec(config, app, steps).gens[g];
      run.phase == Finished || (run.cancelled && Exec(config, app, steps).pc.Stopping?)
  {
    InvHolds(config, app, steps);
    CancelledIsStopping(config, app, steps);
  }

  // ---- how soon an edit is acted on ------------------------------------------------------------

  /** The supervisor's own steps; the others are edits, the channel closing, and steps of run tasks. */
  predicate Supervisory(step: Step) {
    !step.SetConfig? && !step.Close? && !step.Publish? && !step.EndRun? && !step.FinishRun?
  }

  function SupervisorySteps(steps: seq<Step>): nat {
    if steps == [] then 0 else SupervisorySteps(Init(steps)) + if Supervisory(Last(steps)) then 1 else 0
  }

  /** How many own steps the supervisor is away, at most, from acting on the live configuration. */
  function Rank(s: State): (r: nat)
    ensures r <= 5
  {
    match s.pc
    case Top => 1
    case Idle => if Unread(s) then 2 else 0
    case Building(_, _) => if Unread(s) then 5 else 0
    case Waiting(_, _) => 2
    case Selecting(_) => if Unread(s) then 4 else 0
    case Comparing(_) => if Unread(s) then 5 else 3
    case Stopping(_, restart) => if restart then 2 else 0
    case Exited => 0
  }

  lemma RankFalls(s: State, step: Step, app: string)
    requires Enabled(s, step) && !step.SetConfig? && Rank(s) > 0
    ensures Rank(Apply(s, step, app)) + (if Supervisory(step) then 1 else 0) <= Rank(s)
  {
  }

  /** As long as the supervisor has not acted, it can take a step, or the run task it stops can. */
  lemma NeverStuckBehind(config: Option<Document>, app: string, steps: seq<Step>) returns (step: Step)
    requires Runs(config, app, steps) && Rank(Exec(config, app, steps)) > 0
    ensures Enabled(Exec(config, app, steps), step) && (Supervisory(step) || step.EndRun? || step.FinishRun?)
  {
    InvHolds(config, app, steps);
    step := NextStep(Exec(config, app, steps));
  }

  lemma NextStep(s: State) returns (step: Step)
    requires OneRun(s) && Rank(s) > 0
    ensures Enabled(s, step) && (Supervisory(step) || step.EndRun? || step.FinishRun?)
  {
    match s.pc
    case Top => step := ReadConfig;
    case Building(_, _) => step := BuildOk;
    case Waiting(_, _) => step := WaitOver;
    case Comparing(_) => step := Compare;
    case Stopping(g, _) =>
      var phase := s.gens[g].phase;
      step := if phase == Finished then Joined else if phase == Dropped then FinishRun(g) else EndRun(g);
    case _ => step := SeeChange;
  }

  /**
   The supervisor acts on the live configuration: it rests on a disabled app, builds from that
   configuration, drives a generation built from its key, or leaves because the channel closed. Every
   generation built from another key has finished, or is the one it awaits before leaving.
   */
  ghost predicate Settled(s: State, app: string) {
    && (match s.pc
        case Idle => !FlagSet(s.config, app)
        case Building(config, key) => config == s.config && key == Compute(s.config, app) && FlagSet(s.config, app)
        case Selecting(g) => g < |s.gens| && s.gens[g].key == Compute(s.config, app) && FlagSet(s.config, app)
        case Stopping(_, restart) => !restart && s.closed
        case Exited => s.closed
        case _ => false)
    && forall g :: 0 <= g < |s.gens| && s.gens[g].key != Compute(s.config, app) ==>
      s.gens[g].phase == Finished || (s.gens[g].cancelled && s.pc == Stopping(g, false))
  }

  lemma {:induction false} LeavingMeansClosed(config: Option<Document>, app: string, steps: seq<Step>)
    requires Runs(config, app, steps)
    ensures var s := Exec(config, app, steps); s.pc.Exited? || (s.pc.Stopping? && !s.pc.restart) ==> s.closed
  {
    if steps != [] {
      LeavingMeansClosed(config, app, Init(steps));
    }
  }

  lemma RankZeroIsSettled(config: Option<Document>, app: string, steps: seq<Step>)
    requires Runs(config, app, steps) && Rank(Exec(config, app, steps)) == 0
    ensures Settled(Exec(config, app, steps), app)
  {
    InvHolds(config, app, steps);
    CancelledIsStopping(config, app, steps);
    LeavingMeansClosed(config, app, steps);
    BuiltKeysEnabled(config, app, steps);
    EnabledIffFlag(Exec(config, app, steps).config, app);
  }

  /** Either the supervisor has acted after some of the steps, or its own steps have used up the rank. */
  lemma {:induction false} RankFallsAlong(
    config: Option<Document>, app: string, before: seq<Step>, after: seq<Step>) returns (k: nat)
    requires Runs(config, app, before) && Runs(config, app, before + after)
    requires forall step :: step in after ==> !step.SetConfig?
    ensures k <= |after| && Runs(config, app, before + after[..k])
    ensures Rank(Exec(config, app, before + after[..k])) + SupervisorySteps(after[..k])
            <= Rank(Exec(config, app, before))
    ensures k == |after| || Rank(Exec(config, app, before + after[..k])) == 0
  {
    if after == [] {
      k := 0;
      assert before + after[..0] == before;
    } else {
      var p := Init(after);
      assert Init(before + after) == before + p && Last(before + after) == Last(after);
      assert after == p + [Last(after)];
      k := RankFallsAlong(config, app, before, p);
      assert p[..k] == after[..k];
      if Rank(Exec(config, app, before + p[..k])) > 0 {
        assert p[..k] == p && after[..|after|] == after;
        k := |after|;
        RankOneMore(Exec(config, app, before + p), Last(after), app, p, after, Rank(Exec(config, app, before)));
      }
    }
  }

  lemma RankOneMore(s: State, step: Step, app: string, p: seq<Step>, after: seq<Step>, rank: nat)
    requires Enabled(s, step) && !step.SetConfig? && Rank(s) > 0 && after == p + [step]
    requires Rank(s) + SupervisorySteps(p) <= rank
    ensures Rank(Apply(s, step, app)) + SupervisorySteps(after) <= rank
  {
    assert Init(after) == p;
    RankFalls(s, step, app);
  }

  /**
   From wherever the supervisor stood at the last edit, building, waiting, driving, comparing or
   stopping: it has acted on the live configuration after at most five of its own steps, whatever run
   tasks and the channel do meanwhile.
   */
  lemma EditIsActedOn(config: Option<Document>, app: string, before: seq<Step>, after: seq<Step>) returns (k: nat)
    requires Runs(config, app, before) && Runs(config, app, before + after)
    requires forall step :: step in after ==> !step.SetConfig?
    requires SupervisorySteps(after) >= 5
    ensures k <= |after| && Runs(config, app, before + after[..k]) && SupervisorySteps(after[..k]) <= 5
    ensures Settled(Exec(config, app, before + after[..k]), app)
  {
    k := RankFallsAlong(config, app, before, after);
    assert after[..|after|] == after;
    RankZeroIsSettled(config, app, before + after[..k]);
  }

  /** An edit that keeps an app's key never ends its generation, however many such edits arrive and when. */
  lemma {:induction false} KeyPreservingEditsKeepGeneration(
    config: Option<Document>, app: string, before: seq<Step>, after: seq<Step>, g: nat)
    requires Runs(config, app, before + after)
    requires Runs(config, app, before) && Exec(config, app, before).pc == Selecting(g)
    requires g < |Exec(config, app, before).gens| && !Exec(config, app, before).closed
    requires Exec(config, app, before).gens[g].key == Compute(Exec(config, app, before).config, app)
    requires forall step :: step in after && step.SetConfig? ==>
      Compute(step.config, app) == Exec(config, app, before).gens[g].key
    requires Close !in after && SelectExit !in after
    ensures var s := Exec(config, app, before + after);
      (s.pc == Selecting(g) || s.pc == Comparing(g)) && !s.closed
      && |s.gens| == |Exec(config, app, before).gens|
      && s.gens[g].key == Exec(config, app, before).gens[g].key == Compute(s.config, app)
      && s.gens[g].cancelled == Exec(config, app, before).gens[g].cancelled
  {
    if after == [] {
      assert before + after == before;
    } else {
      assert Init(before + after) == before + Init(after) && Last(before + after) == Last(after);
      assert after == Init(after) + [Last(after)];
      KeyPreservingEditsKeepGeneration(config, app, before, Init(after), g);
      DrivenKept(Exec(config, app, before + Init(after)), Last(after), app, g);
    }
  }

  /** Generation `g` is driven, its key is the live one, and the channel is open. */
  predicate Driven(s: State, app: string, g: nat) {
    && (s.pc == Selecting(g) || s.pc == Comparing(g)) && !s.closed
    && g < |s.gens| && s.gens[g].key == Compute(s.config, app)
  }

  lemma DrivenKept(s: State, step: Step, app: string, g: nat)
    requires Driven(s, app, g) && Enabled(s, step) && step != Close && step != SelectExit
    requires step.SetConfig? ==> Compute(step.config, app) == s.gens[g].key
    ensures var s' := Apply(s, step, app);
      && Driven(s', app, g) && |s'.gens| == |s.gens|
      && s'.gens[g].key == s.gens[g].key && s'.gens[g].cancelled == s.gens[g].cancelled
  {
  }

  /** One field of a section that is neither the app's own nor the registry. */
  ghost predicate OtherSectionEdit(doc: Document, after: Option<Document>, app: string) {
    exists section, field, value ::
      section != app && section != REGISTRY && after.Some? && after == Put(doc, section, field, value)
  }

  /** The console's sign-in is bound or unbound. */
  ghost predicate ConsoleEdit(doc: Document, after: Option<Document>, app: string) {
    app != CONSOLE && after.Some?
    && (after == Some(WithoutConsole(doc))
        || exists name, admins, redirectUri, scope :: after == WithConsole(doc, name, admins, redirectUri, scope))
  }

  predicate Harmless(doc: Document, name: string, entry: Value, app: string) {
    !BoundTo(doc, app, name) || GetFrom(Lookup(doc, REGISTRY), name) == Some(entry)
  }

  /** A registry entry that the app is not bound to is written or removed, or its own is written unchanged. */
  ghost predicate OtherEntryEdit(doc: Document, after: Option<Document>, app: string) {
    app != REGISTRY && after.Some?
    && ((exists name, entry :: after == WithEntry(doc, name, entry) && Harmless(doc, name, entry, app))
        || exists name :: after == WithoutEntry(doc, name) && !BoundTo(doc, app, name))
  }

  /** The structured edits of the console that are not about the app. */
  ghost predicate UnrelatedEdit(before: Option<Document>, after: Option<Document>, app: string) {
    before.Some?
    && (OtherSectionEdit(before.value, after, app) || ConsoleEdit(before.value, after, app)
        || OtherEntryEdit(before.value, after, app))
  }

  lemma UnrelatedEditKeepsKey(before: Option<Document>, after: Option<Document>, app: string)
    requires UnrelatedEdit(before, after, app)
    ensures Compute(after, app) == Compute(before, app)
  {
    var doc := before.value;
    if OtherSectionEdit(doc, after, app) {
      var section, field, value :|
        section != app && section != REGISTRY && after.Some? && after == Put(doc, section, field, value);
      PutKeepsOtherKeys(doc, section, field, value, app);
    } else if ConsoleEdit(doc, after, app) {
      ConsoleEditKeepsKey(doc, after, app);
    } else {
      EntryEditKeepsKey(doc, after, app);
    }
  }

  lemma ConsoleEditKeepsKey(doc: Document, after: Option<Document>, app: string)
    requires ConsoleEdit(doc, after, app)
    ensures Compute(after, app) == KeyOf(doc, app)
  {
    ConsoleMovesNoApp(app);
  }

  lemma EntryEditKeepsKey(doc: Document, after: Option<Document>, app: string)
    requires OtherEntryEdit(doc, after, app)
    ensures Compute(after, app) == KeyOf(doc, app)
  {
    if name, entry :| after == WithEntry(doc, name, entry) && Harmless(doc, name, entry, app) {
      UpsertMovesBoundApps(doc, name, entry, app);
    } else {
      var name :| after == WithoutEntry(doc, name) && !BoundTo(doc, app, name);
      RemoveMovesBoundApps(doc, name, app);
    }
  }

  ghost predicate OnlyUnrelatedEdits(config: Option<Document>, app: string, before: seq<Step>, after: seq<Step>)
    requires Runs(config, app, before + after)
    decreases |after|
  {
    after == [] || (
      assert Init(before + after) == before + Init(after);
      && OnlyUnrelatedEdits(config, app, before, Init(after))
      && (Last(after).SetConfig? ==>
            UnrelatedEdit(Exec(config, app, before + Init(after)).config, Last(after).config, app)))
  }

  lemma {:induction false} UnrelatedEditsKeepKey(
    config: Option<Document>, app: string, before: seq<Step>, after: seq<Step>)
    requires Runs(config, app, before + after) && Runs(config, app, before)
    requires OnlyUnrelatedEdits(config, app, before, after)
    ensures var key := Compute(Exec(config, app, before).config, app);
      && Compute(Exec(config, app, before + after).config, app) == key
      && forall step :: step in after && step.SetConfig? ==> Compute(step.config, app) == key
  {
    if after == [] {
      assert before + after == before;
    } else {
      assert Init(before + after) == before + Init(after) && Last(before + after) == Last(after);
      assert after == Init(after) + [Last(after)];
      UnrelatedEditsKeepKey(config, app, before, Init(after));
      var s := Exec(config, app, before + Init(after));
      UnrelatedStepKeepsKey(s, Last(after), app, Exec(config, app, before + after));
    }
  }

  lemma UnrelatedStepKeepsKey(s: State, step: Step, app: string, s': State)
    requires Enabled(s, step) && s' == Apply(s, step, app)
    requires step.SetConfig? ==> UnrelatedEdit(s.config, step.config, app)
    ensures Compute(s'.config, app) == Compute(s.config, app)
    ensures step.SetConfig? ==> Compute(step.config, app) == Compute(s.config, app)
  {
    if step.SetConfig? {
      UnrelatedEditKeepsKey(s.config, step.config, app);
    }
  }

  /** Editing other apps, the console's sign-in or unused registry entries never bounces an app. */
  lemma UnrelatedEditsNeverBounce(
    config: Option<Document>, app: string, before: seq<Step>, after: seq<Step>, g: nat)
    requires Runs(config, app, before + after) && Runs(config, app, before)
    requires Exec(config, app, before).pc == Selecting(g) && !Unread(Exec(config, app, before))
    requires !Exec(config, app, before).closed && Close !in after && SelectExit !in after
    requires OnlyUnrelatedEdits(config, app, before, after)
    ensures var s := Exec(config, app, before + after);
      (s.pc == Selecting(g) || s.pc == Comparing(g)) && |s.gens| == |Exec(config, app, before).gens|
  {
    InvHolds(config, app, before);
    UnrelatedEditsKeepKey(config, app, before, after);
    KeyPreservingEditsKeepGeneration(config, app, before, after, g);
  }

  lemma {:induction false} CapReached(n: nat)
    requires n >= 6
    ensures Delay(n) == MAX_DELAY && Pow2(n) >= 64
  {
    if n > 6 {
      CapReached(n - 1);
    } else {
      assert Pow2(3) == 8;
      assert Pow2(6) == 64;
    }
  }

  /** How many builds failed and runs ended since the last build that succeeded. */
  function FailuresInRow(steps: seq<Step>): nat {
    if steps == [] || Last(steps) == BuildOk then 0
    else FailuresInRow(Init(steps)) + if Last(steps) == BuildFail || Last(steps) == SelectExit then 1 else 0
  }

  lemma {:induction false} WaitsAreFailures(config: Option<Document>, app: string, steps: seq<Step>)
    requires Runs(config, app, steps)
    ensures Exec(config, app, steps).waits == FailuresInRow(steps)
  {
    if steps != [] {
      WaitsAreFailures(config, app, Init(steps));
    }
  }

  /**
   A crashed run is always restarted after exactly one second, however often it crashes; only
   builds that fail in a row back off, doubling up to a minute from the seventh wait on.
   */
  lemma RestartDelays(config: Option<Document>, app: string, steps: seq<Step>)
    requires Runs(config, app, steps) && Exec(config, app, steps).pc.Waiting?
    ensures var pc, n := Exec(config, app, steps).pc, FailuresInRow(steps);
      && (pc.crashed ==> pc.delay == 1)
      && n >= 1 && pc.delay == Delay(n - 1)
      && (n >= 7 ==> pc.delay == 60)
  {
    InvHolds(config, app, steps);
    WaitsAreFailures(config, app, steps);
    if FailuresInRow(steps) >= 7 {
      CapReached(FailuresInRow(steps) - 1);
    }
  }

  /** A failed build or an ended run is followed by a wait that is called after it. */
  lemma FailureIsFollowedByWait(config: Option<Document>, app: string, steps: seq<Step>, next: seq<Step>, step: Step)
    requires Runs(config, app, steps) && next == steps + [step] && Runs(config, app, next)
    requires step == BuildFail || step == SelectExit
    ensures var s := Exec(config, app, next);
      s.pc.Waiting? && s.pc.crashed == (step == SelectExit) && s.status == Some(Errored)
  {
    assert Init(next) == steps && Last(next) == step;
  }
}
