/**
 The supervisor read off the list of steps alone: where it stands, what each generation was built from and
 how far its run task is, whether an edit is unread, and with that which step can come next.
 */
module SupervisorTrace {
  import opened Sequences
  import opened Config
  import opened Supervisor

  // ---- the reference ---------------------------------------------------------------------------------

  /** An edit that the supervisor has not looked at. */
  predicate UnreadEdit(steps: seq<Step>) {
    steps != []
    && (Last(steps).SetConfig?
        || (Last(steps) != ReadConfig && Last(steps) != SeeChange && UnreadEdit(Init(steps))))
  }

  /** How far the run task of generation `g` is. */
  function RunPhaseOf(steps: seq<Step>, g: nat): RunPhase {
    if steps == [] then Spawned
    else if Last(steps) == Publish(g) then Published
    else if Last(steps) == EndRun(g) then Dropped
    else if Last(steps) == FinishRun(g) then Finished
    else RunPhaseOf(Init(steps), g)
  }

  function Builds(steps: seq<Step>): nat {
    if steps == [] then 0 else Builds(Init(steps)) + if Last(steps) == BuildOk then 1 else 0
  }

  /** The key of the configuration that was live when the loop last began anew. */
  function KeyRead(config: Option<Document>, app: string, steps: seq<Step>): ChangeKey {
    if steps == [] then Compute(config, app)
    else if Last(steps) == ReadConfig then Compute(LiveConfig(config, Init(steps)), app)
    else KeyRead(config, app, Init(steps))
  }

  /** The key from which generation `g` was built. */
  function KeyOfGen(config: Option<Document>, app: string, steps: seq<Step>, g: nat): ChangeKey {
    if steps == [] then Compute(config, app)
    else if Last(steps) == BuildOk && Builds(Init(steps)) == g then KeyRead(config, app, Init(steps))
    else KeyOfGen(config, app, Init(steps), g)
  }

  /** The newest generation was built from the key that is live. */
  predicate NewestIsLive(config: Option<Document>, app: string, steps: seq<Step>) {
    Builds(steps) > 0 && KeyOfGen(config, app, steps, Builds(steps) - 1) == Compute(LiveConfig(config, steps), app)
  }

  datatype Place = AtTop | Resting | InBuild | InWait | Driving | AtCompare | InStop(restart: bool) | Gone

  /** Where the supervisor stands: the last step of its own, and what it met, decide. */
  function Where(config: Option<Document>, app: string, steps: seq<Step>): Place {
    if steps == [] then AtTop
    else
      var p := Init(steps);
      match Last(steps)
      case ReadConfig => if FlagSet(LiveConfig(config, p), app) then InBuild else Resting
      case SeeChange => if Where(config, app, p) == Driving then AtCompare else AtTop
      case SeeClosed => if Where(config, app, p) == Driving then InStop(false) else Gone
      case BuildOk => Driving
      case BuildFail => InWait
      case SelectExit => InWait
      case WaitOver => AtTop
      case Compare => if NewestIsLive(config, app, p) then Driving else InStop(true)
      case Joined => if Where(config, app, p) == InStop(true) then AtTop else Gone
      case _ => Where(config, app, p)
  }

  predicate Awaiting(place: Place) {
    place == Resting || place == InWait || place == Driving
  }

  predicate NewestFinished(steps: seq<Step>) {
    Builds(steps) > 0 && RunPhaseOf(steps, Builds(steps) - 1) == Finished
  }

  /** What can follow `steps`. */
  predicate Allowed(config: Option<Document>, app: string, steps: seq<Step>, step: Step) {
    var place := Where(config, app, steps);
    match step
    case SetConfig(_) => true
    case Close => true
    case ReadConfig => place == AtTop
    case SeeChange => Awaiting(place) && UnreadEdit(steps)
    case SeeClosed => Awaiting(place) && !UnreadEdit(steps) && Close in steps
    case BuildOk => place == InBuild
    case BuildFail => place == InBuild
    case WaitOver => place == InWait
    case SelectExit => place == Driving && NewestFinished(steps)
    case Compare => place == AtCompare
    case Joined => place.InStop? && NewestFinished(steps)
    case Publish(g) => g < Builds(steps) && RunPhaseOf(steps, g) == Spawned
    case EndRun(g) => g < Builds(steps) && (RunPhaseOf(steps, g) == Spawned || RunPhaseOf(steps, g) == Published)
    case FinishRun(g) => g < Builds(steps) && RunPhaseOf(steps, g) == Dropped
  }

  // ---- the state is explained by the list ----------------------------------------------------------------

  predicate PlaceFits(pc: Pc, place: Place, n: nat, key: ChangeKey) {
    match pc
    case Top => place == AtTop
    case Idle => place == Resting
    case Building(_, k) => place == InBuild && k == key
    case Waiting(_, _) => place == InWait
    case Selecting(g) => place == Driving && g + 1 == n
    case Comparing(g) => place == AtCompare && g + 1 == n
    case Stopping(g, restart) => place == InStop(restart) && g + 1 == n
    case Exited => place == Gone
  }

  predicate GenFits(s: State, config: Option<Document>, app: string, steps: seq<Step>, g: nat) {
    if g < |s.gens| then
      s.gens[g].phase == RunPhaseOf(steps, g) && s.gens[g].key == KeyOfGen(config, app, steps, g)
    else RunPhaseOf(steps, g) == Spawned
  }

  predicate ChannelFits(s: State, config: Option<Document>, steps: seq<Step>) {
    && s.config == LiveConfig(config, steps) && (s.closed <==> Close in steps)
    && s.seen <= s.version && (Unread(s) <==> UnreadEdit(steps))
  }

  predicate LoopFits(s: State, config: Option<Document>, app: string, steps: seq<Step>) {
    && |s.gens| == Builds(steps)
    && PlaceFits(s.pc, Where(config, app, steps), |s.gens|, KeyRead(config, app, steps))
    && ChannelFits(s, config, steps)
  }

  ghost predicate Fits(s: State, config: Option<Document>, app: string, steps: seq<Step>) {
    LoopFits(s, config, app, steps) && forall g: nat :: GenFits(s, config, app, steps, g)
  }

  lemma KeyFitsNext(
    s: State, s': State, config: Option<Document>, app: string, steps: seq<Step>, step: Step, next: seq<Step>, g: nat)
    requires Enabled(s, step) && s' == Apply(s, step, app) && next == steps + [step]
    requires LoopFits(s, config, app, steps) && GenFits(s, config, app, steps, g) && g < |s'.gens|
    ensures s'.gens[g].key == KeyOfGen(config, app, next, g)
  {
    assert Init(next) == steps && Last(next) == step;
  }

  lemma PhaseFitsNext(
    s: State, s': State, config: Option<Document>, app: string, steps: seq<Step>, step: Step, next: seq<Step>, g: nat)
    requires Enabled(s, step) && s' == Apply(s, step, app) && next == steps + [step]
    requires LoopFits(s, config, app, steps) && GenFits(s, config, app, steps, g)
    ensures RunPhaseOf(next, g) == if g < |s'.gens| then s'.gens[g].phase else Spawned
  {
    assert Init(next) == steps && Last(next) == step;
  }

  lemma GenFitsNext(
    s: State, s': State, config: Option<Document>, app: string, steps: seq<Step>, step: Step, next: seq<Step>, g: nat)
    requires Enabled(s, step) && s' == Apply(s, step, app) && next == steps + [step]
    requires LoopFits(s, config, app, steps) && GenFits(s, config, app, steps, g)
    ensures GenFits(s', config, app, next, g)
  {
    PhaseFitsNext(s, s', config, app, steps, step, next, g);
    if g < |s'.gens| {
      KeyFitsNext(s, s', config, app, steps, step, next, g);
    }
  }

  lemma ChannelFitsNext(
    s: State, s': State, config: Option<Document>, app: string, steps: seq<Step>, step: Step, next: seq<Step>)
    requires Enabled(s, step) && s' == Apply(s, step, app) && next == steps + [step] && ChannelFits(s, config, steps)
    ensures ChannelFits(s', config, next)
  {
    assert Init(next) == steps && Last(next) == step;
    assert Close in next <==> Close in steps || step == Close;
  }

  /** The steps of run tasks, edits and the closing leave the loop where it is. */
  lemma PlaceStays(
    s: State, s': State, config: Option<Document>, app: string, steps: seq<Step>, step: Step, next: seq<Step>)
    requires Enabled(s, step) && s' == Apply(s, step, app) && next == steps + [step] && !Supervisory(step)
    requires LoopFits(s, config, app, steps)
    ensures |s'.gens| == Builds(next)
    ensures PlaceFits(s'.pc, Where(config, app, next), |s'.gens|, KeyRead(config, app, next))
  {
    assert Init(next) == steps && Last(next) == step;
  }

  predicate LooksAtChannel(step: Step) {
    step == ReadConfig || step == SeeChange || step == SeeClosed
  }

  lemma PlaceAfterLook(
    s: State, s': State, config: Option<Document>, app: string, steps: seq<Step>, step: Step, next: seq<Step>)
    requires Enabled(s, step) && s' == Apply(s, step, app) && next == steps + [step] && LooksAtChannel(step)
    requires LoopFits(s, config, app, steps)
    ensures |s'.gens| == Builds(next)
    ensures PlaceFits(s'.pc, Where(config, app, next), |s'.gens|, KeyRead(config, app, next))
  {
    assert Init(next) == steps && Last(next) == step;
    EnabledIffFlag(s.config, app);
  }

  lemma PlaceAfterCompare(
    s: State, s': State, config: Option<Document>, app: string, steps: seq<Step>, next: seq<Step>)
    requires Enabled(s, Compare) && s' == Apply(s, Compare, app) && next == steps + [Compare]
    requires LoopFits(s, config, app, steps)
    requires |s.gens| > 0 ==> GenFits(s, config, app, steps, |s.gens| - 1)
    ensures |s'.gens| == Builds(next)
    ensures PlaceFits(s'.pc, Where(config, app, next), |s'.gens|, KeyRead(config, app, next))
  {
    assert Init(next) == steps && Last(next) == Compare;
  }

  lemma PlaceMoves(
    s: State, s': State, config: Option<Document>, app: string, steps: seq<Step>, step: Step, next: seq<Step>)
    requires Enabled(s, step) && s' == Apply(s, step, app) && next == steps + [step]
    requires Supervisory(step) && !LooksAtChannel(step) && step != Compare && LoopFits(s, config, app, steps)
    ensures |s'.gens| == Builds(next)
    ensures PlaceFits(s'.pc, Where(config, app, next), |s'.gens|, KeyRead(config, app, next))
  {
    assert Init(next) == steps && Last(next) == step;
  }

  lemma LoopFitsNext(
    s: State, s': State, config: Option<Document>, app: string, steps: seq<Step>, step: Step, next: seq<Step>)
    requires Enabled(s, step) && s' == Apply(s, step, app) && next == steps + [step]
    requires LoopFits(s, config, app, steps)
    requires |s.gens| > 0 ==> GenFits(s, config, app, steps, |s.gens| - 1)
    ensures LoopFits(s', config, app, next)
  {
    ChannelFitsNext(s, s', config, app, steps, step, next);
    if LooksAtChannel(step) {
      PlaceAfterLook(s, s', config, app, steps, step, next);
    } else if step == Compare {
      PlaceAfterCompare(s, s', config, app, steps, next);
    } else if Supervisory(step) {
      PlaceMoves(s, s', config, app, steps, step, next);
    } else {
      PlaceStays(s, s', config, app, steps, step, next);
    }
  }

  /** In every run the list of steps explains the loop, the generations and the channel. */
  lemma {:induction false} FitsAlways(config: Option<Document>, app: string, steps: seq<Step>)
    requires Runs(config, app, steps)
    ensures Fits(Exec(config, app, steps), config, app, steps)
  {
    if steps != [] {
      var p, step := Init(steps), Last(steps);
      var s, s' := Exec(config, app, p), Exec(config, app, steps);
      assert steps == p + [step];
      FitsAlways(config, app, p);
      assert |s.gens| > 0 ==> GenFits(s, config, app, p, |s.gens| - 1);
      LoopFitsNext(s, s', config, app, p, step, steps);
      forall g: nat ensures GenFits(s', config, app, steps, g) {
        assert GenFits(s, config, app, p, g);
        GenFitsNext(s, s', config, app, p, step, steps, g);
      }
    }
  }

  /** The steps possible after a run are those that the list alone allows. */
  lemma NextStepIff(config: Option<Document>, app: string, steps: seq<Step>, step: Step)
    requires Runs(config, app, steps)
    ensures Runs(config, app, steps + [step]) <==> Allowed(config, app, steps, step)
  {
    FitsAlways(config, app, steps);
    assert Init(steps + [step]) == steps;
    var s := Exec(config, app, steps);
    if |s.gens| > 0 {
      assert GenFits(s, config, app, steps, |s.gens| - 1);
    }
    if step.Publish? || step.EndRun? || step.FinishRun? {
      assert GenFits(s, config, app, steps, step.gen);
    }
    EnabledIff(s, config, app, steps, step);
  }

  lemma EnabledIff(s: State, config: Option<Document>, app: string, steps: seq<Step>, step: Step)
    requires LoopFits(s, config, app, steps)
    requires |s.gens| > 0 ==> GenFits(s, config, app, steps, |s.gens| - 1)
    requires step.Publish? || step.EndRun? || step.FinishRun? ==> GenFits(s, config, app, steps, step.gen)
    ensures Enabled(s, step) <==> Allowed(config, app, steps, step)
  {
  }

  /** What is running: the newest generation, its key, and where its run task stands, told by the steps. */
  lemma GenerationsAre(config: Option<Document>, app: string, steps: seq<Step>, g: nat)
    requires Runs(config, app, steps)
    ensures var s := Exec(config, app, steps);
      && |s.gens| == Builds(steps)
      && (g < |s.gens| ==>
            s.gens[g].key == KeyOfGen(config, app, steps, g) && s.gens[g].phase == RunPhaseOf(steps, g))
  {
    FitsAlways(config, app, steps);
    assert GenFits(Exec(config, app, steps), config, app, steps, g);
  }
}
