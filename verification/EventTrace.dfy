/**
 How a state of the event log came about: which ids were handed out and stored, where a boot resumed, and
 what a connection read and followed, told by the steps of the run.
 */
module EventTrace {
  import opened Integers
  import opened Sequences
  import opened EventStore
  import opened EventStream

  // ---- ids handed out ----------------------------------------------------------------------------

  /** Every id handed out in this life has been broadcast or is still held; none is skipped. */
  ghost predicate Accounted(s: State) {
    && s.base <= s.nextId
    && forall i: nat :: i in s.held || i in s.log <==> s.base <= i < s.nextId
  }

  lemma AccountedKept(s: State, step: Step)
    requires s.up && Accounted(s) && Enabled(s, step) && step != Crash
    ensures Accounted(Apply(s, step))
  {
  }

  lemma {:induction false} IdsAccounted(steps: seq<Step>)
    requires Runs(steps) && Exec(steps).up
    ensures Accounted(Exec(steps))
  {
    var s := Exec(Init(steps));
    InvHolds(Init(steps));
    if s.up {
      IdsAccounted(Init(steps));
      AccountedKept(s, Last(steps));
    }
  }

  function Assigns(steps: seq<Step>): nat {
    if steps == [] then 0 else Assigns(Init(steps)) + if Last(steps) == Assign then 1 else 0
  }

  lemma BootAt(s: State, readOk: bool, s': State)
    requires Retained(s) && !s.up && s' == Apply(s, Boot(readOk))
    ensures s'.base == s'.nextId == if readOk && s.persisted != {} then MaxOf(s.persisted) + 1 else 1
  {
    if s.persisted != {} {
      MaxIsStored(s);
    }
  }

  /** A boot resumes right after the highest id ever stored, or at 1 if there is none or it cannot be read. */
  lemma BootResumesAt(steps: seq<Step>, readOk: bool, next: seq<Step>)
    requires Runs(steps) && next == steps + [Boot(readOk)] && Runs(next)
    ensures var s, s' := Exec(steps), Exec(next);
      s'.base == s'.nextId == if readOk && s.persisted != {} then MaxOf(s.persisted) + 1 else 1
  {
    assert Init(next) == steps && Last(next) == Boot(readOk);
    InvHolds(steps);
    BootAt(Exec(steps), readOk, Exec(next));
  }

  lemma CounterMoves(s: State, step: Step, s': State)
    requires Enabled(s, step) && s' == Apply(s, step) && !step.Boot?
    ensures s'.base == s.base && s'.nextId == s.nextId + if step == Assign then 1 else 0
  {
  }

  /** From there on ids are handed out one by one, none left out. */
  lemma {:induction false} IdsAreConsecutive(before: seq<Step>, after: seq<Step>)
    requires Runs(before) && Runs(before + after) && OneLife(after)
    ensures Exec(before + after).nextId == Exec(before).nextId + Assigns(after)
    ensures Exec(before + after).base == Exec(before).base
  {
    if after == [] {
      assert before + after == before;
    } else {
      LastOfLife(before, after);
      IdsAreConsecutive(before, Init(after));
      CounterMoves(Exec(before + Init(after)), Last(after), Exec(before + after));
    }
  }

  function Emitted(steps: seq<Step>): seq<nat> {
    if steps == [] then []
    else if Last(steps).Emit? then Emitted(Init(steps)) + [Last(steps).id]
    else Emitted(Init(steps))
  }

  /** How many broadcasts the persister has read or lost. */
  function Passed(steps: seq<Step>): nat {
    if steps == [] then 0
    else Passed(Init(steps)) + match Last(steps)
      case Persist(_, _) => 1
      case LagPersister(n) => n
      case _ => 0
  }

  lemma LogMoves(s: State, step: Step, s': State)
    requires Enabled(s, step) && s' == Apply(s, step) && !step.Boot? && step != Crash
    ensures s'.log == (if step.Emit? then s.log + [step.id] else s.log)
    ensures s'.cursor == s.cursor + match step
      case Persist(_, _) => 1
      case LagPersister(n) => n
      case _ => 0
  {
  }

  lemma LastOfLife(before: seq<Step>, after: seq<Step>)
    requires after != [] && OneLife(after)
    ensures Init(before + after) == before + Init(after) && Last(before + after) == Last(after)
    ensures OneLife(Init(after)) && !Last(after).Boot? && Last(after) != Crash
  {
    assert after == Init(after) + [Last(after)];
  }

  /** Within a life the broadcasts are what was emitted, in that order. */
  lemma {:induction false} BroadcastsAre(before: seq<Step>, after: seq<Step>)
    requires Runs(before) && Runs(before + after) && OneLife(after)
    ensures Exec(before + after).log == Exec(before).log + Emitted(after)
  {
    if after == [] {
      assert before + after == before;
    } else {
      LastOfLife(before, after);
      BroadcastsAre(before, Init(after));
      LogMoves(Exec(before + Init(after)), Last(after), Exec(before + after));
    }
  }

  /** The persister goes through them one by one, but for those it loses. */
  lemma {:induction false} PersisterPasses(before: seq<Step>, after: seq<Step>)
    requires Runs(before) && Runs(before + after) && OneLife(after)
    ensures Exec(before + after).cursor == Exec(before).cursor + Passed(after)
  {
    if after == [] {
      assert before + after == before;
    } else {
      LastOfLife(before, after);
      PersisterPasses(before, Init(after));
      LogMoves(Exec(before + Init(after)), Last(after), Exec(before + after));
    }
  }

  /** A life begins with no broadcast and nothing held, whatever the one before left. */
  lemma BootStartsAfresh(steps: seq<Step>, readOk: bool, next: seq<Step>)
    requires Runs(steps) && next == steps + [Boot(readOk)] && Runs(next)
    ensures var s := Exec(next); s.log == [] && s.held == {} && s.cursor == 0 && s.client == NoClient
  {
    assert Init(next) == steps && Last(next) == Boot(readOk);
    InvHolds(steps);
  }

  // ---- what is stored ------------------------------------------------------------------------------

  /** The persister stores exactly the broadcast it reads, if the database takes it, and goes on either way. */
  lemma PersistStores(steps: seq<Step>, insertOk: bool, trimOk: bool, next: seq<Step>)
    requires Runs(steps) && next == steps + [Persist(insertOk, trimOk)] && Runs(next)
    ensures var s, s' := Exec(steps), Exec(next);
      && s'.persisted == (if insertOk then s.persisted + {s.log[s.cursor]} else s.persisted)
      && s'.cursor == s.cursor + 1 && s'.log == s.log && s'.client == s.client
  {
    assert Init(next) == steps && Last(next) == Persist(insertOk, trimOk);
    InvHolds(steps);
    assert Exec(steps).table <= Exec(steps).persisted;
  }

  lemma StoresNothing(s: State, step: Step, s': State)
    requires Enabled(s, step) && s' == Apply(s, step) && !step.Persist?
    ensures s'.persisted == s.persisted && s'.table == s.table
  {
  }

  /** Nothing else stores anything. */
  lemma OthersStoreNothing(steps: seq<Step>, next: seq<Step>)
    requires Runs(steps) && Runs(next) && next != [] && Init(next) == steps && !Last(next).Persist?
    ensures Exec(next).persisted == Exec(steps).persisted && Exec(next).table == Exec(steps).table
  {
    StoresNothing(Exec(steps), Last(next), Exec(next));
  }

  // ---- the story of a connection ---------------------------------------------------------------------

  /** Neither the host nor the connection is replaced. */
  predicate SameConnection(steps: seq<Step>) {
    forall step :: step in steps ==> !step.Boot? && step != Crash && step != Subscribe && !step.Backfill?
  }

  function Receives(steps: seq<Step>): nat {
    if steps == [] then 0 else Receives(Init(steps)) + if Last(steps) == Receive then 1 else 0
  }

  function Lost(steps: seq<Step>): nat {
    if steps == [] then 0 else Lost(Init(steps)) + if Last(steps).LagClient? then Last(steps).n else 0
  }

  lemma ConnectionStays(steps: seq<Step>)
    requires SameConnection(steps) && steps != []
    ensures SameConnection(Init(steps))
    ensures !Last(steps).Boot? && Last(steps) != Crash && Last(steps) != Subscribe && !Last(steps).Backfill?
  {
    assert steps == Init(steps) + [Last(steps)];
  }

  /** A subscription starts at the end of the broadcast at that moment, and stays there until the backfill. */
  lemma {:induction false} Subscription(before: seq<Step>, between: seq<Step>)
    requires Runs(before) && Runs(before + [Subscribe]) && Runs(before + [Subscribe] + between)
    requires SameConnection(between)
    ensures Exec(before + [Subscribe] + between).client == Subscribed(|Exec(before).log|)
    ensures Exec(before).log <= Exec(before + [Subscribe] + between).log
  {
    var whole := before + [Subscribe] + between;
    if between == [] {
      assert whole == before + [Subscribe] && Init(whole) == before && Last(whole) == Subscribe;
    } else {
      assert Init(whole) == before + [Subscribe] + Init(between) && Last(whole) == Last(between);
      ConnectionStays(between);
      Subscription(before, Init(between));
    }
  }

  /** The client of a connection, `after` its backfill was read in the state reached by `before`. */
  ghost predicate Reads(c: Client, s: State, start: nat, since: Option<nat>, readOk: bool, after: seq<Step>) {
    && c.Streaming? && c.start == start && c.since == since && c.reached == s.cursor
    && c.table == (if readOk then s.table else {})
    && c.next == start + Receives(after) + Lost(after) && c.missed == Lost(after)
  }

  lemma ReadsNext(s: State, c: State, start: nat, since: Option<nat>, readOk: bool, after: seq<Step>, c': State)
    requires after != [] && ConnectionStep(Last(after)) && Enabled(c, Last(after)) && c' == Apply(c, Last(after))
    requires Reads(c.client, s, start, since, readOk, Init(after))
    ensures Reads(c'.client, s, start, since, readOk, after)
  {
  }

  predicate ConnectionStep(step: Step) {
    !step.Boot? && step != Crash && step != Subscribe && !step.Backfill?
  }

  /**
   The replay is read from the table as it is at the moment of the query; from then on the client has
   followed the broadcast, from its subscription, by as many events as it received or lost.
   */
  lemma {:induction false} Connection(
    before: seq<Step>, start: nat, since: Option<nat>, readOk: bool, after: seq<Step>)
    requires Runs(before) && Exec(before).client == Subscribed(start)
    requires Runs(before + [Backfill(since, readOk)] + after) && SameConnection(after)
    ensures Reads(Exec(before + [Backfill(since, readOk)] + after).client, Exec(before), start, since, readOk, after)
  {
    var whole := before + [Backfill(since, readOk)] + after;
    if after == [] {
      assert Init(whole) == before && Last(whole) == Backfill(since, readOk);
    } else {
      assert Init(whole) == before + [Backfill(since, readOk)] + Init(after) && Last(whole) == Last(after);
      ConnectionStays(after);
      Connection(before, start, since, readOk, Init(after));
      ReadsNext(Exec(before), Exec(Init(whole)), start, since, readOk, after, Exec(whole));
    }
  }
}
