/**
 The console's event log as atomic steps: ids handed out and broadcast by many threads, one
 asynchronous persister, crashes and reboots, and one client that subscribes, reads its backfill
 from the store and then follows the broadcast.
 */
module EventStream {
  import opened Integers
  import opened Sequences
  import opened EventStore

  const BACKFILL_LIMIT: nat := 200

  /**
   A client's connection. `start` is where in the broadcast it subscribed; `table` and `reached` are
   the stored ids it could read, none if the query failed, and the persister's position at that
   moment; `next` is how far it has followed the broadcast; `missed` counts broadcasts it lost by
   falling behind.
   */
  datatype Client =
    | NoClient
    | Subscribed(start: nat)
    | Streaming(start: nat, since: Option<nat>, table: set<nat>, reached: nat, backfill: seq<nat>,
                next: nat, live: seq<nat>, missed: nat)

  /**
   `log` is the order of broadcast since boot and `cursor` the persister's position in it; `held`
   are ids handed out but not broadcast yet. Histories: `persisted`, every id ever stored; `cut`, the
   highest id any trim has reached; `untrimmed`, the ids inserted since the last successful trim;
   `resumed`, whether the counter of this boot starts beyond everything stored.
   */
  datatype State = State(
    up: bool, table: set<nat>, persisted: set<nat>, cut: int, untrimmed: set<nat>,
    resumed: bool, base: nat, nextId: nat, held: set<nat>, log: seq<nat>, cursor: nat, client: Client)

  datatype Step =
    | Boot(readOk: bool) | Crash
    | Assign | Emit(id: nat)
    | Persist(insertOk: bool, trimOk: bool) | LagPersister(n: nat)
    | Subscribe | Backfill(since: Option<nat>, readOk: bool) | Receive | LagClient(n: nat)

  const Initial := State(false, {}, {}, 0 - RETENTION_CAP, {}, true, 1, 1, {}, [], 0, NoClient)

  predicate Enabled(s: State, step: Step) {
    match step
    case Boot(_) => !s.up
    case Crash => s.up
    case Assign => s.up
    case Emit(id) => s.up && id in s.held
    case Persist(_, _) => s.up && s.cursor < |s.log|
    case LagPersister(n) => s.up && s.cursor + n <= |s.log|
    case Subscribe => s.up
    case Backfill(since, _) => s.up && s.client.Subscribed? && (since.Some? ==> since.value < TWO_64)
    case Receive => s.up && s.client.Streaming? && s.client.next < |s.log|
    case LagClient(n) => s.up && s.client.Streaming? && s.client.next + n <= |s.log|
  }

  /** The last id replayed from the store, or zero. */
  function LastReplayed(backfill: seq<nat>): nat {
    if backfill == [] then 0 else Last(backfill)
  }

  ghost function Query(table: set<nat>, since: Option<nat>): seq<nat> {
    if since.Some? then SinceQuery(table, since.value, BACKFILL_LIMIT) else RecentIds(table, BACKFILL_LIMIT)
  }

  /** The client takes the next broadcast and drops it unless it is above everything replayed. */
  function Received(c: Client, log: seq<nat>): Client
    requires c.Streaming? && c.next < |log|
  {
    var id := log[c.next];
    c.(next := c.next + 1, live := if id <= LastReplayed(c.backfill) then c.live else c.live + [id])
  }

  /** The persister reads the next broadcast and stores it; an id that is there already makes the insert fail. */
  ghost function Persisted(s: State, insertOk: bool, trimOk: bool): State
    requires s.cursor < |s.log|
  {
    var id := s.log[s.cursor];
    var all := s.table + {id};
    if !insertOk || id in s.table then s.(cursor := s.cursor + 1)
    else if !trimOk then
      s.(cursor := s.cursor + 1, persisted := s.persisted + {id}, table := all, untrimmed := s.untrimmed + {id})
    else
      s.(cursor := s.cursor + 1, persisted := s.persisted + {id}, table := Kept(all), untrimmed := {},
         cut := MaxOf(all) - RETENTION_CAP)
  }

  /** The client has its backfill, empty if the query failed, and follows the broadcast from its subscription on. */
  ghost function Replaying(s: State, since: Option<nat>, readOk: bool): Client
    requires s.client.Subscribed?
  {
    var table, start := if readOk then s.table else {}, s.client.start;
    Streaming(start, since, table, s.cursor, if readOk then Query(table, since) else [], start, [], 0)
  }

  ghost function Apply(s: State, step: Step): State
    requires Enabled(s, step)
  {
    match step
    case Boot(readOk) =>
      var stored := MaxId(s.table, readOk);
      var next := if stored.Some? then stored.value + 1 else 1;
      s.(up := true, resumed := readOk || s.table == {}, base := next, nextId := next)
    case Crash => s.(up := false, held := {}, log := [], cursor := 0, client := NoClient)
    case Assign => s.(nextId := s.nextId + 1, held := s.held + {s.nextId})
    case Emit(id) => s.(held := s.held - {id}, log := s.log + [id])
    case Persist(insertOk, trimOk) => Persisted(s, insertOk, trimOk)
    case LagPersister(n) => s.(cursor := s.cursor + n)
    case Subscribe => s.(client := Subscribed(|s.log|))
    case Backfill(since, readOk) => s.(client := Replaying(s, since, readOk))
    case Receive => s.(client := Received(s.client, s.log))
    case LagClient(n) => s.(client := s.client.(next := s.client.next + n, missed := s.client.missed + n))
  }

  ghost predicate Runs(steps: seq<Step>)
    decreases |steps|, 0
  {
    steps == [] || (Runs(Init(steps)) && Enabled(Exec(Init(steps)), Last(steps)))
  }

  ghost function Exec(steps: seq<Step>): State
    requires Runs(steps)
    decreases |steps|, 1
  {
    if steps == [] then Initial else Apply(Exec(Init(steps)), Last(steps))
  }

  // ---- ids -----------------------------------------------------------------------------

  /**
   Ids of this boot are broadcast at most once each; where the counter resumed beyond everything stored
   they are new, and the persister has stored only what it has read.
   */
  ghost predicate IdsFresh(s: State) {
    && 1 <= s.base <= s.nextId && s.cursor <= |s.log| && NoDup(s.log)
    && (forall i :: 0 <= i < |s.log| ==> s.base <= s.log[i] < s.nextId)
    && (forall i :: i in s.held ==> s.base <= i < s.nextId && i !in s.log)
    && (s.resumed ==> forall i :: i in s.persisted ==> i < s.base || i in s.log[..s.cursor])
  }

  lemma IdsFreshKept(s: State, step: Step)
    requires s.up && IdsFresh(s) && Enabled(s, step) && step != Crash
    ensures IdsFresh(Apply(s, step))
  {
    match step
    case Persist(insertOk, trimOk) =>
      assert s.log[..s.cursor + 1] == s.log[..s.cursor] + [s.log[s.cursor]];
      FreshAfterReading(s, Apply(s, step));
    case LagPersister(n) =>
      assert s.log[..s.cursor + n] == s.log[..s.cursor] + s.log[s.cursor..s.cursor + n];
      FreshAfterReading(s, Apply(s, step));
    case Emit(id) => assert Apply(s, step).log[..s.cursor] == s.log[..s.cursor];
    case _ =>
  }

  /** Reading on, and storing what was read, keeps ids fresh. */
  lemma FreshAfterReading(s: State, s': State)
    requires IdsFresh(s) && s.cursor <= s'.cursor <= |s.log| && s'.log == s.log && s'.held == s.held
    requires s'.base == s.base && s'.nextId == s.nextId && s'.resumed == s.resumed
    requires forall i :: i in s.log[..s.cursor] ==> i in s.log[..s'.cursor]
    requires forall i :: i in s'.persisted ==> i in s.persisted || i in s.log[..s'.cursor]
    ensures IdsFresh(s')
  {
  }

  // ---- retention -------------------------------------------------------------------------

  /**
   The table holds exactly the ever-persisted ids above the highest trim, among them the maximum,
   and those whose trim is still outstanding.
   */
  ghost predicate RetainedBy(persisted: set<nat>, table: set<nat>, cut: int, untrimmed: set<nat>) {
    && table == (set i | i in persisted && (i > cut || i in untrimmed))
    && untrimmed <= persisted && 0 !in persisted
    && |table| <= RETENTION_CAP + |untrimmed|
    && (persisted == {} ==> cut == 0 - RETENTION_CAP)
    && (persisted != {} ==>
          && cut <= MaxOf(persisted) - RETENTION_CAP
          && (untrimmed == {} ==> cut == MaxOf(persisted) - RETENTION_CAP))
  }

  ghost predicate Retained(s: State) {
    RetainedBy(s.persisted, s.table, s.cut, s.untrimmed)
  }

  lemma MaxStays(persisted: set<nat>, table: set<nat>, cut: int, untrimmed: set<nat>, id: nat)
    requires RetainedBy(persisted, table, cut, untrimmed)
    ensures MaxOf(table + {id}) == MaxOf(persisted + {id})
  {
    if persisted != {} {
      assert MaxOf(persisted) in table;
    }
  }

  lemma InsertRetains(
    persisted: set<nat>, table: set<nat>, cut: int, untrimmed: set<nat>, id: nat,
    persisted': set<nat>, table': set<nat>, untrimmed': set<nat>)
    requires RetainedBy(persisted, table, cut, untrimmed) && id !in table && id > 0
    requires persisted' == persisted + {id} && table' == table + {id} && untrimmed' == untrimmed + {id}
    ensures RetainedBy(persisted', table', cut, untrimmed')
  {
    MaxStays(persisted, table, cut, untrimmed, id);
    assert id !in untrimmed;
  }

  lemma TrimRetains(
    persisted: set<nat>, table: set<nat>, cut: int, untrimmed: set<nat>, id: nat,
    persisted': set<nat>, table': set<nat>, cut': int)
    requires RetainedBy(persisted, table, cut, untrimmed) && id !in table && id > 0
    requires persisted' == persisted + {id} && table' == Kept(table + {id})
    requires cut' == MaxOf(table + {id}) - RETENTION_CAP
    ensures RetainedBy(persisted', table', cut', {})
  {
    MaxStays(persisted, table, cut, untrimmed, id);
    KeptAtMostCap(table + {id});
    if persisted != {} {
      assert MaxOf(persisted) in persisted';
    }
  }

  lemma MaxIsStored(s: State)
    requires Retained(s) && s.persisted != {}
    ensures s.table != {} && MaxOf(s.table) == MaxOf(s.persisted)
  {
    assert MaxOf(s.persisted) in s.table;
  }

  lemma RetainedKept(s: State, step: Step)
    requires Retained(s) && Enabled(s, step) && (s.up ==> IdsFresh(s))
    ensures Retained(Apply(s, step))
    ensures s.persisted <= Apply(s, step).persisted
  {
    if step.Persist? && step.insertOk && s.log[s.cursor] !in s.table {
      PersistRetains(s, step.trimOk, Apply(s, step));
    }
  }

  lemma NextIsNew(s: State)
    requires Retained(s) && IdsFresh(s) && s.cursor < |s.log| && s.log[s.cursor] !in s.table
    ensures s.log[s.cursor] > 0 && (s.resumed ==> s.log[s.cursor] !in s.persisted)
  {
  }

  /** One insert, trimmed or not, keeps the retention window, also for ids out of order and ids reused. */
  lemma PersistRetains(s: State, trimOk: bool, s': State)
    requires Retained(s) && s.up && IdsFresh(s) && s.cursor < |s.log| && s.log[s.cursor] !in s.table
    requires s' == Persisted(s, true, trimOk)
    ensures Retained(s')
  {
    NextIsNew(s);
    if trimOk {
      TrimRetains(s.persisted, s.table, s.cut, s.untrimmed, s.log[s.cursor], s'.persisted, s'.table, s'.cut);
    } else {
      InsertRetains(s.persisted, s.table, s.cut, s.untrimmed, s.log[s.cursor], s'.persisted, s'.table, s'.untrimmed);
    }
  }

  lemma BootIsFresh(s: State, readOk: bool)
    requires !s.up && Retained(s) && s.held == {} && s.log == [] && s.cursor == 0
    ensures IdsFresh(Apply(s, Boot(readOk)))
  {
    if s.persisted != {} {
      MaxIsStored(s);
    }
  }

  ghost predicate Inv(s: State) {
    && Retained(s)
    && (if s.up then IdsFresh(s)
        else s.held == {} && s.log == [] && s.cursor == 0 && s.client == NoClient)
  }

  lemma InvKept(s: State, step: Step)
    requires Inv(s) && Enabled(s, step)
    ensures Inv(Apply(s, step))
  {
    RetainedKept(s, step);
    if step.Boot? {
      BootIsFresh(s, step.readOk);
    } else if step != Crash {
      IdsFreshKept(s, step);
    }
  }

  lemma {:induction false} InvHolds(steps: seq<Step>)
    requires Runs(steps)
    ensures Inv(Exec(steps))
  {
    if steps != [] {
      InvHolds(Init(steps));
      InvKept(Exec(Init(steps)), Last(steps));
    }
  }

  /** The ids stored since the last time that storing one and trimming after it both went well. */
  ghost function Outstanding(steps: seq<Step>): set<nat>
    requires Runs(steps)
  {
    if steps == [] then {}
    else
      var s, before := Exec(Init(steps)), Outstanding(Init(steps));
      match Last(steps)
      case Persist(insertOk, trimOk) =>
        if !insertOk || s.log[s.cursor] in s.table then before
        else if trimOk then {} else before + {s.log[s.cursor]}
      case _ => before
  }

  lemma {:induction false} UntrimmedIsOutstanding(steps: seq<Step>)
    requires Runs(steps)
    ensures Exec(steps).untrimmed == Outstanding(steps)
  {
    if steps != [] {
      UntrimmedIsOutstanding(Init(steps));
    }
  }

  /**
   Over every sequence of boots, emissions in any order, persists, lags and crashes, and for every
   outcome of every query: the table is exactly the ever-persisted ids above max - 10000 as soon as no
   trim is outstanding, hence at most 10000 rows, and one more for each outstanding trim; the stored
   maximum is the all-time maximum; and where the counter resumed beyond everything stored, an id about
   to be stored was never stored before, not even in an earlier life of the host.
   */
  lemma RetentionWindow(steps: seq<Step>)
    requires Runs(steps)
    ensures var s := Exec(steps);
      && (s.up && s.resumed && s.cursor < |s.log| ==> s.log[s.cursor] !in s.persisted && s.log[s.cursor] !in s.table)
      && |s.table| <= 10000 + |Outstanding(steps)|
      && (s.persisted != {} ==> s.table != {} && MaxOf(s.table) == MaxOf(s.persisted))
      && (s.persisted != {} && Outstanding(steps) == {} ==>
            s.table == set i | i in s.persisted && i > MaxOf(s.persisted) - 10000)
  {
    InvHolds(steps);
    UntrimmedIsOutstanding(steps);
    var s := Exec(steps);
    if s.persisted != {} {
      MaxIsStored(s);
    }
  }

  /** The stored maximum never decreases. */
  lemma {:induction false} MaxNeverDecreases(before: seq<Step>, after: seq<Step>)
    requires Runs(before) && Runs(before + after) && Exec(before).persisted != {}
    ensures Exec(before).persisted <= Exec(before + after).persisted
    ensures Exec(before).table != {} && Exec(before + after).table != {}
    ensures MaxOf(Exec(before).table) <= MaxOf(Exec(before + after).table)
  {
    RetentionWindow(before);
    RetentionWindow(before + after);
    if after == [] {
      assert before + after == before;
    } else {
      assert Init(before + after) == before + Init(after) && Last(before + after) == Last(after);
      MaxNeverDecreases(before, Init(after));
      InvHolds(before + Init(after));
      RetainedKept(Exec(before + Init(after)), Last(after));
      assert MaxOf(Exec(before).persisted) in Exec(before + after).persisted;
    }
  }

  // ---- when ids are reused ----------------------------------------------------------------------

  /** The steps of one life of the host: no crash, no further boot. */
  predicate OneLife(steps: seq<Step>) {
    forall step :: step in steps ==> !step.Boot? && step != Crash
  }

  /** The persister is about to store an id that was stored before. */
  ghost predicate Reuses(s: State) {
    s.up && s.cursor < |s.log| && s.log[s.cursor] in s.persisted
  }

  lemma {:induction false} LifeKeepsResumed(before: seq<Step>, after: seq<Step>)
    requires Runs(before) && Runs(before + after) && OneLife(after)
    ensures Exec(before + after).resumed == Exec(before).resumed
  {
    if after == [] {
      assert before + after == before;
    } else {
      assert Init(before + after) == before + Init(after) && Last(before + after) == Last(after);
      assert after == Init(after) + [Last(after)];
      LifeKeepsResumed(before, Init(after));
      StepKeepsResumed(Exec(before + Init(after)), Last(after));
    }
  }

  lemma StepKeepsResumed(s: State, step: Step)
    requires Enabled(s, step) && !step.Boot?
    ensures Apply(s, step).resumed == s.resumed
  {
  }

  function IdsFrom(first: nat, n: nat): (ids: set<nat>)
    ensures forall i :: i in ids <==> first <= i < first + n
  {
    if n == 0 then {} else IdsFrom(first, n - 1) + {first + n - 1}
  }

  /** `n` ids are handed out and held. */
  ghost function Assigned(s: State, n: nat): State {
    s.(nextId := s.nextId + n, held := s.held + IdsFrom(s.nextId, n))
  }

  lemma AssignOneMore(s: State, n: nat)
    requires s.up
    ensures Apply(Assigned(s, n), Assign) == Assigned(s, n + 1)
  {
    assert s.held + IdsFrom(s.nextId, n + 1) == s.held + IdsFrom(s.nextId, n) + {s.nextId + n};
  }

  /** Appends `step` to a run that leads to `s`. */
  lemma ExtendLife(before: seq<Step>, p: seq<Step>, s: State, step: Step) returns (after: seq<Step>)
    requires OneLife(p) && !step.Boot? && step != Crash
    requires Runs(before + p) && Exec(before + p) == s && Enabled(s, step)
    ensures after == p + [step] && OneLife(after) && Runs(before + after) && Exec(before + after) == Apply(s, step)
  {
    after := p + [step];
    assert Init(before + after) == before + p && Last(before + after) == step;
  }

  lemma NothingAssigned(s: State)
    ensures Assigned(s, 0) == s
  {
    assert s.held + IdsFrom(s.nextId, 0) == s.held;
  }

  lemma {:induction false} AssignMany(before: seq<Step>, s: State, n: nat) returns (after: seq<Step>)
    requires Runs(before) && Exec(before) == s && s.up
    ensures OneLife(after) && Runs(before + after) && Exec(before + after) == Assigned(s, n)
  {
    if n == 0 {
      after := [];
      assert before + after == before;
      NothingAssigned(s);
    } else {
      var p := AssignMany(before, s, n - 1);
      AssignOneMore(s, n - 1);
      after := ExtendLife(before, p, Assigned(s, n - 1), Assign);
    }
  }

  /** Some course of the life that began with the last of these steps comes to store an id again. */
  ghost predicate CanReuse(boot: seq<Step>)
    requires Runs(boot)
  {
    exists after :: OneLife(after) && Runs(boot + after) && Reuses(Exec(boot + after))
  }

  /**
   After a boot some course of that life comes to store an id again that was stored before exactly if the
   boot's query for the highest id failed on a table that was not empty.
   */
  lemma ReuseIff(steps: seq<Step>, readOk: bool)
    requires Runs(steps) && !Exec(steps).up
    ensures Runs(steps + [Boot(readOk)])
    ensures CanReuse(steps + [Boot(readOk)]) <==> (!readOk && Exec(steps).table != {})
  {
    var boot, s := steps + [Boot(readOk)], Exec(steps);
    assert Init(boot) == steps && Last(boot) == Boot(readOk);
    InvHolds(steps);
    BootResumes(s, readOk);
    if CanReuse(boot) {
      ReuseMeansNotResumed(boot);
    }
    if !readOk && s.table != {} {
      ReusingLife(boot, MaxOf(s.table));
    }
  }

  /** Where a boot resumes the counter, and where it starts over with every stored id ahead of it. */
  lemma BootResumes(s: State, readOk: bool)
    requires !s.up && Inv(s)
    ensures var s' := Apply(s, Boot(readOk));
      && s'.up && s'.resumed == (readOk || s.table == {}) && s'.held == {} && s'.log == [] && s'.cursor == 0
      && (!s'.resumed ==> s'.nextId == 1 <= MaxOf(s.table) && MaxOf(s.table) in s'.persisted)
  {
  }

  lemma ReuseMeansNotResumed(boot: seq<Step>)
    requires Runs(boot) && CanReuse(boot)
    ensures !Exec(boot).resumed
  {
    var after :| OneLife(after) && Runs(boot + after) && Reuses(Exec(boot + after));
    LifeKeepsResumed(boot, after);
    RetentionWindow(boot + after);
  }

  lemma ReusingLife(boot: seq<Step>, id: nat)
    requires Runs(boot) && Exec(boot).up && id in Exec(boot).persisted
    requires Exec(boot).nextId == 1 <= id && Exec(boot).held == {} && Exec(boot).log == [] && Exec(boot).cursor == 0
    ensures CanReuse(boot)
  {
    var s := Exec(boot);
    var p := AssignMany(boot, s, id);
    var after := ExtendLife(boot, p, Assigned(s, id), Emit(id));
    assert Reuses(Exec(boot + after));
  }

  /** The machine's table and counter move as the store's methods do. */
  lemma StepMatchesStore(s: State, step: Step)
    requires Enabled(s, step)
    ensures step.Persist? ==>
      Apply(s, step).table == Inserted(s.table, s.log[s.cursor], step.insertOk, step.trimOk)
    ensures !step.Persist? ==> Apply(s, step).table == s.table
  {
  }

  // ---- the client ----------------------------------------------------------------------------

  /** The ids above `floor`, in order. */
  function Above(ids: seq<nat>, floor: nat): seq<nat> {
    if ids == [] then []
    else if Last(ids) <= floor then Above(Init(ids), floor)
    else Above(Init(ids), floor) + [Last(ids)]
  }

  lemma {:induction false} AboveMembers(ids: seq<nat>, floor: nat)
    ensures forall i :: i in Above(ids, floor) <==> i in ids && i > floor
  {
    if ids != [] {
      AboveMembers(Init(ids), floor);
      assert ids == Init(ids) + [Last(ids)];
    }
  }

  lemma {:induction false} AboveAscends(ids: seq<nat>, floor: nat)
    requires Ascending(ids)
    ensures Ascending(Above(ids, floor))
  {
    if ids != [] {
      var rest := Above(Init(ids), floor);
      AboveAscends(Init(ids), floor);
      AboveMembers(Init(ids), floor);
      forall k | 0 <= k < |rest| ensures rest[k] < Last(ids) {
        assert rest[k] in Init(ids);
      }
    }
  }

  /** The live part stems from the broadcasts followed, and is all of them above `last` when none was missed. */
  ghost predicate Followed(followed: seq<nat>, last: nat, live: seq<nat>, missed: nat) {
    && NoDup(live)
    && (forall i :: i in live ==> i > last && i in followed)
    && (missed == 0 ==> live == Above(followed, last))
  }

  /** The replayed prefix answers the query on the table as it was. */
  ghost predicate Answered(log: seq<nat>, c: Client)
    requires c.Streaming?
  {
    c.reached <= |log| && c.backfill == Query(c.table, c.since) && 0 !in c.table
  }

  /** The table as it was held older rows, and rows the persister had read. */
  ghost predicate Replayed(base: nat, log: seq<nat>, c: Client)
    requires c.Streaming?
  {
    c.reached <= |log| && 0 !in c.table && forall i :: i in c.table ==> i < base || i in log[..c.reached]
  }

  ghost predicate Fits(resumed: bool, base: nat, log: seq<nat>, c: Client) {
    match c
    case NoClient => true
    case Subscribed(start) => start <= |log|
    case Streaming(start, _, _, _, backfill, next, live, missed) =>
      && start <= next <= |log|
      && Answered(log, c)
      && (resumed ==> Replayed(base, log, c))
      && Followed(log[start..next], LastReplayed(backfill), live, missed)
  }

  lemma FollowedGrows(followed: seq<nat>, id: nat, last: nat, live: seq<nat>, missed: nat)
    requires Followed(followed, last, live, missed) && id !in followed
    ensures Followed(followed + [id], last, if id <= last then live else live + [id], missed)
  {
    assert Init(followed + [id]) == followed;
  }

  lemma NextBroadcast(log: seq<nat>, start: nat, next: nat)
    requires NoDup(log) && start <= next < |log|
    ensures log[start..next + 1] == log[start..next] + [log[next]] && log[next] !in log[start..next]
  {
    forall k | 0 <= k < next - start ensures log[start..next][k] != log[next] {
      assert log[start..next][k] == log[start + k];
    }
  }

  /** A client that only moves on in the broadcast still fits. */
  lemma FitsMoved(resumed: bool, base: nat, log: seq<nat>, c: Client, c': Client, followed: seq<nat>)
    requires c.Streaming? && c'.Streaming? && Fits(resumed, base, log, c) && c.start <= c'.next <= |log|
    requires c' == c.(next := c'.next, live := c'.live, missed := c'.missed)
    requires followed == log[c.start..c'.next] && Followed(followed, LastReplayed(c.backfill), c'.live, c'.missed)
    ensures Fits(resumed, base, log, c')
  {
  }

  lemma FitsReceive(resumed: bool, base: nat, log: seq<nat>, c: Client, c': Client, followed: seq<nat>)
    requires c.Streaming? && c.start <= c.next < |log| && c' == Received(c, log) && Fits(resumed, base, log, c)
    requires followed == log[c.start..c.next] && log[c.next] !in followed
    requires log[c.start..c.next + 1] == followed + [log[c.next]]
    ensures Fits(resumed, base, log, c')
  {
    FollowedGrows(followed, log[c.next], LastReplayed(c.backfill), c.live, c.missed);
    FitsMoved(resumed, base, log, c, c', followed + [log[c.next]]);
  }

  lemma FitsReceived(resumed: bool, base: nat, log: seq<nat>, c: Client, c': Client)
    requires NoDup(log) && c.Streaming? && c.next < |log| && c' == Received(c, log) && Fits(resumed, base, log, c)
    ensures Fits(resumed, base, log, c')
  {
    NextBroadcast(log, c.start, c.next);
    FitsReceive(resumed, base, log, c, c', log[c.start..c.next]);
  }

  lemma FollowedLags(followed: seq<nat>, skipped: seq<nat>, last: nat, live: seq<nat>, missed: nat)
    requires Followed(followed, last, live, missed)
    ensures Followed(followed + skipped, last, live, missed + |skipped|)
  {
    assert skipped == [] ==> followed + skipped == followed;
  }

  lemma FitsLag(
    resumed: bool, base: nat, log: seq<nat>, c: Client, c': Client, followed: seq<nat>, skipped: seq<nat>)
    requires c.Streaming? && c.start <= c.next && c.next + |skipped| <= |log| && Fits(resumed, base, log, c)
    requires c' == c.(next := c.next + |skipped|, missed := c.missed + |skipped|)
    requires followed == log[c.start..c.next] && followed + skipped == log[c.start..c.next + |skipped|]
    ensures Fits(resumed, base, log, c')
  {
    FollowedLags(followed, skipped, LastReplayed(c.backfill), c.live, c.missed);
    FitsMoved(resumed, base, log, c, c', followed + skipped);
  }

  lemma SliceGrows(log: seq<nat>, start: nat, next: nat, n: nat) returns (followed: seq<nat>, skipped: seq<nat>)
    requires start <= next && next + n <= |log|
    ensures followed == log[start..next] && |skipped| == n && followed + skipped == log[start..next + n]
  {
    followed, skipped := log[start..next], log[next..next + n];
  }

  lemma FitsLagged(resumed: bool, base: nat, log: seq<nat>, c: Client, n: nat, c': Client)
    requires c.Streaming? && c.next + n <= |log| && c' == c.(next := c.next + n, missed := c.missed + n)
    requires Fits(resumed, base, log, c)
    ensures Fits(resumed, base, log, c')
  {
    var followed, skipped := SliceGrows(log, c.start, c.next, n);
    FitsLag(resumed, base, log, c, c', followed, skipped);
  }

  lemma FitsEmit(resumed: bool, base: nat, log: seq<nat>, c: Client, id: nat, log': seq<nat>)
    requires Fits(resumed, base, log, c) && log' == log + [id]
    ensures Fits(resumed, base, log', c)
  {
    if c.Streaming? {
      assert log'[c.start..c.next] == log[c.start..c.next];
      assert log'[..c.reached] == log[..c.reached];
    }
  }

  lemma EmptyQuery(since: Option<nat>)
    ensures Query({}, since) == []
  {
    assert since.Some? ==> After({}, since.value) == {};
    assert Sorted({}) == [];
  }

  lemma FitsBackfill(s: State, since: Option<nat>, readOk: bool, c': Client)
    requires Inv(s) && Enabled(s, Backfill(since, readOk)) && c' == Apply(s, Backfill(since, readOk)).client
    requires Fits(s.resumed, s.base, s.log, s.client)
    ensures Fits(s.resumed, s.base, s.log, c')
  {
    assert s.log[s.client.start..s.client.start] == [];
    assert s.table <= s.persisted;
    EmptyQuery(since);
  }

  /** Any other step leaves the connection and its broadcasts alone, ends it, or starts a new one. */
  ghost predicate Spared(s: State, s': State) {
    || s'.client == NoClient
    || s'.client == Subscribed(|s'.log|)
    || (s'.client == s.client && s'.log == s.log && s'.base == s.base && s'.resumed == s.resumed)
  }

  lemma OtherSteps(s: State, step: Step, s': State)
    requires Inv(s) && Enabled(s, step) && s' == Apply(s, step)
    requires !step.Receive? && !step.LagClient? && !step.Emit? && !step.Backfill?
    ensures Spared(s, s')
  {
  }

  /** What the four steps that concern the connection change. */
  lemma ClientSteps(s: State, step: Step, s': State)
    requires Enabled(s, step) && s' == Apply(s, step)
    requires step.Receive? || step.LagClient? || step.Emit? || step.Backfill?
    ensures s'.base == s.base && s'.resumed == s.resumed && s'.log == (if step.Emit? then s.log + [step.id] else s.log)
    ensures step.Emit? ==> s'.client == s.client
    ensures step.Receive? ==> s'.client == Received(s.client, s.log)
    ensures step.LagClient? ==>
      s'.client == s.client.(next := s.client.next + step.n, missed := s.client.missed + step.n)
  {
  }

  lemma FitsStep(s: State, step: Step, s': State)
    requires Inv(s) && Fits(s.resumed, s.base, s.log, s.client) && Enabled(s, step) && s' == Apply(s, step)
    ensures Fits(s'.resumed, s'.base, s'.log, s'.client)
  {
    if step.Receive? || step.LagClient? || step.Emit? || step.Backfill? {
      ClientSteps(s, step, s');
      if step.Receive? {
        FitsReceived(s'.resumed, s'.base, s'.log, s.client, s'.client);
      } else if step.LagClient? {
        FitsLagged(s'.resumed, s'.base, s'.log, s.client, step.n, s'.client);
      } else if step.Emit? {
        FitsEmit(s'.resumed, s'.base, s.log, s'.client, step.id, s'.log);
      } else {
        FitsBackfill(s, step.since, step.readOk, s'.client);
      }
    } else {
      OtherSteps(s, step, s');
    }
  }

  lemma {:induction false} ClientFitsAlways(steps: seq<Step>)
    requires Runs(steps)
    ensures var s := Exec(steps); Fits(s.resumed, s.base, s.log, s.client)
  {
    if steps != [] {
      InvHolds(Init(steps));
      ClientFitsAlways(Init(steps));
      FitsStep(Exec(Init(steps)), Last(steps), Exec(steps));
    }
  }

  /** The last replayed id is the largest. */
  lemma ReplayedBound(backfill: seq<nat>, i: nat)
    requires Ascending(backfill) && i in backfill
    ensures i <= LastReplayed(backfill)
  {
  }

  /**
   Whatever the interleaving, and however far anyone lags: the replayed ids ascend, every live id
   exceeds all of them, and no id reaches a client twice on one connection.
   */
  lemma NoEventTwice(steps: seq<Step>)
    requires Runs(steps) && Exec(steps).client.Streaming?
    ensures var c := Exec(steps).client; Ascending(c.backfill) && |c.backfill| <= BACKFILL_LIMIT
    ensures var c := Exec(steps).client; forall i, j :: i in c.backfill && j in c.live ==> i < j
    ensures var c := Exec(steps).client; NoDup(c.backfill + c.live)
  {
    ClientFitsAlways(steps);
    var c := Exec(steps).client;
    forall i, j | i in c.backfill && j in c.live ensures i < j {
      ReplayedBound(c.backfill, i);
    }
    SplicedNoDup(c.backfill, c.live);
  }

  lemma SplicedNoDup(a: seq<nat>, b: seq<nat>)
    requires Ascending(a) && NoDup(b) && forall i, j :: i in a && j in b ==> i < j
    ensures NoDup(a + b)
  {
    forall i, j | 0 <= i < j < |a + b| ensures (a + b)[i] != (a + b)[j] {
      if i < |a| <= j {
        assert (a + b)[i] in a && (a + b)[j] in b;
      }
    }
  }

  // ---- completeness ------------------------------------------------------------------------

  /** Everything broadcast before the subscription, and all the persister had reached, is in the table. */
  ghost predicate KeptUp(table: set<nat>, log: seq<nat>, start: nat, reached: nat, since: nat) {
    start <= reached <= |log| && forall i :: i in log[..reached] && i > since ==> i in table
  }

  /** Stored events after `since` that the client can get from the table only. */
  ghost function OnlyStored(table: set<nat>, live: seq<nat>, since: nat): set<nat> {
    set i | i in table && i > since && i !in live
  }

  /** All events after `since`, stored or broadcast. */
  ghost function Wanted(table: set<nat>, log: seq<nat>, since: nat): set<nat> {
    After(table, since) + After(Elements(log), since)
  }

  /** Stored-only events precede every event broadcast after the subscription. */
  lemma StoredBeforeLive(base: nat, log: seq<nat>, c: Client, since: nat, i: nat, j: nat)
    requires Ascending(log) && forall k :: k in log ==> base <= k
    requires c.Streaming? && c.start <= |log| && Replayed(base, log, c)
    requires i in OnlyStored(c.table, log[c.start..], since) && j in log[c.start..]
    ensures i < j
  {
    var q :| 0 <= q < |log| - c.start && log[c.start..][q] == j;
    assert log[c.start + q] == j && j in log;
    if i >= base {
      var p :| 0 <= p < c.reached && log[..c.reached][p] == i;
      assert log[p] == i;
      TailHolds(log, c.start, p);
    }
  }

  lemma TailHolds(log: seq<nat>, start: nat, p: nat)
    requires start <= |log| && p < |log|
    ensures p >= start ==> log[p] in log[start..]
  {
    if p >= start {
      assert log[start..][p - start] == log[p];
    }
  }

  /** A live event not above the last replayed one was itself replayed. */
  lemma CutIsReplayed(base: nat, log: seq<nat>, c: Client, since: nat, i: nat)
    requires Ascending(log) && forall k :: k in log ==> base <= k
    requires c.Streaming? && Replayed(base, log, c)
    requires c.backfill == SinceIds(c.table, since, BACKFILL_LIMIT)
    requires KeptUp(c.table, log, c.start, c.reached, since)
    requires i in log && since < i <= LastReplayed(c.backfill)
    ensures i in c.backfill
  {
    var last := LastReplayed(c.backfill);
    assert last in c.table;
    assert base <= i;
    var m :| 0 <= m < c.reached && log[m] == last;
    var k :| 0 <= k < |log| && log[k] == i;
    assert k <= m;
    assert log[..c.reached][k] == i;
    assert i in c.table && last in c.backfill;
    if i !in c.backfill {
      SinceIsPrefix(c.table, since, BACKFILL_LIMIT, i);
    }
  }

  lemma StoredIsReplayed(base: nat, log: seq<nat>, c: Client, since: nat, i: nat)
    requires Ascending(log) && forall k :: k in log ==> base <= k
    requires c.Streaming? && c.start <= |log| && Replayed(base, log, c)
    requires c.backfill == SinceIds(c.table, since, BACKFILL_LIMIT)
    requires i in OnlyStored(c.table, log[c.start..], since)
    requires |OnlyStored(c.table, log[c.start..], since)| <= BACKFILL_LIMIT
    ensures i in c.backfill
  {
    if i !in c.backfill {
      SinceIsPrefix(c.table, since, BACKFILL_LIMIT, i);
      AscendingCount(c.backfill);
      var replayed := Elements(c.backfill);
      forall r | r in replayed ensures r in OnlyStored(c.table, log[c.start..], since) {
        if r in log[c.start..] {
          StoredBeforeLive(base, log, c, since, i, r);
        }
      }
      assert i !in replayed;
      SubsetCount(replayed + {i}, OnlyStored(c.table, log[c.start..], since));
    }
  }

  /**
   The client's stream is exactly all events after `since`, each once and in order, if and only if
   at most 200 of them can be had from the store alone, and `since` does not lie beyond everything
   stored while later broadcasts are still below it.
   */
  lemma CompleteIff(base: nat, log: seq<nat>, c: Client, since: nat)
    requires Ascending(log) && base >= 1 && forall i :: i in log ==> base <= i
    requires c.Streaming? && c.start <= |log| && c.next == |log|
    requires c.backfill == SinceIds(c.table, since, BACKFILL_LIMIT)
    requires Replayed(base, log, c) && KeptUp(c.table, log, c.start, c.reached, since)
    requires Followed(log[c.start..], LastReplayed(c.backfill), c.live, 0)
    ensures c.backfill + c.live == Sorted(Wanted(c.table, log, since))
      <==> |OnlyStored(c.table, log[c.start..], since)| <= BACKFILL_LIMIT
           && (c.backfill == [] ==> forall i :: i in log[c.start..] ==> i > since)
  {
    if |OnlyStored(c.table, log[c.start..], since)| <= BACKFILL_LIMIT
      && (c.backfill == [] ==> forall i :: i in log[c.start..] ==> i > since) {
      NothingMissing(base, log, c, since);
    }
    if c.backfill + c.live == Sorted(Wanted(c.table, log, since)) {
      NothingCapped(log, c, since);
    }
  }

  lemma NothingCapped(log: seq<nat>, c: Client, since: nat)
    requires c.Streaming? && c.start <= |log|
    requires c.backfill == SinceIds(c.table, since, BACKFILL_LIMIT) && forall i :: i in log ==> i >= 1
    requires Followed(log[c.start..], LastReplayed(c.backfill), c.live, 0)
    requires c.backfill + c.live == Sorted(Wanted(c.table, log, since))
    ensures |OnlyStored(c.table, log[c.start..], since)| <= BACKFILL_LIMIT
    ensures c.backfill == [] ==> forall i :: i in log[c.start..] ==> i > since
  {
    AboveMembers(log[c.start..], LastReplayed(c.backfill));
    forall i | i in OnlyStored(c.table, log[c.start..], since) ensures i in Elements(c.backfill) {
      assert i in Wanted(c.table, log, since);
      assert i in c.backfill + c.live;
    }
    SubsetCount(OnlyStored(c.table, log[c.start..], since), Elements(c.backfill));
    AscendingCount(c.backfill);
    if c.backfill == [] {
      forall i | i in log[c.start..] ensures i > since {
        assert i in log && i in c.live;
        assert i in c.backfill + c.live;
      }
    }
  }

  lemma WantedIsReceived(base: nat, log: seq<nat>, c: Client, since: nat, i: nat)
    requires Ascending(log) && forall k :: k in log ==> base <= k
    requires c.Streaming? && c.start <= |log| && c.backfill == SinceIds(c.table, since, BACKFILL_LIMIT)
    requires Replayed(base, log, c) && KeptUp(c.table, log, c.start, c.reached, since)
    requires |OnlyStored(c.table, log[c.start..], since)| <= BACKFILL_LIMIT && i in Wanted(c.table, log, since)
    ensures i in c.backfill || (i in log[c.start..] && i > LastReplayed(c.backfill))
  {
    if i in log[c.start..] {
      if i <= LastReplayed(c.backfill) {
        CutIsReplayed(base, log, c, since, i);
      }
    } else {
      if i in log {
        var p :| 0 <= p < |log| && log[p] == i;
        TailHolds(log, c.start, p);
        assert log[..c.reached][p] == i;
      }
      StoredIsReplayed(base, log, c, since, i);
    }
  }

  lemma NothingMissing(base: nat, log: seq<nat>, c: Client, since: nat)
    requires Ascending(log) && base >= 1 && forall i :: i in log ==> base <= i
    requires c.Streaming? && c.start <= |log| && c.backfill == SinceIds(c.table, since, BACKFILL_LIMIT)
    requires Replayed(base, log, c) && KeptUp(c.table, log, c.start, c.reached, since)
    requires Followed(log[c.start..], LastReplayed(c.backfill), c.live, 0)
    requires |OnlyStored(c.table, log[c.start..], since)| <= BACKFILL_LIMIT
    requires c.backfill == [] ==> forall i :: i in log[c.start..] ==> i > since
    ensures c.backfill + c.live == Sorted(Wanted(c.table, log, since))
  {
    var last, all := LastReplayed(c.backfill), c.backfill + c.live;
    AboveMembers(log[c.start..], last);
    AboveAscends(log[c.start..], last);
    forall i | i in Wanted(c.table, log, since) ensures i in all {
      WantedIsReceived(base, log, c, since, i);
    }
    forall i | i in all ensures i in Wanted(c.table, log, since) {
      assert c.backfill != [] ==> last in c.backfill && last > since;
    }
    SplicedAscends(c.backfill, c.live);
    AscendingIsSorted(all, Wanted(c.table, log, since));
  }

  lemma SplicedAscends(a: seq<nat>, b: seq<nat>)
    requires Ascending(a) && Ascending(b) && forall j :: j in b ==> j > LastReplayed(a)
    ensures Ascending(a + b)
  {
    forall i, j | 0 <= i < j < |a + b| ensures (a + b)[i] < (a + b)[j] {
      if i < |a| <= j {
        assert (a + b)[j] in b;
        ReplayedBound(a, a[i]);
      }
    }
  }

  /** What the completeness arguments need of a reached state whose client has caught up. */
  ghost predicate CaughtUp(base: nat, log: seq<nat>, c: Client) {
    && base >= 1 && (forall i :: i in log ==> base <= i)
    && c.Streaming? && c.start <= |log| && Replayed(base, log, c)
    && Followed(log[c.start..], LastReplayed(c.backfill), c.live, 0)
  }

  lemma CaughtUpClient(steps: seq<Step>)
    requires Runs(steps) && Exec(steps).client.Streaming? && Exec(steps).resumed
    requires Exec(steps).client.next == |Exec(steps).log| && Exec(steps).client.missed == 0
    ensures var s := Exec(steps);
      CaughtUp(s.base, s.log, s.client) && s.client.backfill == Query(s.client.table, s.client.since)
  {
    InvHolds(steps);
    ClientFitsAlways(steps);
    var s := Exec(steps);
    assert s.log[s.client.start..|s.log|] == s.log[s.client.start..];
  }

  /**
   A client that connects with a last-seen id, follows the stream to its current end and never lags
   has received exactly all events after that id, in order, under the condition of CompleteIff: when the
   counter resumed, ids are broadcast in order and the table held all that the persister had been offered.
   */
  lemma ReconnectIsComplete(steps: seq<Step>, since: nat)
    requires Runs(steps) && Exec(steps).client.Streaming? && Exec(steps).resumed && since < TWO_63
    requires var s := Exec(steps);
      && s.client.since == Some(since) && s.client.next == |s.log| && s.client.missed == 0
      && Ascending(s.log) && KeptUp(s.client.table, s.log, s.client.start, s.client.reached, since)
    ensures var s := Exec(steps);
      && s.client.start <= |s.log|
      && (s.client.backfill + s.client.live == Sorted(Wanted(s.client.table, s.log, since))
          <==> |OnlyStored(s.client.table, s.log[s.client.start..], since)| <= BACKFILL_LIMIT
               && (s.client.backfill == [] ==> forall i :: i in s.log[s.client.start..] ==> i > since))
  {
    CaughtUpClient(steps);
    var s := Exec(steps);
    CompleteIff(s.base, s.log, s.client, since);
  }

  /** One id after `since`: it does not reach a client that has followed the broadcast to its end. */
  ghost predicate Misses(log: seq<nat>, c: Client, since: nat, i: nat)
    requires c.Streaming?
  {
    i in Wanted(c.table, log, since) && i !in c.backfill + c.live
  }

  /**
   A stored id beyond the replay that was not broadcast after the subscription; or an id that was not in the
   table read and was broadcast before the subscription only, or after it but not above the replay.
   */
  predicate LeftOut(log: seq<nat>, c: Client, since: nat, i: nat)
    requires c.Streaming? && c.start <= |log|
  {
    var last := LastReplayed(c.backfill);
    && i > since
    && (if i in c.table then i > last && i !in log[c.start..] else i in log && (i in log[c.start..] ==> i <= last))
  }

  /** Whatever the order of the broadcasts: what is missed is what is left out; a stored id only because of the cap. */
  lemma MissesIff(log: seq<nat>, c: Client, since: nat, i: nat)
    requires c.Streaming? && c.start <= |log| && c.backfill == SinceIds(c.table, since, BACKFILL_LIMIT)
    requires Followed(log[c.start..], LastReplayed(c.backfill), c.live, 0)
    ensures Misses(log, c, since, i) <==> LeftOut(log, c, since, i)
    ensures i in c.table && Misses(log, c, since, i) ==> |c.backfill| == BACKFILL_LIMIT
  {
    AboveMembers(log[c.start..], LastReplayed(c.backfill));
    if i in c.backfill {
      ReplayedBound(c.backfill, i);
    } else if i in c.table && i > since {
      SinceIsPrefix(c.table, since, BACKFILL_LIMIT, i);
      assert Last(c.backfill) in c.backfill;
    }
  }

  /** An id the client gets although it is not after `since`: only live, and only if nothing was replayed. */
  lemma SuperfluousIff(log: seq<nat>, c: Client, since: nat, i: nat)
    requires c.Streaming? && c.start <= |log| && c.backfill == SinceIds(c.table, since, BACKFILL_LIMIT)
    requires Followed(log[c.start..], LastReplayed(c.backfill), c.live, 0) && forall k :: k in log ==> k >= 1
    ensures i in c.backfill + c.live && i !in Wanted(c.table, log, since) <==>
      c.backfill == [] && i in log[c.start..] && i <= since
  {
    AboveMembers(log[c.start..], LastReplayed(c.backfill));
    assert i in log[c.start..] ==> i in log;
    if c.backfill != [] {
      assert Last(c.backfill) in c.backfill;
    }
  }

  /**
   Over every run, with ids broadcast in any order and whatever the persister had stored: which events a
   client misses, and which it gets superfluously, when it connects with a last-seen id, follows the
   stream to its current end and never lags.
   */
  lemma ReconnectMisses(steps: seq<Step>, since: nat, i: nat)
    requires Runs(steps) && Exec(steps).client.Streaming? && since < TWO_63
    requires var s := Exec(steps);
      s.client.since == Some(since) && s.client.next == |s.log| && s.client.missed == 0
    ensures var s := Exec(steps); var c := s.client;
      && c.start <= |s.log|
      && (Misses(s.log, c, since, i) <==> LeftOut(s.log, c, since, i))
      && (i in c.backfill + c.live && i !in Wanted(c.table, s.log, since) <==>
            c.backfill == [] && i in s.log[c.start..] && i <= since)
  {
    InvHolds(steps);
    ClientFitsAlways(steps);
    var s := Exec(steps);
    AllFollowed(s, s.log, s.client);
    MissesIff(s.log, s.client, since, i);
    SuperfluousIff(s.log, s.client, since, i);
  }

  lemma AllFollowed(s: State, log: seq<nat>, c: Client)
    requires log == s.log && c == s.client && Inv(s) && Fits(s.resumed, s.base, log, c)
    requires c.Streaming? && c.next == |log| && c.missed == 0
    ensures c.start <= |log| && Followed(log[c.start..], LastReplayed(c.backfill), c.live, 0)
    ensures c.backfill == Query(c.table, c.since) && forall k :: k in log ==> k >= 1
  {
    assert log[c.start..|log|] == log[c.start..];
  }

  /** A client that was replayed nothing has received every broadcast it followed and did not lose. */
  ghost predicate CountsLive(c: Client) {
    c.Streaming? && c.backfill == [] ==> |c.live| + c.missed == c.next - c.start
  }

  lemma StepCountsLive(s: State, step: Step)
    requires Inv(s) && Enabled(s, step) && CountsLive(s.client)
    ensures CountsLive(Apply(s, step).client)
  {
  }

  lemma {:induction false} LiveIsCounted(steps: seq<Step>)
    requires Runs(steps)
    ensures CountsLive(Exec(steps).client)
  {
    if steps != [] {
      InvHolds(Init(steps));
      LiveIsCounted(Init(steps));
      StepCountsLive(Exec(Init(steps)), Last(steps));
    }
  }

  /**
   A last-seen id of 2^63 or more turns negative in the query: no event is after it, yet the oldest
   stored ones are replayed. The client gets the nothing it should exactly if the table it could read was
   empty and it lost every broadcast it followed: without lags, as long as it has followed none.
   */
  lemma ReconnectFromHugeIdIff(steps: seq<Step>, since: nat)
    requires Runs(steps) && Exec(steps).client.Streaming? && TWO_63 <= since < TWO_64
    requires Exec(steps).client.since == Some(since)
    requires forall i :: i in Exec(steps).client.table || i in Exec(steps).log ==> i < TWO_63
    ensures var s := Exec(steps); var c := s.client;
      c.backfill + c.live == Sorted(Wanted(c.table, s.log, since)) <==>
        (c.table == {} && c.next == c.start + c.missed)
  {
    ClientFitsAlways(steps);
    LiveIsCounted(steps);
    var c := Exec(steps).client;
    HugeIdReplays(c.table, since);
    assert Wanted(c.table, Exec(steps).log, since) == {};
    assert Sorted({}) == [];
  }

  lemma HugeIdReplays(table: set<nat>, since: nat)
    requires TWO_63 <= since < TWO_64 && forall i :: i in table ==> i < TWO_63
    ensures Query(table, Some(since)) == [] <==> table == {}
  {
    SinceQueryIff(table, since, BACKFILL_LIMIT);
    assert After(table, since) == {} && SinceIds(table, since, BACKFILL_LIMIT) == [];
  }

  lemma FirstReplayReachesLive(log: seq<nat>, c: Client)
    requires c.Streaming? && c.start <= |log| && c.backfill == RecentIds(c.table, BACKFILL_LIMIT)
    requires c.backfill != [] && c.backfill[0] > 0
    ensures |OnlyStored(c.table, log[c.start..], c.backfill[0] - 1)| <= BACKFILL_LIMIT
  {
    forall i | i in OnlyStored(c.table, log[c.start..], c.backfill[0] - 1) ensures i in Elements(c.backfill) {
      RecentIsSuffix(c.table, BACKFILL_LIMIT, c.backfill, i);
    }
    SubsetCount(OnlyStored(c.table, log[c.start..], c.backfill[0] - 1), Elements(c.backfill));
    AscendingCount(c.backfill);
  }

  /** The first connection's replay is what a client that had last seen the id before it would get. */
  lemma FirstConnection(base: nat, log: seq<nat>, c: Client, floor: nat)
    requires Ascending(log) && base >= 1 && forall i :: i in log ==> base <= i
    requires c.Streaming? && c.backfill == RecentIds(c.table, BACKFILL_LIMIT)
    requires c.start <= |log| && c.backfill != []
    requires Replayed(base, log, c) && c.backfill[0] == floor + 1
    requires KeptUp(c.table, log, c.start, c.reached, floor)
    requires Followed(log[c.start..], LastReplayed(c.backfill), c.live, 0)
    ensures c.backfill + c.live == Sorted(Wanted(c.table, log, floor))
  {
    RecentIsSince(c.table, BACKFILL_LIMIT, c.backfill);
    FirstReplayReachesLive(log, c);
    NothingMissing(base, log, c, floor);
  }

  /** An event older than a full replay; or one that was not in the table and was not broadcast above the replay. */
  predicate BeforeFirst(log: seq<nat>, c: Client, i: nat)
    requires c.Streaming? && c.start <= |log|
  {
    if i in c.table then |c.backfill| == 200 && i < c.backfill[0]
    else i in log && (i in log[c.start..] ==> i <= LastReplayed(c.backfill))
  }

  /**
   Over every run, in whatever order ids were broadcast: a first connection that has followed the stream to
   its current end and never lagged misses an event of the table it read only if the 200 newest were
   replayed and the event is older, and any other exactly if it was not broadcast after the subscription
   above everything replayed.
   */
  lemma FirstConnectionMisses(steps: seq<Step>, i: nat)
    requires Runs(steps) && Exec(steps).client.Streaming?
    requires var s := Exec(steps);
      s.client.since == None && s.client.next == |s.log| && s.client.missed == 0
    ensures var s := Exec(steps); var c := s.client;
      && c.start <= |s.log|
      && ((i in c.table || i in s.log) && i !in c.backfill + c.live <==> BeforeFirst(s.log, c, i))
  {
    InvHolds(steps);
    ClientFitsAlways(steps);
    var s := Exec(steps);
    AllFollowed(s, s.log, s.client);
    FirstMissesIff(s.log, s.client, i);
  }

  lemma FirstMissesIff(log: seq<nat>, c: Client, i: nat)
    requires c.Streaming? && c.start <= |log| && c.backfill == RecentIds(c.table, BACKFILL_LIMIT)
    requires Followed(log[c.start..], LastReplayed(c.backfill), c.live, 0)
    ensures (i in c.table || i in log) && i !in c.backfill + c.live <==> BeforeFirst(log, c, i)
  {
    AboveMembers(log[c.start..], LastReplayed(c.backfill));
    if i in c.backfill {
      ReplayedBound(c.backfill, i);
      var k :| 0 <= k < |c.backfill| && c.backfill[k] == i;
    } else if i in c.table {
      RecentIsNewest(c.table, BACKFILL_LIMIT, i);
      assert c.backfill[0] in c.backfill && Last(c.backfill) in c.backfill;
    }
  }

  /** A first connection, under the same assumptions, receives everything from its first event on without a gap. */
  lemma FirstConnectionHasNoGap(steps: seq<Step>, floor: nat)
    requires Runs(steps) && Exec(steps).client.Streaming? && Exec(steps).resumed
    requires var s := Exec(steps); var c := s.client;
      && c.since == None && c.backfill != [] && c.backfill[0] == floor + 1
      && c.next == |s.log| && c.missed == 0
      && Ascending(s.log) && KeptUp(c.table, s.log, c.start, c.reached, floor)
    ensures var s := Exec(steps); s.client.backfill + s.client.live == Sorted(Wanted(s.client.table, s.log, floor))
  {
    CaughtUpClient(steps);
    var s := Exec(steps);
    FirstConnection(s.base, s.log, s.client, floor);
  }
}
