/**
 The migration runner of the shared app database: each pending migration runs in a transaction with
 a namespace check on the tables it creates and drops, and is tracked by (app, name). A migration's
 effect is an arbitrary function on the whole database, or a failure.
 */
module Migrations {
  import opened Sequences
  import opened Text

  const TRACKING_TABLE := "_larkstack_migrations"
  const SQLITE_PREFIX := "sqlite_"

  /** A row of the tracking table. */
  datatype Applied = Applied(app: string, name: string)

  /** Tables by name with their content, and the rows of the tracking table. */
  datatype Db = Db(tables: map<string, string>, tracking: set<Applied>)

  datatype Migration = Migration(name: string, up: Db -> Option<Db>)

  /** Whether the database answers the statements around one migration. */
  datatype Io = Io(lookupOk: bool, commitOk: bool)

  function TablePrefix(app: string): string {
    app + "_"
  }

  predicate IsFrameworkTable(name: string) {
    name == TRACKING_TABLE || SQLITE_PREFIX <= name
  }

  /** A table that migrations of `app` may create or drop. */
  predicate Allowed(app: string, table: string) {
    IsFrameworkTable(table) || TablePrefix(app) <= table
  }

  predicate NamespaceKept(app: string, before: set<string>, after: set<string>) {
    && (forall t :: t in after - before ==> Allowed(app, t))
    && (forall t :: t in before - after ==> Allowed(app, t))
  }

  function WithTracking(db: Db): Db {
    if TRACKING_TABLE in db.tables then db else db.(tables := db.tables[TRACKING_TABLE := ""])
  }

  /** Setting up the tracking table changes nothing that is there. */
  lemma WithTrackingKeeps(db: Db)
    ensures WithTracking(db).tracking == db.tracking
    ensures forall t :: t in WithTracking(db).tables <==> t in db.tables || t == "_larkstack_migrations"
    ensures forall t :: t in db.tables ==> WithTracking(db).tables[t] == db.tables[t]
  {
  }

  /** The database after a migration has committed, or None if its transaction rolls back. */
  function Committed(db: Db, app: string, m: Migration): Option<Db> {
    var done := m.up(db);
    var row := Applied(app, m.name);
    if done.None? || !NamespaceKept(app, db.tables.Keys, done.value.tables.Keys) then None
    else if TRACKING_TABLE !in done.value.tables || row in done.value.tracking then None
    else Some(done.value.(tracking := done.value.tracking + {row}))
  }

  /** A commit: which app, which migration. */
  datatype Commit = Commit(app: string, migration: Migration)

  /** The database and the commits after running `migrations` in order, up to the first failure. */
  datatype Outcome = Outcome(db: Db, ok: bool, commits: seq<Commit>)

  function RunAll(db: Db, app: string, migrations: seq<Migration>, io: seq<Io>): Outcome
    requires |io| == |migrations|
  {
    if migrations == [] then Outcome(db, true, [])
    else
      var before, m := RunAll(db, app, Init(migrations), Init(io)), Last(migrations);
      if !before.ok then before
      else if !Last(io).lookupOk then before.(ok := false)
      else if Applied(app, m.name) in before.db.tracking then before
      else
        var after := Committed(before.db, app, m);
        if after.None? || !Last(io).commitOk then before.(ok := false)
        else Outcome(after.value, true, before.commits + [Commit(app, m)])
  }

  class AppDatabase {
    var db: Db

    constructor (db: Db)
      ensures this.db == db
    {
      this.db := db;
    }

    /**
     Runs one migration in a transaction: on any failure the database is left as it was.
     */
    method ApplyOne(app: string, m: Migration, commitOk: bool) returns (ok: bool)
      modifies this
      ensures ok == (Committed(old(db), app, m).Some? && commitOk)
      ensures db == if ok then Committed(old(db), app, m).value else old(db)
    {
      var before := db.tables.Keys;
      var txn := m.up(db);
      if txn.None? {
        return false;
      }
      var after := txn.value.tables.Keys;
      var created := after - before;
      while created != {}
        invariant created <= after - before
        invariant forall t :: t in after - before && t !in created ==> Allowed(app, t)
        decreases created
      {
        var table :| table in created;
        if !IsFrameworkTable(table) && !(TablePrefix(app) <= table) {
          return false;
        }
        created := created - {table};
      }
      var dropped := before - after;
      while dropped != {}
        invariant dropped <= before - after
        invariant forall t :: t in before - after && t !in dropped ==> Allowed(app, t)
        decreases dropped
      {
        var table :| table in dropped;
        if !IsFrameworkTable(table) && !(TablePrefix(app) <= table) {
          return false;
        }
        dropped := dropped - {table};
      }
      var row := Applied(app, m.name);
      if TRACKING_TABLE !in txn.value.tables || row in txn.value.tracking {
        return false;
      }
      if !commitOk {
        return false;
      }
      db := txn.value.(tracking := txn.value.tracking + {row});
      return true;
    }

    /** Applies the pending migrations of `app`, skipping those already tracked; `applied` are the ones it logs. */
    method RunMigrations(app: string, migrations: seq<Migration>, ensureOk: bool, io: seq<Io>)
      returns (ok: bool, applied: seq<Commit>)
      requires |io| == |migrations|
      modifies this
      ensures !ensureOk ==> !ok && db == old(db) && applied == []
      ensures ensureOk ==> Outcome(db, ok, applied) == RunAll(WithTracking(old(db)), app, migrations, io)
    {
      applied := [];
      if !ensureOk {
        return false, applied;
      }
      if TRACKING_TABLE !in db.tables {
        db := db.(tables := db.tables[TRACKING_TABLE := ""]);
      }
      ghost var start := db;
      for i := 0 to |migrations|
        invariant RunAll(start, app, migrations[..i], io[..i]) == Outcome(db, true, applied)
      {
        assert Init(migrations[..i + 1]) == migrations[..i] && Init(io[..i + 1]) == io[..i];
        var m := migrations[i];
        if !io[i].lookupOk {
          FailureIsFinal(start, app, migrations, io, i + 1);
          return false, applied;
        }
        if Applied(app, m.name) in db.tracking {
          continue;
        }
        var committed := ApplyOne(app, m, io[i].commitOk);
        if !committed {
          FailureIsFinal(start, app, migrations, io, i + 1);
          return false, applied;
        }
        applied := applied + [Commit(app, m)];
      }
      assert migrations[..|migrations|] == migrations && io[..|io|] == io;
      return true, applied;
    }
  }

  /** After a failure nothing later runs. */
  lemma {:induction false} FailureIsFinal(db: Db, app: string, migrations: seq<Migration>, io: seq<Io>, n: nat)
    requires |io| == |migrations| && n <= |migrations|
    requires !RunAll(db, app, migrations[..n], io[..n]).ok
    ensures RunAll(db, app, migrations, io) == RunAll(db, app, migrations[..n], io[..n])
  {
    if n == |migrations| {
      assert migrations[..n] == migrations && io[..n] == io;
    } else {
      assert Init(migrations)[..n] == migrations[..n] && Init(io)[..n] == io[..n];
      FailureIsFinal(db, app, Init(migrations), Init(io), n);
    }
  }

  // ---- when a run fails ------------------------------------------------------------------------

  predicate MayTouch(app: string, table: string) {
    table == "_larkstack_migrations" || StartsWith(table, "sqlite_") || StartsWith(table, app + "_")
  }

  /** The migration succeeds on `db`, creates and drops only tables it may, and its tracking row can be inserted. */
  predicate Succeeds(db: Db, app: string, m: Migration) {
    m.up(db).Some?
    && (var done := m.up(db).value;
        && (forall t :: t in done.tables && t !in db.tables ==> MayTouch(app, t))
        && (forall t :: t in db.tables && t !in done.tables ==> MayTouch(app, t))
        && "_larkstack_migrations" in done.tables && Applied(app, m.name) !in done.tracking)
  }

  /** What a commit leaves: everything as the migration left it, and its own row. */
  lemma CommittedIff(db: Db, app: string, m: Migration)
    ensures Committed(db, app, m).Some? <==> Succeeds(db, app, m)
    ensures Succeeds(db, app, m) ==>
      var r, done := Committed(db, app, m).value, m.up(db).value;
      && r.tables == done.tables
      && forall row :: row in r.tracking <==> row in done.tracking || row == Applied(app, m.name)
  {
    if m.up(db).Some? {
      var before, after := db.tables.Keys, m.up(db).value.tables.Keys;
      assert forall t :: t in after - before <==> t in m.up(db).value.tables && t !in db.tables;
      assert forall t :: t in before - after <==> t in db.tables && t !in m.up(db).value.tables;
    }
  }

  predicate Pending(db: Db, app: string, m: Migration) {
    Applied(app, m.name) !in db.tracking
  }

  /** A migration that is reached does not end the run: it is tracked already, or it succeeds and commits. */
  predicate Passes(db: Db, app: string, m: Migration, io: Io) {
    io.lookupOk && (Pending(db, app, m) ==> Succeeds(db, app, m) && io.commitOk)
  }

  /** What reaching migration number `n` comes to. */
  lemma Reached(db: Db, app: string, migrations: seq<Migration>, io: seq<Io>, n: nat)
    requires |io| == |migrations| && n < |migrations| && RunAll(db, app, migrations[..n], io[..n]).ok
    ensures var before := RunAll(db, app, migrations[..n], io[..n]);
      var after, m := RunAll(db, app, migrations[..n + 1], io[..n + 1]), migrations[n];
      if !Passes(before.db, app, m, io[n]) then after == before.(ok := false)
      else if Pending(before.db, app, m) then
        after.ok && Committed(before.db, app, m) == Some(after.db) && after.commits == before.commits + [Commit(app, m)]
      else after == before
  {
    assert Init(migrations[..n + 1]) == migrations[..n] && Init(io[..n + 1]) == io[..n];
    CommittedIff(RunAll(db, app, migrations[..n], io[..n]).db, app, migrations[n]);
  }

  /**
   The first migration that is reached and does not pass ends the run: it is reported as failed, nothing
   later runs, and the commits are those of the migrations before.
   */
  lemma FirstFailureEndsRun(db: Db, app: string, migrations: seq<Migration>, io: seq<Io>, n: nat)
    requires |io| == |migrations| && n < |migrations| && RunAll(db, app, migrations[..n], io[..n]).ok
    requires !Passes(RunAll(db, app, migrations[..n], io[..n]).db, app, migrations[n], io[n])
    ensures RunAll(db, app, migrations, io) == RunAll(db, app, migrations[..n], io[..n]).(ok := false)
  {
    Reached(db, app, migrations, io, n);
    FailureIsFinal(db, app, migrations, io, n + 1);
  }

  lemma OkMeansPrefixOk(db: Db, app: string, migrations: seq<Migration>, io: seq<Io>, n: nat)
    requires |io| == |migrations| && n <= |migrations| && RunAll(db, app, migrations, io).ok
    ensures RunAll(db, app, migrations[..n], io[..n]).ok
  {
    if !RunAll(db, app, migrations[..n], io[..n]).ok {
      FailureIsFinal(db, app, migrations, io, n);
    }
  }

  lemma {:induction false} AllPassMeansOk(db: Db, app: string, migrations: seq<Migration>, io: seq<Io>, n: nat)
    requires |io| == |migrations| && n <= |migrations|
    requires forall k :: 0 <= k < n ==> Passes(RunAll(db, app, migrations[..k], io[..k]).db, app, migrations[k], io[k])
    ensures RunAll(db, app, migrations[..n], io[..n]).ok
  {
    if n > 0 {
      AllPassMeansOk(db, app, migrations, io, n - 1);
      Reached(db, app, migrations, io, n - 1);
    }
  }

  /** A run succeeds exactly if every migration passes in the database that those before it left. */
  lemma RunOkIff(db: Db, app: string, migrations: seq<Migration>, io: seq<Io>)
    requires |io| == |migrations|
    ensures RunAll(db, app, migrations, io).ok <==>
      forall n :: 0 <= n < |migrations| ==>
        Passes(RunAll(db, app, migrations[..n], io[..n]).db, app, migrations[n], io[n])
  {
    assert migrations[..|migrations|] == migrations && io[..|io|] == io;
    if RunAll(db, app, migrations, io).ok {
      forall n | 0 <= n < |migrations|
        ensures Passes(RunAll(db, app, migrations[..n], io[..n]).db, app, migrations[n], io[n])
      {
        OkMeansPrefixOk(db, app, migrations, io, n);
        OkMeansPrefixOk(db, app, migrations, io, n + 1);
        Reached(db, app, migrations, io, n);
      }
    } else if forall n :: 0 <= n < |migrations| ==>
      Passes(RunAll(db, app, migrations[..n], io[..n]).db, app, migrations[n], io[n])
    {
      AllPassMeansOk(db, app, migrations, io, |migrations|);
    }
  }

  /** After a run that succeeds, each migration was tracked when it was reached or is among the commits. */
  lemma OkMeansAllDone(db: Db, app: string, migrations: seq<Migration>, io: seq<Io>, n: nat)
    requires |io| == |migrations| && n < |migrations| && RunAll(db, app, migrations, io).ok
    ensures Pending(RunAll(db, app, migrations[..n], io[..n]).db, app, migrations[n]) ==>
      Commit(app, migrations[n]) in RunAll(db, app, migrations, io).commits
  {
    OkMeansPrefixOk(db, app, migrations, io, n);
    OkMeansPrefixOk(db, app, migrations, io, n + 1);
    CommitsStay(db, app, migrations, io, n + 1);
    CommitWhenReached(db, app, migrations, io, n, RunAll(db, app, migrations, io).commits);
  }

  lemma CommitWhenReached(
    db: Db, app: string, migrations: seq<Migration>, io: seq<Io>, n: nat, commits: seq<Commit>)
    requires |io| == |migrations| && n < |migrations| && RunAll(db, app, migrations[..n], io[..n]).ok
    requires RunAll(db, app, migrations[..n + 1], io[..n + 1]).ok
    requires RunAll(db, app, migrations[..n + 1], io[..n + 1]).commits <= commits
    ensures Pending(RunAll(db, app, migrations[..n], io[..n]).db, app, migrations[n]) ==>
      Commit(app, migrations[n]) in commits
  {
    Reached(db, app, migrations, io, n);
    var before, after := RunAll(db, app, migrations[..n], io[..n]), RunAll(db, app, migrations[..n + 1], io[..n + 1]);
    if Pending(before.db, app, migrations[n]) {
      assert Last(after.commits) == Commit(app, migrations[n]) && commits[|after.commits| - 1] == Last(after.commits);
    }
  }

  lemma {:induction false} CommitsStay(db: Db, app: string, migrations: seq<Migration>, io: seq<Io>, n: nat)
    requires |io| == |migrations| && n <= |migrations|
    ensures RunAll(db, app, migrations[..n], io[..n]).commits <= RunAll(db, app, migrations, io).commits
  {
    if n == |migrations| {
      assert migrations[..n] == migrations && io[..n] == io;
    } else {
      assert Init(migrations)[..n] == migrations[..n] && Init(io)[..n] == io[..n];
      CommitsStay(db, app, Init(migrations), Init(io), n);
    }
  }

  // ---- every sequence of startups ------------------------------------------------------------

  /** One app's turn in a startup; an app whose run fails is skipped and the next one follows. */
  datatype Turn = Turn(app: string, migrations: seq<Migration>, ensureOk: bool, io: seq<Io>)

  predicate WellFormed(turns: seq<Turn>) {
    forall i :: 0 <= i < |turns| ==> |turns[i].io| == |turns[i].migrations|
  }

  /** The database and all commits after `turns`, which may span any number of startups. */
  function Startups(db: Db, turns: seq<Turn>): (Db, seq<Commit>)
    requires WellFormed(turns)
  {
    if turns == [] then (db, [])
    else
      var (before, commits) := Startups(db, Init(turns));
      var t := Last(turns);
      if !t.ensureOk then (before, commits)
      else
        var r := RunAll(WithTracking(before), t.app, t.migrations, t.io);
        (r.db, commits + r.commits)
  }

  /** An app's turn does not depend on whether the turns before it failed, only on the database they left. */
  lemma TurnsAreIndependent(db: Db, turns: seq<Turn>, t: Turn)
    requires WellFormed(turns) && |t.io| == |t.migrations|
    ensures WellFormed(turns + [t]) && WellFormed([t])
    ensures var (before, commits) := Startups(db, turns);
      Startups(db, turns + [t]) == (Startups(before, [t]).0, commits + Startups(before, [t]).1)
  {
    assert Init(turns + [t]) == turns && Init([t]) == [];
    var (before, commits) := Startups(db, turns);
    assert commits + [] == commits;
    assert [] + RunAll(WithTracking(before), t.app, t.migrations, t.io).commits
        == RunAll(WithTracking(before), t.app, t.migrations, t.io).commits;
  }

  function RowOf(c: Commit): Applied {
    Applied(c.app, c.migration.name)
  }

  /** Wherever the migration can commit, its own effect leaves the tracking rows as they were. */
  ghost predicate KeepsTracking(c: Commit) {
    forall db: Db ::
      (TRACKING_TABLE in db.tables && RowOf(c) !in db.tracking && Committed(db, c.app, c.migration).Some?)
      ==> c.migration.up(db).value.tracking == db.tracking
  }

  function RowsOf(commits: seq<Commit>): seq<Applied> {
    seq(|commits|, i requires 0 <= i < |commits| => RowOf(commits[i]))
  }

  /** `rows` are the committed migrations' rows, each of which was committed once, on top of `start`. */
  ghost predicate Tracked(start: set<Applied>, rows: set<Applied>, commits: seq<Commit>) {
    && NoDup(RowsOf(commits))
    && (forall row :: row in rows <==> row in start || row in RowsOf(commits))
    && (forall row :: row in RowsOf(commits) ==> row !in start)
  }

  lemma TrackedGrows(start: set<Applied>, rows: set<Applied>, commits: seq<Commit>, c: Commit)
    requires Tracked(start, rows, commits) && RowOf(c) !in rows
    ensures Tracked(start, rows + {RowOf(c)}, commits + [c])
  {
    assert RowsOf(commits + [c]) == RowsOf(commits) + [RowOf(c)];
  }

  /** Everything the turns could commit is in `pool`. */
  ghost predicate Draws(turns: seq<Turn>, pool: set<Commit>) {
    forall t, m :: t in turns && m in t.migrations ==> Commit(t.app, m) in pool
  }

  lemma {:induction false} RunTracks(
    start: set<Applied>, commits: seq<Commit>, db: Db, app: string, migrations: seq<Migration>, io: seq<Io>)
    requires |io| == |migrations| && (forall m :: m in migrations ==> KeepsTracking(Commit(app, m)))
    requires TRACKING_TABLE in db.tables && Tracked(start, db.tracking, commits)
    ensures var r := RunAll(db, app, migrations, io);
      TRACKING_TABLE in r.db.tables && Tracked(start, r.db.tracking, commits + r.commits)
  {
    if migrations == [] {
      assert commits + [] == commits;
    } else {
      var p, m := Init(migrations), Last(migrations);
      assert m in migrations && forall k :: k in p ==> k in migrations;
      RunTracks(start, commits, db, app, p, Init(io));
      var before, r := RunAll(db, app, p, Init(io)), RunAll(db, app, migrations, io);
      if r.commits != before.commits {
        assert KeepsTracking(Commit(app, m));
        TrackedGrows(start, before.db.tracking, commits + before.commits, Commit(app, m));
        assert commits + r.commits == commits + before.commits + [Commit(app, m)];
      }
    }
  }

  lemma {:induction false} StartupsTrack(db: Db, turns: seq<Turn>, pool: set<Commit>)
    requires WellFormed(turns) && Draws(turns, pool)
    requires forall c :: c in pool ==> KeepsTracking(c)
    ensures var (db', commits) := Startups(db, turns); Tracked(db.tracking, db'.tracking, commits)
  {
    if turns != [] {
      var p, t := Init(turns), Last(turns);
      assert t in turns && forall k :: k in p ==> k in turns;
      StartupsTrack(db, p, pool);
      var (before, commits) := Startups(db, p);
      if t.ensureOk {
        forall m | m in t.migrations ensures KeepsTracking(Commit(t.app, m)) {
          assert Commit(t.app, m) in pool;
        }
        RunTracks(db.tracking, commits, WithTracking(before), t.app, t.migrations, t.io);
      }
    }
  }

  /**
   From any database, a fresh one without a tracking table included: each (app, migration) commits at
   most once over every sequence of startups, with any failures and any repetition, and a tracking row
   exists exactly when its migration committed. This holds of a pool of migrations if and only if none
   of them, where it can commit, touches the tracking rows.
   */
  lemma CommittedOnce(pool: set<Commit>)
    ensures (forall db: Db, turns: seq<Turn> ::
        WellFormed(turns) && Draws(turns, pool) ==>
          Tracked(db.tracking, Startups(db, turns).0.tracking, Startups(db, turns).1))
      <==> forall c :: c in pool ==> KeepsTracking(c)
  {
    if forall c :: c in pool ==> KeepsTracking(c) {
      forall db: Db, turns: seq<Turn> | WellFormed(turns) && Draws(turns, pool) {
        StartupsTrack(db, turns, pool);
      }
    } else {
      var c :| c in pool && !KeepsTracking(c);
      var db, t := Untracked(c);
      assert Draws([t], pool);
    }
  }

  /** One commit is tracked exactly when nothing but its own row was added. */
  lemma TrackedOnce(before: set<Applied>, done: set<Applied>, c: Commit)
    requires RowOf(c) !in before && RowOf(c) !in done
    ensures Tracked(before, done + {RowOf(c)}, [c]) ==> done == before
  {
    assert Init([c]) == [] && RowsOf([c]) == [RowOf(c)];
    if Tracked(before, done + {RowOf(c)}, [c]) {
      forall row ensures row in done <==> row in before {
        assert row in done + {RowOf(c)} <==> row in before || row in [RowOf(c)];
      }
    }
  }

  /** A migration that does touch the tracking rows spoils them in a single turn. */
  lemma Untracked(c: Commit) returns (db: Db, t: Turn)
    requires !KeepsTracking(c)
    ensures t.app == c.app && t.migrations == [c.migration] && WellFormed([t]) && TRACKING_TABLE in db.tables
    ensures !Tracked(db.tracking, Startups(db, [t]).0.tracking, Startups(db, [t]).1)
  {
    db :| TRACKING_TABLE in db.tables && RowOf(c) !in db.tracking
      && Committed(db, c.app, c.migration).Some? && c.migration.up(db).value.tracking != db.tracking;
    var ok := Io(true, true);
    t := Turn(c.app, [c.migration], true, [ok]);
    assert Init([t]) == [] && Init([c.migration]) == [] && Init([ok]) == [];
    var r := RunAll(db, c.app, [c.migration], [ok]);
    assert RunAll(db, c.app, [], []) == Outcome(db, true, []);
    assert Commit(c.app, c.migration) == c && Applied(c.app, c.migration.name) == RowOf(c);
    assert r.commits == [] + [c] == [c];
    assert Startups(db, [t]).1 == [] + [c] == [c];
    assert RowsOf([c]) == [RowOf(c)];
    var rows, done := r.db.tracking, c.migration.up(db).value.tracking;
    assert rows == done + {RowOf(c)} && RowOf(c) !in done;
    assert Startups(db, [t]).0.tracking == rows;
    TrackedOnce(db.tracking, done, c);
  }

  // ---- what the database holds ----------------------------------------------------------------

  /** The database to which exactly `commits` have been applied, in order; None if one would roll back. */
  function Replay(db: Db, commits: seq<Commit>): Option<Db> {
    if commits == [] then Some(db)
    else
      var before := Replay(db, Init(commits));
      if before.None? then None
      else Committed(before.value, Last(commits).app, Last(commits).migration)
  }

  lemma {:induction false} ReplayConcat(db: Db, a: seq<Commit>, b: seq<Commit>)
    requires Replay(db, a).Some?
    ensures Replay(db, a + b) == Replay(Replay(db, a).value, b)
  {
    if b == [] {
      assert a + b == a;
    } else {
      assert Init(a + b) == a + Init(b) && Last(a + b) == Last(b);
      ReplayConcat(db, a, Init(b));
    }
  }

  lemma {:induction false} RunReplays(db: Db, app: string, migrations: seq<Migration>, io: seq<Io>)
    requires |io| == |migrations|
    ensures var r := RunAll(db, app, migrations, io); Replay(db, r.commits) == Some(r.db)
  {
    if migrations != [] {
      RunReplays(db, app, Init(migrations), Init(io));
      var before, r := RunAll(db, app, Init(migrations), Init(io)), RunAll(db, app, migrations, io);
      if r.commits != before.commits {
        assert Init(r.commits) == before.commits;
      }
    }
  }

  /** A commit keeps the tracking table: its own row is inserted last. */
  lemma {:induction false} RunKeepsTrackingTable(db: Db, app: string, migrations: seq<Migration>, io: seq<Io>)
    requires |io| == |migrations| && TRACKING_TABLE in db.tables
    ensures TRACKING_TABLE in RunAll(db, app, migrations, io).db.tables
  {
    if migrations != [] {
      RunKeepsTrackingTable(db, app, Init(migrations), Init(io));
    }
  }

  /**
   A failed run leaves the database as after its last commit: as the migrations before the failing one
   left it, and as replaying just the commits makes it.
   */
  lemma {:induction false} FailedRunIsItsCommits(db: Db, app: string, migrations: seq<Migration>, io: seq<Io>)
    returns (n: nat)
    requires |io| == |migrations| && !RunAll(db, app, migrations, io).ok
    ensures n < |migrations| && RunAll(db, app, migrations[..n], io[..n]).ok
    ensures RunAll(db, app, migrations, io) == RunAll(db, app, migrations[..n], io[..n]).(ok := false)
    ensures Replay(db, RunAll(db, app, migrations, io).commits) == Some(RunAll(db, app, migrations, io).db)
  {
    RunReplays(db, app, migrations, io);
    n := |migrations| - 1;
    if !RunAll(db, app, Init(migrations), Init(io)).ok {
      n := FailedRunIsItsCommits(db, app, Init(migrations), Init(io));
      assert Init(migrations)[..n] == migrations[..n] && Init(io)[..n] == io[..n];
    }
  }

  /**
   Failed and skipped migrations leave no trace: after any startups, from any database, the database is
   what replaying just the committed migrations, in commit order, makes of it.
   */
  lemma {:induction false} OnlyCommitsMatter(db: Db, turns: seq<Turn>)
    requires WellFormed(turns)
    ensures var (db', commits) := Startups(db, turns); Replay(WithTracking(db), commits) == Some(WithTracking(db'))
  {
    if turns != [] {
      OnlyCommitsMatter(db, Init(turns));
      var (before, commits) := Startups(db, Init(turns));
      var t := Last(turns);
      if t.ensureOk {
        var start := WithTracking(before);
        RunKeepsTrackingTable(start, t.app, t.migrations, t.io);
        RunReplays(start, t.app, t.migrations, t.io);
        ReplayConcat(WithTracking(db), commits, RunAll(start, t.app, t.migrations, t.io).commits);
      }
    }
  }

  // ---- namespaces -------------------------------------------------------------------------------

  predicate Comparable(p: string, q: string) {
    p <= q || q <= p
  }

  /** Some table name starts with both prefixes exactly when one prefix starts with the other. */
  lemma CommonExtension(p: string, q: string)
    ensures (exists t: string :: StartsWith(t, p) && StartsWith(t, q)) <==> Comparable(p, q)
  {
    if p <= q {
      assert StartsWith(q, p) && StartsWith(q, q);
    } else if q <= p {
      assert StartsWith(p, p) && StartsWith(p, q);
    }
  }

  /** The namespaces of two apps share a table name, or b's namespace has one of the framework's. */
  predicate Overlap(a: string, b: string) {
    || Comparable(TablePrefix(a), TablePrefix(b))
    || Comparable(SQLITE_PREFIX, TablePrefix(b))
    || TablePrefix(b) <= TRACKING_TABLE
  }

  /** A turn of app `t.app` neither creates nor drops a table of app `b`. */
  ghost predicate Spares(db: Db, t: Turn, b: string)
    requires WellFormed([t])
  {
    forall table: string :: TablePrefix(b) <= table ==>
      (table in db.tables <==> table in Startups(db, [t]).0.tables)
  }

  lemma {:induction false} RunSpares(db: Db, app: string, migrations: seq<Migration>, io: seq<Io>, table: string)
    requires |io| == |migrations| && !Allowed(app, table)
    ensures table in db.tables <==> table in RunAll(db, app, migrations, io).db.tables
  {
    if migrations != [] {
      RunSpares(db, app, Init(migrations), Init(io), table);
      var before := RunAll(db, app, Init(migrations), Init(io));
      var done := Last(migrations).up(before.db);
      if done.Some? {
        assert table in done.value.tables.Keys - before.db.tables.Keys ==>
          !NamespaceKept(app, before.db.tables.Keys, done.value.tables.Keys);
        assert table in before.db.tables.Keys - done.value.tables.Keys ==>
          !NamespaceKept(app, before.db.tables.Keys, done.value.tables.Keys);
      }
    }
  }

  lemma TurnIs(db: Db, t: Turn)
    requires WellFormed([t])
    ensures Startups(db, [t]).0 ==
      if t.ensureOk then RunAll(WithTracking(db), t.app, t.migrations, t.io).db else db
  {
    assert Init([t]) == [];
  }

  lemma OverlapIffAllowed(a: string, b: string)
    ensures Overlap(a, b) <==> exists table: string :: TablePrefix(b) <= table && Allowed(a, table)
  {
    CommonExtension(TablePrefix(a), TablePrefix(b));
    CommonExtension(SQLITE_PREFIX, TablePrefix(b));
    if Comparable(TablePrefix(a), TablePrefix(b)) {
      var t: string :| StartsWith(t, TablePrefix(a)) && StartsWith(t, TablePrefix(b));
      assert Allowed(a, t);
    }
    if Comparable(SQLITE_PREFIX, TablePrefix(b)) {
      var t: string :| StartsWith(t, SQLITE_PREFIX) && StartsWith(t, TablePrefix(b));
      assert Allowed(a, t);
    }
    if TablePrefix(b) <= TRACKING_TABLE {
      assert Allowed(a, TRACKING_TABLE);
    }
  }

  /** A migration that creates `table`. */
  function Creating(table: string): Migration {
    Migration("create", (db: Db) => Some(db.(tables := db.tables[table := ""])))
  }

  /**
   Runs of app `a` never create or drop a table in `b`'s namespace, whatever its migrations do,
   exactly when the two prefixes cannot start the same name and `b`'s holds no framework table.
   */
  lemma NamespacesIsolated(a: string, b: string)
    ensures (forall db: Db, t: Turn :: t.app == a && WellFormed([t]) ==> Spares(db, t, b)) <==> !Overlap(a, b)
  {
    OverlapIffAllowed(a, b);
    if !Overlap(a, b) {
      forall db: Db, t: Turn | t.app == a && WellFormed([t]) ensures Spares(db, t, b) {
        TurnIs(db, t);
        assert [t][0] == t;
        forall table: string | TablePrefix(b) <= table
          ensures table in db.tables <==> table in Startups(db, [t]).0.tables
        {
          assert table != TRACKING_TABLE;
          if t.ensureOk {
            RunSpares(WithTracking(db), a, t.migrations, t.io, table);
          }
        }
      }
    } else {
      var table: string :| TablePrefix(b) <= table && Allowed(a, table);
      IntrudingTurn(a, b, table);
    }
  }

  lemma IntrudingTurn(a: string, b: string, table: string)
    requires TablePrefix(b) <= table && Allowed(a, table)
    ensures exists db: Db, t: Turn :: t.app == a && WellFormed([t]) && !Spares(db, t, b)
  {
    var db := Db(map[], {});
    var m, ok := Creating(table), Io(true, true);
    var t := Turn(a, [m], true, [ok]);
    assert WellFormed([t]);
    TurnIs(db, t);
    var start := WithTracking(db);
    assert Init([m]) == [] && Init([ok]) == [];
    var done := m.up(start).value;
    assert forall k :: k in done.tables.Keys - start.tables.Keys ==> k == table;
    assert start.tables.Keys - done.tables.Keys == {};
    assert Committed(start, a, m).Some?;
    assert table in RunAll(start, a, [m], [ok]).db.tables;
    assert !Spares(db, t, b);
  }
}
