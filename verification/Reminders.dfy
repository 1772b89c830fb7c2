/**
 Due-date reminders: which tier applies to a deadline, the ledger that dedupes tiers, the pass that
 consults both, and what a deadline is reminded of over its whole life.
 */
module Reminders {
  import opened Integers
  import opened Sequences

  // ---- the applicable tier ------------------------------------------------------------

  /** The smallest non-negative lead that is at least `days`. */
  function SmallestLead(leads: seq<int>, days: int): (lead: Option<int>)
    ensures lead.None? <==> forall l :: l in leads ==> l < 0 || l < days
    ensures lead.Some? ==> lead.value in leads && lead.value >= 0 && lead.value >= days
    ensures lead.Some? ==> forall l :: l in leads && l >= 0 && l >= days ==> lead.value <= l
  {
    if leads == [] then None
    else
      var rest, l := SmallestLead(Init(leads), days), Last(leads);
      assert forall x :: x in leads <==> x in Init(leads) || x == l by { assert leads == Init(leads) + [l]; }
      assert l in leads;
      if l < 0 || l < days || (rest.Some? && rest.value <= l) then rest else Some(l)
  }

  /** The reminder that applies `days` before (or, if negative, after) the due date. */
  function CurrentTier(days: int, leads: seq<int>, cap: int): Option<int> {
    if days >= 0 then
      var lead := SmallestLead(leads, days);
      if lead.Some? then Some(AsI32(lead.value)) else None
    else if cap > 0 && -days <= cap then Some(AsI32(days))
    else None
  }

  /** The cadence's numbers survive the 32-bit tier column. */
  predicate InRange(leads: seq<int>, cap: int) {
    cap <= TWO_31 && forall l :: l in leads ==> l < TWO_31
  }

  /** What both settings routes and the stored row guarantee: no negative lead, no negative cap. */
  predicate Sane(leads: seq<int>, cap: int) {
    cap >= 0 && forall l :: l in leads ==> l >= 0
  }

  predicate Cadence(leads: seq<int>, cap: int) {
    Sane(leads, cap) && InRange(leads, cap)
  }

  /** Closer to the deadline, the applicable tier is never a higher one. */
  lemma TierMonotone(near: int, far: int, leads: seq<int>, cap: int)
    requires near <= far && InRange(leads, cap)
    requires CurrentTier(near, leads, cap).Some? && CurrentTier(far, leads, cap).Some?
    ensures CurrentTier(near, leads, cap).value <= CurrentTier(far, leads, cap).value
  {
  }

  function MaxLead(leads: seq<int>): int {
    if leads == [] then 0
    else if |leads| == 1 then leads[0]
    else if MaxLead(Init(leads)) < Last(leads) then Last(leads) else MaxLead(Init(leads))
  }

  lemma {:induction false} MaxLeadBounds(leads: seq<int>)
    ensures forall l :: l in leads ==> l <= MaxLead(leads)
  {
    if |leads| > 1 {
      MaxLeadBounds(Init(leads));
      assert leads == Init(leads) + [Last(leads)];
    }
  }

  /** The largest lead, or zero without any. */
  lemma {:induction false} MaxLeadIsLead(leads: seq<int>)
    ensures if leads == [] then MaxLead(leads) == 0 else MaxLead(leads) in leads
  {
    if |leads| > 1 {
      MaxLeadIsLead(Init(leads));
      assert leads == Init(leads) + [Last(leads)];
    }
  }

  // ---- the queried window ------------------------------------------------------------------

  /** The first and the last date of the date type, as days since 1970: years -262143 and 262142. */
  const MIN_DAY: int := -96_465_292
  const MAX_DAY: int := 95_026_236

  predicate InCalendar(day: int) {
    MIN_DAY <= day <= MAX_DAY
  }

  /** Both ends of the window [today - cap, today + max lead] are dates; computing them panics otherwise. */
  predicate WindowExists(today: int, leads: seq<int>, cap: int) {
    InCalendar(today - cap) && InCalendar(today + MaxLead(leads))
  }

  /**
   Every issue with an applicable tier is due inside the queried window, for every cadence the settings
   can hold; so it is found whenever the window exists, and then its due date is a date.
   */
  lemma TierInsideWindow(today: int, day: int, leads: seq<int>, cap: int)
    requires CurrentTier(day - today, leads, cap).Some? && Sane(leads, cap)
    ensures today - cap <= day <= today + MaxLead(leads)
    ensures WindowExists(today, leads, cap) ==> InCalendar(day)
  {
    MaxLeadBounds(leads);
    if leads != [] {
      assert Last(leads) in leads;
    }
  }

  /** The cadence can be used on every date of a period exactly when it can on its first and last. */
  lemma WindowExistsOnIff(first: int, last: int, leads: seq<int>, cap: int)
    requires InCalendar(first) && InCalendar(last) && first <= last && Sane(leads, cap)
    ensures (forall today :: first <= today <= last ==> WindowExists(today, leads, cap)) <==>
            (cap <= first - MIN_DAY && MaxLead(leads) <= MAX_DAY - last)
  {
    MaxLeadBounds(leads);
    if leads != [] {
      assert Last(leads) in leads;
    }
    if forall today :: first <= today <= last ==> WindowExists(today, leads, cap) {
      assert WindowExists(first, leads, cap) && WindowExists(last, leads, cap);
    }
  }

  /** Where the window exists the numbers survive the 32-bit tier column: no tier of a running pass is cut. */
  lemma RunningPassIsInRange(today: int, leads: seq<int>, cap: int)
    requires InCalendar(today) && WindowExists(today, leads, cap)
    ensures InRange(leads, cap)
    ensures forall l :: l in leads && l >= 0 ==> AsI32(l) == l
    ensures forall days :: -cap <= days < 0 ==> AsI32(days) == days
  {
    MaxLeadBounds(leads);
  }

  /** Two leads share a tier exactly when they agree in 32 bits, so never in a pass that runs. */
  lemma TiersClashIff(a: int, b: int, cap: int)
    requires 0 <= a < b
    ensures CurrentTier(a, [a, b], cap) == CurrentTier(b, [a, b], cap) <==> AsI32(a) == AsI32(b)
    ensures forall today :: InCalendar(today) && WindowExists(today, [a, b], cap) ==>
      CurrentTier(a, [a, b], cap) != CurrentTier(b, [a, b], cap)
  {
    assert SmallestLead([a, b], a) == Some(a) && SmallestLead([a, b], b) == Some(b) by {
      assert a in [a, b] && b in [a, b];
    }
    forall today | InCalendar(today) && WindowExists(today, [a, b], cap)
      ensures CurrentTier(a, [a, b], cap) != CurrentTier(b, [a, b], cap)
    {
      RunningPassIsInRange(today, [a, b], cap);
      assert AsI32(a) == a && AsI32(b) == b;
    }
  }

  // ---- the pass ------------------------------------------------------------------------

  /** A due-dated issue; `dueDay` is its due date as a day number, if the text parses. */
  datatype DueIssue = DueIssue(id: string, dueDate: string, dueDay: Option<int>)

  datatype Deadline = Deadline(id: string, dueDate: string)

  datatype Row = Row(deadline: Deadline, tier: int)

  /** Whether the database answers the lookup, and accepts the insert, made for one issue. */
  datatype Io = Io(lookupOk: bool, writeOk: bool)

  /** A reminder that was sent, and whether the ledger recorded it. */
  datatype Sent = Sent(row: Row, days: int, recorded: bool)

  function DeadlineOf(issue: DueIssue): Deadline {
    Deadline(issue.id, issue.dueDate)
  }

  class Ledger {
    var rows: set<Row>

    constructor ()
      ensures rows == {}
    {
      rows := {};
    }

    /** A failing lookup counts as sent. */
    method AlreadySent(row: Row, lookupOk: bool) returns (sent: bool)
      ensures sent == (!lookupOk || row in rows)
    {
      sent := !lookupOk || row in rows;
    }

    /** The row is the primary key: an insert fails if it is there already. */
    method Record(row: Row, writeOk: bool) returns (ok: bool)
      modifies this
      ensures ok == (writeOk && row !in old(rows))
      ensures rows == if ok then old(rows) + {row} else old(rows)
    {
      ok := writeOk && row !in rows;
      if ok {
        rows := rows + {row};
      }
    }
  }

  /** What one issue adds to the ledger and to the reminders sent. */
  function Visit(rows: set<Row>, issue: DueIssue, today: int, leads: seq<int>, cap: int, io: Io)
    : (set<Row>, seq<Sent>)
  {
    if issue.dueDay.None? then (rows, [])
    else
      var days := issue.dueDay.value - today;
      var tier := CurrentTier(days, leads, cap);
      if tier.None? then (rows, [])
      else
        var row := Row(DeadlineOf(issue), tier.value);
        if !io.lookupOk || row in rows then (rows, [])
        else (if io.writeOk then rows + {row} else rows, [Sent(row, days, io.writeOk)])
  }

  /** The ledger and the reminders sent after visiting `issues` in order. */
  function Pass(
    rows: set<Row>, issues: seq<DueIssue>, today: int, leads: seq<int>, cap: int, io: seq<Io>
  ): (set<Row>, seq<Sent>)
    requires |io| == |issues|
  {
    if issues == [] then (rows, [])
    else
      var (before, sent) := Pass(rows, Init(issues), today, leads, cap, Init(io));
      var (after, more) := Visit(before, Last(issues), today, leads, cap, Last(io));
      (after, sent + more)
  }

  /** What one pass does: nothing at all if its window is no pair of dates. */
  function PassEffect(
    rows: set<Row>, issues: seq<DueIssue>, today: int, leads: seq<int>, cap: int, io: seq<Io>
  ): (set<Row>, seq<Sent>)
    requires |io| == |issues|
  {
    if WindowExists(today, leads, cap) then Pass(rows, issues, today, leads, cap, io) else (rows, [])
  }

  datatype Outcome = Completed | Panicked

  /**
   One pass: computes the window, then fires every applicable tier of the fetched issues (none if the
   fetch failed) that the ledger does not hold.
   */
  method RunPass(ledger: Ledger, issues: seq<DueIssue>, today: int, leads: seq<int>, cap: int, io: seq<Io>)
    returns (outcome: Outcome, sent: seq<Sent>)
    requires |io| == |issues|
    modifies ledger
    ensures outcome == if WindowExists(today, leads, cap) then Completed else Panicked
    ensures (ledger.rows, sent) == PassEffect(old(ledger.rows), issues, today, leads, cap, io)
  {
    sent := [];
    var maxLead := MaxLead(leads);
    var gte, lte := today - cap, today + maxLead;
    if !InCalendar(gte) || !InCalendar(lte) {
      return Panicked, sent;
    }
    for i := 0 to |issues|
      invariant (ledger.rows, sent) == Pass(old(ledger.rows), issues[..i], today, leads, cap, io[..i])
    {
      assert Init(issues[..i + 1]) == issues[..i] && Init(io[..i + 1]) == io[..i];
      assert sent + [] == sent;
      var issue := issues[i];
      if issue.dueDay.None? {
        continue;
      }
      var days := issue.dueDay.value - today;
      var tier := CurrentTier(days, leads, cap);
      if tier.None? {
        continue;
      }
      var row := Row(DeadlineOf(issue), tier.value);
      var already := ledger.AlreadySent(row, io[i].lookupOk);
      if already {
        continue;
      }
      var recorded := ledger.Record(row, io[i].writeOk);
      sent := sent + [Sent(row, days, recorded)];
    }
    assert issues[..|issues|] == issues && io[..|io|] == io;
    return Completed, sent;
  }

  // ---- every history of passes -------------------------------------------------------------

  /** One pass with whatever settings, date, issues and database behaviour it met. */
  datatype Round = Round(today: int, leads: seq<int>, cap: int, issues: seq<DueIssue>, io: seq<Io>)

  predicate WellFormed(rounds: seq<Round>) {
    forall i :: 0 <= i < |rounds| ==> |rounds[i].io| == |rounds[i].issues|
  }

  /** The ledger and all reminders sent after `rounds`, from an empty ledger. */
  function History(rounds: seq<Round>): (set<Row>, seq<Sent>)
    requires WellFormed(rounds)
  {
    if rounds == [] then ({}, [])
    else
      var (rows, sent) := History(Init(rounds));
      var r := Last(rounds);
      var (rows', more) := PassEffect(rows, r.issues, r.today, r.leads, r.cap, r.io);
      (rows', sent + more)
  }

  /** A recorded reminder is never sent again, and its row is in the ledger. */
  ghost predicate OnceRecorded(rows: set<Row>, sent: seq<Sent>) {
    && (forall i :: 0 <= i < |sent| && sent[i].recorded ==> sent[i].row in rows)
    && (forall i, j :: 0 <= i < j < |sent| && sent[i].row == sent[j].row ==> !sent[i].recorded)
  }

  lemma {:induction false} PassKeepsOnce(
    rows: set<Row>, sent: seq<Sent>, issues: seq<DueIssue>, today: int, leads: seq<int>, cap: int, io: seq<Io>)
    requires |io| == |issues| && OnceRecorded(rows, sent)
    ensures var (rows', more) := Pass(rows, issues, today, leads, cap, io); OnceRecorded(rows', sent + more)
  {
    if issues == [] {
      assert sent + [] == sent;
    } else {
      PassKeepsOnce(rows, sent, Init(issues), today, leads, cap, Init(io));
      var (before, some) := Pass(rows, Init(issues), today, leads, cap, Init(io));
      var (after, more) := Visit(before, Last(issues), today, leads, cap, Last(io));
      assert sent + (some + more) == (sent + some) + more;
    }
  }

  /**
   Over every history, with settings, dates and issues changing at will and any database failure:
   a reminder is repeated for the same deadline and tier only if recording the earlier one failed.
   */
  lemma {:induction false} RepeatedOnlyIfUnrecorded(rounds: seq<Round>)
    requires WellFormed(rounds)
    ensures var (rows, sent) := History(rounds); OnceRecorded(rows, sent)
  {
    if rounds != [] {
      RepeatedOnlyIfUnrecorded(Init(rounds));
      var (rows, sent) := History(Init(rounds));
      var r := Last(rounds);
      PassKeepsOnce(rows, sent, r.issues, r.today, r.leads, r.cap, r.io);
      assert sent + [] == sent;
    }
  }

  // ---- the life of one deadline ---------------------------------------------------------------

  /** The tiers sent for one deadline, in order. */
  function TiersOf(sent: seq<Sent>, deadline: Deadline): seq<int> {
    if sent == [] then []
    else if Last(sent).row.deadline == deadline then TiersOf(Init(sent), deadline) + [Last(sent).row.tier]
    else TiersOf(Init(sent), deadline)
  }

  lemma {:induction false} TiersOfAppend(a: seq<Sent>, b: seq<Sent>, deadline: Deadline)
    ensures TiersOf(a + b, deadline) == TiersOf(a, deadline) + TiersOf(b, deadline)
  {
    if b == [] {
      assert a + b == a;
    } else {
      assert Init(a + b) == a + Init(b) && Last(a + b) == Last(b);
      TiersOfAppend(a, Init(b), deadline);
    }
  }

  predicate Present(issues: seq<DueIssue>, deadline: Deadline) {
    exists i :: 0 <= i < |issues| && DeadlineOf(issues[i]) == deadline
  }

  lemma PresentIn(issues: seq<DueIssue>, deadline: Deadline)
    requires issues != []
    ensures Present(issues, deadline) <==> Present(Init(issues), deadline) || DeadlineOf(Last(issues)) == deadline
  {
    assert issues == Init(issues) + [Last(issues)];
  }

  /** The due-date text of the deadline parses to `day`. */
  predicate DatedOn(issues: seq<DueIssue>, deadline: Deadline, day: int) {
    forall i :: 0 <= i < |issues| && DeadlineOf(issues[i]) == deadline ==> issues[i].dueDay == Some(day)
  }

  function Working(n: nat): seq<Io> {
    seq(n, i => Io(true, true))
  }

  /** How a working pass changes what the ledger and the log hold for one deadline. */
  ghost predicate Reminded(
    rows: set<Row>, rows': set<Row>, sent: seq<Sent>, deadline: Deadline, seen: bool, tier: Option<int>)
  {
    && TiersOf(sent, deadline) ==
         (if seen && tier.Some? && Row(deadline, tier.value) !in rows then [tier.value] else [])
    && forall t :: Row(deadline, t) in rows' <==> Row(deadline, t) in rows || (seen && tier == Some(t))
  }

  lemma VisitForDeadline(
    rows: set<Row>, issue: DueIssue, today: int, leads: seq<int>, cap: int, deadline: Deadline, day: int)
    requires DatedOn([issue], deadline, day)
    ensures var (rows', sent) := Visit(rows, issue, today, leads, cap, Io(true, true));
      Reminded(rows, rows', sent, deadline, DeadlineOf(issue) == deadline, CurrentTier(day - today, leads, cap))
  {
    assert [issue][0] == issue;
    var (rows', sent) := Visit(rows, issue, today, leads, cap, Io(true, true));
    assert sent != [] ==> Init(sent) == [];
  }

  lemma RemindedTwice(
    rows: set<Row>, before: set<Row>, some: seq<Sent>, after: set<Row>, more: seq<Sent>,
    deadline: Deadline, seen: bool, again: bool, tier: Option<int>)
    requires Reminded(rows, before, some, deadline, seen, tier) && Reminded(before, after, more, deadline, again, tier)
    ensures Reminded(rows, after, some + more, deadline, seen || again, tier)
  {
    TiersOfAppend(some, more, deadline);
  }

  /** What a pass over working tables does for one deadline, however often the fetch lists it. */
  lemma {:induction false} PassForDeadline(
    rows: set<Row>, issues: seq<DueIssue>, today: int, leads: seq<int>, cap: int,
    deadline: Deadline, day: int, seen: bool)
    returns (rows': set<Row>, sent: seq<Sent>)
    requires DatedOn(issues, deadline, day) && seen == Present(issues, deadline)
    ensures (rows', sent) == Pass(rows, issues, today, leads, cap, Working(|issues|))
    ensures Reminded(rows, rows', sent, deadline, seen, CurrentTier(day - today, leads, cap))
  {
    if issues == [] {
      rows', sent := rows, [];
    } else {
      var p, again := Init(issues), DeadlineOf(Last(issues)) == deadline;
      var before := Present(p, deadline);
      PresentIn(issues, deadline);
      assert Init(Working(|issues|)) == Working(|p|);
      var rows1, some := PassForDeadline(rows, p, today, leads, cap, deadline, day, before);
      var (after, more) := Visit(rows1, Last(issues), today, leads, cap, Io(true, true));
      VisitForDeadline(rows1, Last(issues), today, leads, cap, deadline, day);
      RemindedTwice(rows, rows1, some, after, more, deadline, before, again, CurrentTier(day - today, leads, cap));
      rows', sent := after, some + more;
    }
  }

  /** One scan of the scheduler: the date, and all active due-dated issues of that moment. */
  datatype Scan = Scan(today: int, world: seq<DueIssue>)

  /** The issues due within the queried window. */
  function Fetched(world: seq<DueIssue>, gte: int, lte: int): seq<DueIssue> {
    if world == [] then []
    else
      var rest, issue := Fetched(Init(world), gte, lte), Last(world);
      if issue.dueDay.Some? && gte <= issue.dueDay.value <= lte then rest + [issue] else rest
  }

  /** The issues one scan fetches under fixed settings. */
  function Queried(scan: Scan, leads: seq<int>, cap: int): seq<DueIssue> {
    Fetched(scan.world, scan.today - cap, scan.today + MaxLead(leads))
  }

  /** One scan over working tables. */
  function ScanOnce(rows: set<Row>, scan: Scan, leads: seq<int>, cap: int): (set<Row>, seq<Sent>) {
    var issues := Queried(scan, leads, cap);
    PassEffect(rows, issues, scan.today, leads, cap, Working(|issues|))
  }

  function RoundOf(scan: Scan, leads: seq<int>, cap: int): Round {
    var issues := Queried(scan, leads, cap);
    Round(scan.today, leads, cap, issues, Working(|issues|))
  }

  /** The passes of a scheduler with fixed settings and a working database. */
  function Steady(scans: seq<Scan>, leads: seq<int>, cap: int): (rounds: seq<Round>)
    ensures WellFormed(rounds)
  {
    seq(|scans|, i requires 0 <= i < |scans| => RoundOf(scans[i], leads, cap))
  }

  lemma {:induction false} FetchedKeeps(world: seq<DueIssue>, gte: int, lte: int, deadline: Deadline, day: int)
    requires DatedOn(world, deadline, day)
    ensures DatedOn(Fetched(world, gte, lte), deadline, day)
    ensures Present(Fetched(world, gte, lte), deadline) <==> Present(world, deadline) && gte <= day <= lte
  {
    if world != [] {
      var p, issue := Init(world), Last(world);
      FetchedKeeps(p, gte, lte, deadline, day);
      assert world == p + [issue];
      var rest, all := Fetched(p, gte, lte), Fetched(world, gte, lte);
      if all != rest {
        assert all == rest + [issue];
        assert all[|rest|] == issue;
      }
      if Present(rest, deadline) {
        var i :| 0 <= i < |rest| && DeadlineOf(rest[i]) == deadline;
        assert all[i] == rest[i];
      }
      if DeadlineOf(issue) == deadline {
        assert world[|p|] == issue;
      }
    }
  }

  /** The scan gets as far as fetching, and the deadline is there. */
  predicate Sees(scan: Scan, leads: seq<int>, cap: int, deadline: Deadline) {
    WindowExists(scan.today, leads, cap) && Present(scan.world, deadline)
  }

  /** How far off the deadline was at each scan that saw it, in order. */
  function SeenDays(scans: seq<Scan>, leads: seq<int>, cap: int, deadline: Deadline, day: int): seq<int> {
    if scans == [] then []
    else if Sees(Last(scans), leads, cap, deadline) then
      SeenDays(Init(scans), leads, cap, deadline, day) + [day - Last(scans).today]
    else SeenDays(Init(scans), leads, cap, deadline, day)
  }

  /** The reminders one deadline gets when it is looked at on `days`, each tier at most once. */
  function Fire(days: seq<int>, leads: seq<int>, cap: int): seq<int> {
    if days == [] then [] else FireNext(Fire(Init(days), leads, cap), CurrentTier(Last(days), leads, cap))
  }

  function FireNext(fired: seq<int>, tier: Option<int>): seq<int> {
    if tier.Some? && tier.value !in fired then fired + [tier.value] else fired
  }

  /** A deadline with an applicable tier is fetched whenever it is there; the fetch keeps its dates. */
  lemma FetchSeesTiers(
    scan: Scan, leads: seq<int>, cap: int, deadline: Deadline, day: int, there: bool,
    issues: seq<DueIssue>, tier: Option<int>)
    returns (fetched: bool)
    requires Sane(leads, cap) && DatedOn(scan.world, deadline, day) && there == Present(scan.world, deadline)
    requires issues == Queried(scan, leads, cap) && tier == CurrentTier(day - scan.today, leads, cap)
    ensures DatedOn(issues, deadline, day) && fetched == Present(issues, deadline)
    ensures tier.Some? ==> fetched == there
  {
    fetched := Present(issues, deadline);
    FetchedKeeps(scan.world, scan.today - cap, scan.today + MaxLead(leads), deadline, day);
    if tier.Some? {
      TierInsideWindow(scan.today, day, leads, cap);
    }
  }

  /** Whether a deadline without an applicable tier is fetched makes no difference. */
  lemma UnseenWithoutTier(
    rows: set<Row>, rows': set<Row>, sent: seq<Sent>, deadline: Deadline, seen: bool, seen': bool, tier: Option<int>)
    requires Reminded(rows, rows', sent, deadline, seen, tier) && (tier.Some? ==> seen == seen')
    ensures Reminded(rows, rows', sent, deadline, seen', tier)
  {
  }

  /** A pass does the same for one deadline whether a deadline without a tier was fetched or only `there`. */
  lemma PassForDeadlineThere(
    rows: set<Row>, issues: seq<DueIssue>, today: int, leads: seq<int>, cap: int,
    deadline: Deadline, day: int, fetched: bool, there: bool, tier: Option<int>)
    returns (rows': set<Row>, sent: seq<Sent>)
    requires DatedOn(issues, deadline, day) && fetched == Present(issues, deadline)
    requires tier == CurrentTier(day - today, leads, cap) && (tier.Some? ==> fetched == there)
    ensures (rows', sent) == Pass(rows, issues, today, leads, cap, Working(|issues|))
    ensures Reminded(rows, rows', sent, deadline, there, tier)
  {
    rows', sent := PassForDeadline(rows, issues, today, leads, cap, deadline, day, fetched);
    UnseenWithoutTier(rows, rows', sent, deadline, fetched, there, tier);
  }

  /** What a scan that gets as far as fetching does for one deadline; `there` tells whether it finds it at all. */
  lemma FetchingScanForDeadline(
    rows: set<Row>, scan: Scan, leads: seq<int>, cap: int, deadline: Deadline, day: int, there: bool,
    issues: seq<DueIssue>, tier: Option<int>)
    returns (rows': set<Row>, sent: seq<Sent>)
    requires Sane(leads, cap) && DatedOn(scan.world, deadline, day) && there == Present(scan.world, deadline)
    requires issues == Queried(scan, leads, cap) && tier == CurrentTier(day - scan.today, leads, cap)
    ensures (rows', sent) == Pass(rows, issues, scan.today, leads, cap, Working(|issues|))
    ensures Reminded(rows, rows', sent, deadline, there, tier)
  {
    var fetched := FetchSeesTiers(scan, leads, cap, deadline, day, there, issues, tier);
    rows', sent := PassForDeadlineThere(rows, issues, scan.today, leads, cap, deadline, day, fetched, there, tier);
  }

  lemma ScanForDeadline(
    rows: set<Row>, scan: Scan, leads: seq<int>, cap: int, deadline: Deadline, day: int, seen: bool)
    returns (rows': set<Row>, sent: seq<Sent>)
    requires Sane(leads, cap) && DatedOn(scan.world, deadline, day) && seen == Sees(scan, leads, cap, deadline)
    ensures (rows', sent) == ScanOnce(rows, scan, leads, cap)
    ensures Reminded(rows, rows', sent, deadline, seen, CurrentTier(day - scan.today, leads, cap))
  {
    if WindowExists(scan.today, leads, cap) {
      rows', sent := FetchingScanForDeadline(
        rows, scan, leads, cap, deadline, day, seen,
        Queried(scan, leads, cap), CurrentTier(day - scan.today, leads, cap));
    } else {
      rows', sent := rows, [];
    }
  }

  /** The ledger and the log, or what a history leaves of them. */
  type Record = (set<Row>, seq<Sent>)

  /** The ledger and the log hold for one deadline exactly what firing its distances gives. */
  ghost predicate Matches(record: Record, deadline: Deadline, fired: seq<int>) {
    TiersOf(record.1, deadline) == fired && forall t :: Row(deadline, t) in record.0 <==> t in fired
  }

  lemma MatchesGrows(
    record: Record, rows': set<Row>, more: seq<Sent>, deadline: Deadline,
    fired: seq<int>, seen: bool, tier: Option<int>)
    requires Matches(record, deadline, fired) && Reminded(record.0, rows', more, deadline, seen, tier)
    ensures Matches((rows', record.1 + more), deadline, if seen then FireNext(fired, tier) else fired)
  {
    TiersOfAppend(record.1, more, deadline);
  }

  /** The ledger and the log after one more scan of a steady scheduler. */
  function AfterScan(record: Record, scan: Scan, leads: seq<int>, cap: int): Record {
    var (rows', more) := ScanOnce(record.0, scan, leads, cap);
    (rows', record.1 + more)
  }

  /** The ledger and the log after all scans of a steady scheduler. */
  function RecordOf(scans: seq<Scan>, leads: seq<int>, cap: int): Record {
    if scans == [] then ({}, []) else AfterScan(RecordOf(Init(scans), leads, cap), Last(scans), leads, cap)
  }

  lemma {:induction false} RecordIsHistory(scans: seq<Scan>, leads: seq<int>, cap: int)
    ensures History(Steady(scans, leads, cap)) == RecordOf(scans, leads, cap)
  {
    if scans == [] {
      assert Steady(scans, leads, cap) == [];
    } else {
      RecordIsHistory(Init(scans), leads, cap);
      assert Init(Steady(scans, leads, cap)) == Steady(Init(scans), leads, cap);
    }
  }

  lemma ScanMatches(
    record: Record, next: Record, scan: Scan, leads: seq<int>, cap: int, deadline: Deadline, day: int,
    some: seq<int>, fired: seq<int>, seen: bool, tier: Option<int>)
    requires Sane(leads, cap) && DatedOn(scan.world, deadline, day) && seen == Sees(scan, leads, cap, deadline)
    requires Matches(record, deadline, some) && next == AfterScan(record, scan, leads, cap)
    requires tier == CurrentTier(day - scan.today, leads, cap)
    requires fired == if seen then FireNext(some, tier) else some
    ensures Matches(next, deadline, fired)
  {
    var rows', more := ScanForDeadline(record.0, scan, leads, cap, deadline, day, seen);
    MatchesGrows(record, rows', more, deadline, some, seen, tier);
  }

  lemma SeenDaysGrow(scans: seq<Scan>, leads: seq<int>, cap: int, deadline: Deadline, day: int, days: seq<int>)
    requires scans != [] && days == SeenDays(Init(scans), leads, cap, deadline, day)
    ensures SeenDays(scans, leads, cap, deadline, day) ==
      if Sees(Last(scans), leads, cap, deadline) then days + [day - Last(scans).today] else days
  {
  }

  lemma FireGrows(
    days: seq<int>, days': seq<int>, d: int, seen: bool, some: seq<int>, tier: Option<int>, leads: seq<int>, cap: int)
    requires days' == (if seen then days + [d] else days)
    requires some == Fire(days, leads, cap) && tier == CurrentTier(d, leads, cap)
    ensures Fire(days', leads, cap) == if seen then FireNext(some, tier) else some
  {
    assert Init(days + [d]) == days;
  }

  /** What one more scan adds to the reminders that the distances seen give. */
  lemma SeenFires(
    scans: seq<Scan>, some: seq<int>, leads: seq<int>, cap: int, deadline: Deadline, day: int, tier: Option<int>)
    returns (seen: bool, fired: seq<int>)
    requires scans != [] && some == Fire(SeenDays(Init(scans), leads, cap, deadline, day), leads, cap)
    requires tier == CurrentTier(day - Last(scans).today, leads, cap)
    ensures seen == Sees(Last(scans), leads, cap, deadline)
    ensures fired == Fire(SeenDays(scans, leads, cap, deadline, day), leads, cap)
    ensures fired == if seen then FireNext(some, tier) else some
  {
    seen := Sees(Last(scans), leads, cap, deadline);
    var days, days' := SeenDays(Init(scans), leads, cap, deadline, day), SeenDays(scans, leads, cap, deadline, day);
    SeenDaysGrow(scans, leads, cap, deadline, day, days);
    FireGrows(days, days', day - Last(scans).today, seen, some, tier, leads, cap);
    fired := Fire(days', leads, cap);
  }

  /** Every scan's listing of the deadline parses to `day`. */
  predicate AllDated(scans: seq<Scan>, deadline: Deadline, day: int) {
    forall scan :: scan in scans ==> DatedOn(scan.world, deadline, day)
  }

  lemma LastDated(scans: seq<Scan>, deadline: Deadline, day: int)
    requires AllDated(scans, deadline, day) && scans != []
    ensures AllDated(Init(scans), deadline, day) && DatedOn(Last(scans).world, deadline, day)
  {
    assert Last(scans) in scans && forall scan :: scan in Init(scans) ==> scan in scans;
  }

  /** One more scan keeps the record of a deadline what its distances give. */
  lemma RecordGrows(
    scans: seq<Scan>, before: Record, some: seq<int>, leads: seq<int>, cap: int, deadline: Deadline, day: int)
    returns (record: Record, fired: seq<int>)
    requires Sane(leads, cap) && scans != [] && DatedOn(Last(scans).world, deadline, day)
    requires Matches(before, deadline, some)
    requires some == Fire(SeenDays(Init(scans), leads, cap, deadline, day), leads, cap)
    ensures record == AfterScan(before, Last(scans), leads, cap)
    ensures fired == Fire(SeenDays(scans, leads, cap, deadline, day), leads, cap)
    ensures Matches(record, deadline, fired)
  {
    var scan := Last(scans);
    var tier := CurrentTier(day - scan.today, leads, cap);
    record := AfterScan(before, scan, leads, cap);
    var seen;
    seen, fired := SeenFires(scans, some, leads, cap, deadline, day, tier);
    ScanMatches(before, record, scan, leads, cap, deadline, day, some, fired, seen, tier);
  }

  lemma {:induction false} RecordMatches(
    scans: seq<Scan>, leads: seq<int>, cap: int, deadline: Deadline, day: int)
    returns (record: Record, fired: seq<int>)
    requires Sane(leads, cap) && AllDated(scans, deadline, day)
    ensures record == RecordOf(scans, leads, cap)
    ensures fired == Fire(SeenDays(scans, leads, cap, deadline, day), leads, cap)
    ensures Matches(record, deadline, fired)
  {
    if scans == [] {
      record, fired := ({}, []), [];
    } else {
      LastDated(scans, deadline, day);
      record, fired := RecordMatches(Init(scans), leads, cap, deadline, day);
      record, fired := RecordGrows(scans, record, fired, leads, cap, deadline, day);
    }
  }

  /**
   A scheduler with fixed settings and a working database sends each deadline exactly the reminders
   of its own history of distances, at the scans that did not panic: other issues, the query window
   and the order of issues in a fetch make no difference.
   */
  lemma DeadlineHistory(scans: seq<Scan>, leads: seq<int>, cap: int, deadline: Deadline, day: int)
    requires Sane(leads, cap) && AllDated(scans, deadline, day)
    ensures Matches(History(Steady(scans, leads, cap)), deadline,
                    Fire(SeenDays(scans, leads, cap, deadline, day), leads, cap))
  {
    RecordIsHistory(scans, leads, cap);
    var record, fired := RecordMatches(scans, leads, cap, deadline, day);
  }

  // ---- which tiers ever fire --------------------------------------------------------------------

  lemma {:induction false} FireMembers(days: seq<int>, leads: seq<int>, cap: int)
    ensures forall t :: t in Fire(days, leads, cap) <==> exists d :: d in days && CurrentTier(d, leads, cap) == Some(t)
    ensures NoDup(Fire(days, leads, cap))
  {
    if days != [] {
      FireMembers(Init(days), leads, cap);
      assert days == Init(days) + [Last(days)];
      var tier := CurrentTier(Last(days), leads, cap);
      assert forall d :: d in days <==> d in Init(days) || d == Last(days);
    }
  }

  ghost predicate Descending(s: seq<int>) {
    forall i, j :: 0 <= i < j < |s| ==> s[i] > s[j]
  }

  ghost predicate NonIncreasing(s: seq<int>) {
    forall i, j :: 0 <= i < j < |s| ==> s[i] >= s[j]
  }

  /** However irregular the passes: as the deadline nears, the tiers sent for it strictly decrease. */
  lemma {:induction false} TiersStrictlyDecrease(days: seq<int>, leads: seq<int>, cap: int)
    requires Cadence(leads, cap) && NonIncreasing(days)
    ensures Descending(Fire(days, leads, cap))
  {
    if days != [] {
      var p, d := Init(days), Last(days);
      TiersStrictlyDecrease(p, leads, cap);
      var fired, tier := Fire(p, leads, cap), CurrentTier(d, leads, cap);
      if tier.Some? && tier.value !in fired {
        forall i | 0 <= i < |fired| ensures fired[i] > tier.value {
          FiredIsHigher(p, d, fired[i], tier.value, leads, cap);
        }
      }
    }
  }

  /** The distance that fired a tier. */
  lemma {:induction false} FiredBy(days: seq<int>, t: int, leads: seq<int>, cap: int) returns (e: int)
    requires t in Fire(days, leads, cap)
    ensures e in days && CurrentTier(e, leads, cap) == Some(t)
  {
    assert days == Init(days) + [Last(days)];
    if t in Fire(Init(days), leads, cap) {
      e := FiredBy(Init(days), t, leads, cap);
    } else {
      e := Last(days);
    }
  }

  lemma FiredIsHigher(days: seq<int>, d: int, t: int, next: int, leads: seq<int>, cap: int)
    requires InRange(leads, cap) && (forall e :: e in days ==> d <= e)
    requires t in Fire(days, leads, cap) && t != next && CurrentTier(d, leads, cap) == Some(next)
    ensures t > next
  {
    var e := FiredBy(days, t, leads, cap);
    TierMonotone(d, e, leads, cap);
  }

  function OverdueDays(cap: nat): (days: set<int>)
    ensures |days| == cap && forall d :: d in days <==> 0 - cap <= d < 0
  {
    if cap == 0 then {} else OverdueDays(cap - 1) + {0 - cap}
  }

  lemma {:induction false} DistinctCount(s: seq<int>, bound: set<int>)
    requires NoDup(s) && forall x :: x in s ==> x in bound
    ensures |s| <= |bound|
  {
    if s != [] {
      var last := s[|s| - 1];
      assert last in s && last in bound;
      DistinctCount(s[..|s| - 1], bound - {last});
    }
  }

  /** A deadline gets at most one reminder for each distinct lead and each overdue day up to the cap. */
  lemma RemindersBounded(days: seq<int>, leads: seq<int>, cap: int)
    requires Cadence(leads, cap)
    ensures |Fire(days, leads, cap)| <= |set l | l in leads| + cap
  {
    FireMembers(days, leads, cap);
    var distinct := set l | l in leads;
    var bound := distinct + OverdueDays(cap);
    forall t | t in Fire(days, leads, cap) ensures t in bound {
      var d :| d in days && CurrentTier(d, leads, cap) == Some(t);
      TierIsLeadOrDay(d, t, leads, cap);
    }
    DistinctCount(Fire(days, leads, cap), bound);
    assert |bound| <= |distinct| + cap;
  }

  lemma TierIsLeadOrDay(d: int, t: int, leads: seq<int>, cap: int)
    requires Cadence(leads, cap) && CurrentTier(d, leads, cap) == Some(t)
    ensures t in leads || -cap <= t < 0
  {
  }

  /** The tiers a deadline first seen `first` days ahead should be reminded of. */
  ghost predicate Expected(t: int, first: int, leads: seq<int>, cap: int) {
    || (first >= 0 && SmallestLead(leads, first) == Some(t))
    || (t in leads && 0 <= t < first)
    || (-cap <= t < 0 && t <= first)
  }

  /**
   With at least one look a day from first sight, `first` days ahead, until past the cap, the tiers
   that fire are exactly: the smallest lead not below `first`, every lead below it, and every overdue
   day from first sight up to the cap; each exactly once.
   */
  lemma ExactTiers(days: seq<int>, first: int, leads: seq<int>, cap: int)
    requires Cadence(leads, cap)
    requires forall d :: d in days ==> d <= first
    requires forall d :: -cap <= d <= first ==> d in days
    ensures forall t :: t in Fire(days, leads, cap) <==> Expected(t, first, leads, cap)
    ensures NoDup(Fire(days, leads, cap))
  {
    FireMembers(days, leads, cap);
    forall t | t in Fire(days, leads, cap) ensures Expected(t, first, leads, cap) {
      var d :| d in days && CurrentTier(d, leads, cap) == Some(t);
      FiredIsExpected(d, t, first, leads, cap);
    }
    forall t | Expected(t, first, leads, cap) ensures t in Fire(days, leads, cap) {
      var d := ExpectedFires(t, first, leads, cap);
    }
  }

  lemma ExpectedFires(t: int, first: int, leads: seq<int>, cap: int) returns (d: int)
    requires Cadence(leads, cap) && Expected(t, first, leads, cap)
    ensures -cap <= d <= first && CurrentTier(d, leads, cap) == Some(t)
  {
    d := if first >= 0 && SmallestLead(leads, first) == Some(t) then first else t;
  }

  lemma FiredIsExpected(d: int, t: int, first: int, leads: seq<int>, cap: int)
    requires Cadence(leads, cap) && d <= first && CurrentTier(d, leads, cap) == Some(t)
    ensures Expected(t, first, leads, cap)
  {
    if d >= 0 && t >= first {
      assert SmallestLead(leads, first).Some?;
      assert SmallestLead(leads, first).value in leads;
    }
  }

  // ---- the reminders actually sent -----------------------------------------------------------

  /** As far as any scan saw the deadline, the cadence's numbers are small. */
  lemma {:induction false} SeenMeansInRange(
    scans: seq<Scan>, leads: seq<int>, cap: int, deadline: Deadline, day: int)
    requires forall scan :: scan in scans ==> InCalendar(scan.today)
    requires SeenDays(scans, leads, cap, deadline, day) != []
    ensures InRange(leads, cap)
  {
    assert scans == Init(scans) + [Last(scans)];
    if Sees(Last(scans), leads, cap, deadline) {
      assert Last(scans) in scans;
      RunningPassIsInRange(Last(scans).today, leads, cap);
    } else {
      SeenMeansInRange(Init(scans), leads, cap, deadline, day);
    }
  }

  /**
   For every cadence the settings can hold, irregular scans and a working database: with dates that
   never go back the tiers sent for a deadline strictly decrease and are bounded in number.
   */
  lemma RemindersDescend(scans: seq<Scan>, leads: seq<int>, cap: int, deadline: Deadline, day: int)
    requires Sane(leads, cap) && forall scan :: scan in scans ==> InCalendar(scan.today)
    requires AllDated(scans, deadline, day)
    requires NonIncreasing(SeenDays(scans, leads, cap, deadline, day))
    ensures var tiers := TiersOf(History(Steady(scans, leads, cap)).1, deadline);
      Descending(tiers) && |tiers| <= |set l | l in leads| + cap
  {
    var days := SeenDays(scans, leads, cap, deadline, day);
    DeadlineHistory(scans, leads, cap, deadline, day);
    if days != [] {
      SeenMeansInRange(scans, leads, cap, deadline, day);
      TiersStrictlyDecrease(days, leads, cap);
      RemindersBounded(days, leads, cap);
    }
  }

  /**
   All of it together, for every cadence the settings can hold: steady settings, a working database,
   dates that never go back, any other issues around, and the deadline seen at least once a day from
   `first` days ahead until past the cap by a scan whose window exists.
   */
  lemma DeadlineRemindedExactly(
    scans: seq<Scan>, leads: seq<int>, cap: int, deadline: Deadline, day: int, first: int)
    requires Sane(leads, cap) && forall scan :: scan in scans ==> InCalendar(scan.today)
    requires AllDated(scans, deadline, day)
    requires NonIncreasing(SeenDays(scans, leads, cap, deadline, day))
    requires forall d :: d in SeenDays(scans, leads, cap, deadline, day) ==> d <= first
    requires forall d :: -cap <= d <= first ==> d in SeenDays(scans, leads, cap, deadline, day)
    ensures var tiers := TiersOf(History(Steady(scans, leads, cap)).1, deadline);
      && Descending(tiers)
      && (forall t :: t in tiers <==> Expected(t, first, leads, cap))
      && |tiers| <= |set l | l in leads| + cap
  {
    var days := SeenDays(scans, leads, cap, deadline, day);
    RemindersDescend(scans, leads, cap, deadline, day);
    DeadlineHistory(scans, leads, cap, deadline, day);
    if days != [] {
      SeenMeansInRange(scans, leads, cap, deadline, day);
      ExactTiers(days, first, leads, cap);
    } else {
      assert first < -cap || first in days;
    }
  }

  /** Where the window exists on no date a scan runs, nobody is ever reminded of anything. */
  lemma {:induction false} NoWindowNoReminders(scans: seq<Scan>, leads: seq<int>, cap: int)
    requires forall scan :: scan in scans ==> !WindowExists(scan.today, leads, cap)
    ensures History(Steady(scans, leads, cap)) == ({}, [])
  {
    RecordIsHistory(scans, leads, cap);
    if scans != [] {
      assert Last(scans) in scans && scans == Init(scans) + [Last(scans)];
      NoWindowNoReminders(Init(scans), leads, cap);
      RecordIsHistory(Init(scans), leads, cap);
      var none: seq<Sent> := [];
      assert none + none == none && AfterScan(({}, none), Last(scans), leads, cap) == ({}, none);
    }
  }

  /** A cap or a lead longer than the whole calendar silences every reminder for good. */
  lemma HugeCadenceSilences(scans: seq<Scan>, leads: seq<int>, cap: int)
    requires Sane(leads, cap) && forall scan :: scan in scans ==> InCalendar(scan.today)
    requires cap > MAX_DAY - MIN_DAY || exists l :: l in leads && l > MAX_DAY - MIN_DAY
    ensures History(Steady(scans, leads, cap)) == ({}, [])
  {
    MaxLeadBounds(leads);
    NoWindowNoReminders(scans, leads, cap);
  }
}
