/**
 The reminders of any history told without the ledger: each look at an issue, in order, and what is sent
 for it given only what was sent before.
 */
module ReminderLog {
  import opened Sequences
  import opened Reminders

  /** One look at an issue to which a tier applies: how far off it is, and how the database answers. */
  datatype Look = Look(deadline: Deadline, days: int, tier: int, io: Io)

  function LooksAt(issues: seq<DueIssue>, today: int, leads: seq<int>, cap: int, io: seq<Io>): seq<Look>
    requires |io| == |issues|
  {
    if issues == [] then []
    else
      var before, issue := LooksAt(Init(issues), today, leads, cap, Init(io)), Last(issues);
      if issue.dueDay.None? then before
      else
        var days := issue.dueDay.value - today;
        match CurrentTier(days, leads, cap)
        case None => before
        case Some(tier) => before + [Look(Deadline(issue.id, issue.dueDate), days, tier, Last(io))]
  }

  /** The looks of all rounds that got past their window, in order. */
  function Looks(rounds: seq<Round>): seq<Look>
    requires WellFormed(rounds)
  {
    if rounds == [] then []
    else
      var r := Last(rounds);
      Looks(Init(rounds))
      + if WindowExists(r.today, r.leads, r.cap) then LooksAt(r.issues, r.today, r.leads, r.cap, r.io) else []
  }

  predicate Recorded(sent: seq<Sent>, row: Row) {
    exists i :: 0 <= i < |sent| && sent[i].recorded && sent[i].row == row
  }

  /** What is sent for `looks` after `sent`: a look fires if it can be looked up and was not recorded before. */
  function Fired(sent: seq<Sent>, looks: seq<Look>): seq<Sent> {
    if looks == [] then sent
    else
      var before, look := Fired(sent, Init(looks)), Last(looks);
      var row := Row(look.deadline, look.tier);
      if look.io.lookupOk && !Recorded(before, row) then before + [Sent(row, look.days, look.io.writeOk)] else before
  }

  lemma {:induction false} FiredAppend(sent: seq<Sent>, a: seq<Look>, b: seq<Look>)
    ensures Fired(sent, a + b) == Fired(Fired(sent, a), b)
  {
    if b == [] {
      assert a + b == a;
    } else {
      assert Init(a + b) == a + Init(b) && Last(a + b) == Last(b);
      FiredAppend(sent, a, Init(b));
    }
  }

  /** The ledger holds exactly what was recorded. */
  ghost predicate Holds(rows: set<Row>, sent: seq<Sent>) {
    forall row :: row in rows <==> Recorded(sent, row)
  }

  lemma RecordedGrows(sent: seq<Sent>, s: Sent, row: Row)
    ensures Recorded(sent + [s], row) <==> Recorded(sent, row) || (s.recorded && s.row == row)
  {
    var all := sent + [s];
    assert all[|sent|] == s;
    if i :| 0 <= i < |sent| && sent[i].recorded && sent[i].row == row {
      assert all[i] == sent[i];
    }
  }

  lemma HoldsGrows(rows: set<Row>, sent: seq<Sent>, s: Sent)
    requires Holds(rows, sent)
    ensures Holds(if s.recorded then rows + {s.row} else rows, sent + [s])
  {
    forall row ensures row in (if s.recorded then rows + {s.row} else rows) <==> Recorded(sent + [s], row) {
      RecordedGrows(sent, s, row);
    }
  }

  lemma FiredOne(sent: seq<Sent>, look: Look)
    ensures Fired(sent, [look]) ==
      if look.io.lookupOk && !Recorded(sent, Row(look.deadline, look.tier))
      then sent + [Sent(Row(look.deadline, look.tier), look.days, look.io.writeOk)] else sent
  {
    assert Init([look]) == [];
  }

  lemma LooksAtOne(issue: DueIssue, today: int, leads: seq<int>, cap: int, io: Io, days: int, tier: Option<int>)
    requires issue.dueDay.Some? ==> days == issue.dueDay.value - today && tier == CurrentTier(days, leads, cap)
    ensures LooksAt([issue], today, leads, cap, [io]) ==
      if issue.dueDay.Some? && tier.Some?
      then [Look(Deadline(issue.id, issue.dueDate), days, tier.value, io)] else []
  {
    assert Init([issue]) == [] && Init([io]) == [];
  }

  lemma LookFires(rows: set<Row>, sent: seq<Sent>, look: Look, row: Row, rows': set<Row>, more: seq<Sent>)
    requires Holds(rows, sent) && row == Row(look.deadline, look.tier)
    requires (rows', more) ==
      if !look.io.lookupOk || row in rows then (rows, [])
      else (if look.io.writeOk then rows + {row} else rows, [Sent(row, look.days, look.io.writeOk)])
    ensures Holds(rows', sent + more) && sent + more == Fired(sent, [look])
  {
    FiredOne(sent, look);
    HoldsGrows(rows, sent, Sent(row, look.days, look.io.writeOk));
    assert sent + [] == sent;
  }

  /** One look, through the ledger and without it. */
  lemma VisitFires(rows: set<Row>, sent: seq<Sent>, issue: DueIssue, today: int, leads: seq<int>, cap: int, io: Io)
    requires Holds(rows, sent)
    ensures var (rows', more) := Visit(rows, issue, today, leads, cap, io);
      Holds(rows', sent + more) && sent + more == Fired(sent, LooksAt([issue], today, leads, cap, [io]))
  {
    var days := if issue.dueDay.Some? then issue.dueDay.value - today else 0;
    var tier := CurrentTier(days, leads, cap);
    var (rows', more) := Visit(rows, issue, today, leads, cap, io);
    LooksAtOne(issue, today, leads, cap, io, days, tier);
    if issue.dueDay.Some? && tier.Some? {
      var deadline := Deadline(issue.id, issue.dueDate);
      LookFires(rows, sent, Look(deadline, days, tier.value, io), Row(deadline, tier.value), rows', more);
    } else {
      assert sent + [] == sent;
    }
  }

  lemma LooksAtLast(issues: seq<DueIssue>, today: int, leads: seq<int>, cap: int, io: seq<Io>)
    requires |io| == |issues| && issues != []
    ensures LooksAt(issues, today, leads, cap, io)
         == LooksAt(Init(issues), today, leads, cap, Init(io)) + LooksAt([Last(issues)], today, leads, cap, [Last(io)])
  {
    assert Init([Last(issues)]) == [] && Init([Last(io)]) == [];
  }

  lemma {:induction false} PassFires(
    rows: set<Row>, sent: seq<Sent>, issues: seq<DueIssue>, today: int, leads: seq<int>, cap: int, io: seq<Io>)
    requires |io| == |issues| && Holds(rows, sent)
    ensures var (rows', more) := Pass(rows, issues, today, leads, cap, io);
      Holds(rows', sent + more) && sent + more == Fired(sent, LooksAt(issues, today, leads, cap, io))
  {
    if issues == [] {
      assert sent + [] == sent;
    } else {
      PassFires(rows, sent, Init(issues), today, leads, cap, Init(io));
      var (before, some) := Pass(rows, Init(issues), today, leads, cap, Init(io));
      var (after, more) := Visit(before, Last(issues), today, leads, cap, Last(io));
      VisitFires(before, sent + some, Last(issues), today, leads, cap, Last(io));
      assert sent + (some + more) == (sent + some) + more;
      LooksAtLast(issues, today, leads, cap, io);
      FiredAppend(
        sent, LooksAt(Init(issues), today, leads, cap, Init(io)),
        LooksAt([Last(issues)], today, leads, cap, [Last(io)]));
    }
  }

  /**
   Over every history, with settings, dates, issues and failures changing at will: the reminders sent are
   those of the ledger-free reference, and the ledger holds exactly what was recorded.
   */
  lemma {:induction false} HistoryFires(rounds: seq<Round>)
    requires WellFormed(rounds)
    ensures var (rows, sent) := History(rounds); sent == Fired([], Looks(rounds)) && Holds(rows, sent)
  {
    if rounds != [] {
      HistoryFires(Init(rounds));
      var (rows, sent) := History(Init(rounds));
      var r := Last(rounds);
      assert sent + [] == sent && Looks(Init(rounds)) + [] == Looks(Init(rounds));
      PassFires(rows, sent, r.issues, r.today, r.leads, r.cap, r.io);
      FiredAppend([], Looks(Init(rounds)), LooksAt(r.issues, r.today, r.leads, r.cap, r.io));
    }
  }

  // ---- what a reminder says ------------------------------------------------------------------------

  /** The reminder is for this issue, says how far off it is on that date, and carries the tier that applies. */
  predicate IsAbout(s: Sent, issue: DueIssue, r: Round) {
    && s.row.deadline.id == issue.id && s.row.deadline.dueDate == issue.dueDate
    && issue.dueDay == Some(r.today + s.days)
    && CurrentTier(s.days, r.leads, r.cap) == Some(s.row.tier)
  }

  ghost predicate Stems(s: Sent, rounds: seq<Round>) {
    exists r, issue :: r in rounds && issue in r.issues && WindowExists(r.today, r.leads, r.cap) && IsAbout(s, issue, r)
  }

  lemma {:induction false} PassStems(
    rows: set<Row>, issues: seq<DueIssue>, r: Round, io: seq<Io>, s: Sent) returns (issue: DueIssue)
    requires |io| == |issues| && s in Pass(rows, issues, r.today, r.leads, r.cap, io).1
    ensures issue in issues && IsAbout(s, issue, r)
  {
    assert issues == Init(issues) + [Last(issues)];
    if s in Pass(rows, Init(issues), r.today, r.leads, r.cap, Init(io)).1 {
      issue := PassStems(rows, Init(issues), r, Init(io), s);
    } else {
      issue := Last(issues);
    }
  }

  /** Every reminder ever sent is about an issue that its round fetched, with the days left on that round's date. */
  lemma {:induction false} SentStems(rounds: seq<Round>, s: Sent)
    requires WellFormed(rounds) && s in History(rounds).1
    ensures Stems(s, rounds)
  {
    var p, r := Init(rounds), Last(rounds);
    assert rounds == p + [r];
    if s in History(p).1 {
      SentStems(p, s);
      var q, issue :|
        q in p && issue in q.issues && WindowExists(q.today, q.leads, q.cap) && IsAbout(s, issue, q);
      assert q in rounds;
    } else {
      var issue := PassStems(History(p).0, r.issues, r, r.io, s);
      assert r in rounds;
    }
  }
}
