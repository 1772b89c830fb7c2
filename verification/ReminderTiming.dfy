/**
 When the reminder passes run: a loop that sleeps for the configured interval between passes, and the
 dates it looks at in the configured time zone.
 */
module ReminderTiming {
  import opened Sequences
  import opened Reminders
  import opened StandupSchedule

  /** Passes never start earlier than the one before, and at most `gap` later: the sleep, its lateness and the pass. */
  ghost predicate Spaced(times: seq<int>, gap: int) {
    forall k :: 0 < k < |times| ==> times[k - 1] <= times[k] <= times[k - 1] + gap
  }

  /** No stretch of `span` reaches from one date over a whole other date into a third. */
  ghost predicate NoDateWithin(zone: Zone, span: int) {
    forall s, t :: s <= t <= s + span ==> DateOf(zone, t) <= DateOf(zone, s) + 1
  }

  predicate LookedAt(zone: Zone, times: seq<int>, date: int) {
    exists k :: 0 <= k < |times| && DateOf(zone, times[k]) == date
  }

  /** Every date from the first pass's to the last one's has a pass. */
  ghost predicate LooksDaily(zone: Zone, times: seq<int>) {
    times != [] ==>
      forall date :: DateOf(zone, times[0]) <= date <= DateOf(zone, Last(times)) ==> LookedAt(zone, times, date)
  }

  lemma {:induction false} SpacedLooksDaily(zone: Zone, times: seq<int>, gap: int, date: int)
    requires Spaced(times, gap) && NoDateWithin(zone, gap) && times != []
    requires DateOf(zone, times[0]) <= date <= DateOf(zone, Last(times))
    ensures LookedAt(zone, times, date)
  {
    if |times| > 1 && DateOf(zone, Last(times)) != date {
      var p := Init(times);
      assert DateOf(zone, Last(times)) <= DateOf(zone, Last(p)) + 1;
      SpacedLooksDaily(zone, p, gap, date);
      var k :| 0 <= k < |p| && DateOf(zone, p[k]) == date;
      assert times[k] == p[k];
    } else {
      assert DateOf(zone, Last(times)) == date;
    }
  }

  /** Passes at most `gap` apart look at every date, however they fall, exactly if no date fits within `gap`. */
  lemma LooksDailyIff(zone: Zone, gap: int)
    ensures (forall times: seq<int> :: Spaced(times, gap) ==> LooksDaily(zone, times)) <==> NoDateWithin(zone, gap)
  {
    if NoDateWithin(zone, gap) {
      forall times: seq<int> | Spaced(times, gap) ensures LooksDaily(zone, times) {
        if times != [] {
          forall date | DateOf(zone, times[0]) <= date <= DateOf(zone, Last(times))
            ensures LookedAt(zone, times, date)
          {
            SpacedLooksDaily(zone, times, gap, date);
          }
        }
      }
    } else {
      var times := SkippedDate(zone, gap);
    }
  }

  lemma SkippedDate(zone: Zone, gap: int) returns (times: seq<int>)
    requires !NoDateWithin(zone, gap)
    ensures Spaced(times, gap) && !LooksDaily(zone, times)
  {
    var s, t :| s <= t <= s + gap && DateOf(zone, t) > DateOf(zone, s) + 1;
    times := [s, t];
    assert !LookedAt(zone, times, DateOf(zone, s) + 1);
  }

  /** The wall clock gains at most `gain` on the time that passes within a day. */
  ghost predicate GainsAtMost(zone: Zone, gain: int) {
    forall s, t :: s <= t <= s + DAY ==> zone.local(t) <= zone.local(s) + (t - s) + gain
  }

  /**
   An interval of `hours` between passes, each of which may start up to `late` behind it, looks at every date
   if both, and what the clock may gain, fit in 24 hours: 24 hours in a zone without daylight saving time if
   nothing is ever late, and up to 22 with less than an hour's delay where the clock gains an hour.
   */
  lemma ShortIntervalsLookDaily(zone: Zone, hours: nat, late: int, gain: int, times: seq<int>)
    requires GainsAtMost(zone, gain) && 0 <= late && 0 <= gain && hours * HOUR + late + gain <= DAY
    requires Spaced(times, hours * HOUR + late)
    ensures LooksDaily(zone, times)
  {
    DatesLast(zone, hours * HOUR + late, gain);
    LooksDailyIff(zone, hours * HOUR + late);
  }

  lemma DatesLast(zone: Zone, span: int, gain: int)
    requires GainsAtMost(zone, gain) && 0 <= gain && span + gain <= DAY
    ensures NoDateWithin(zone, span)
  {
    forall s, t | s <= t <= s + span ensures DateOf(zone, t) <= DateOf(zone, s) + 1 {
      DateAfterADay(zone.local(s), zone.local(t));
    }
  }

  lemma DateAfterADay(v: int, w: int)
    requires w <= v + DAY
    ensures w / DAY <= v / DAY + 1
  {
  }

  /** The scans of a steady scheduler that passes at `times` and finds the deadline each time. */
  ghost predicate ScansAt(
    zone: Zone, times: seq<int>, scans: seq<Scan>, leads: seq<int>, cap: int, deadline: Deadline)
  {
    && |scans| == |times|
    && forall k :: 0 <= k < |scans| ==>
      && scans[k].today == DateOf(zone, times[k]) && InCalendar(scans[k].today)
      && Sees(scans[k], leads, cap, deadline)
  }

  lemma {:induction false} SeenAtEachPass(
    zone: Zone, times: seq<int>, scans: seq<Scan>, leads: seq<int>, cap: int, deadline: Deadline, day: int)
    requires ScansAt(zone, times, scans, leads, cap, deadline)
    ensures var days := SeenDays(scans, leads, cap, deadline, day);
      |days| == |times| && forall k :: 0 <= k < |times| ==> days[k] == day - DateOf(zone, times[k])
  {
    if scans != [] {
      SeenAtEachPass(zone, Init(times), Init(scans), leads, cap, deadline, day);
    }
  }

  lemma DatesFall(zone: Zone, times: seq<int>, gap: int, i: nat, j: nat)
    requires Spaced(times, gap) && DatesNeverGoBack(zone) && i <= j < |times|
    ensures DateOf(zone, times[i]) <= DateOf(zone, times[j])
  {
    if i < j {
      DatesFall(zone, times, gap, i, j - 1);
    }
  }

  /**
   The reminders of a deadline, from the time between passes: in a zone whose dates never go back and where
   none fits between two passes, a deadline that is there at every pass from `first` days ahead until past
   the cap is sent exactly the tiers it should be.
   */
  lemma SpacedPassesRemindExactly(
    zone: Zone, times: seq<int>, gap: int, scans: seq<Scan>, leads: seq<int>, cap: int,
    deadline: Deadline, day: int, first: int)
    requires Sane(leads, cap) && AllDated(scans, deadline, day)
    requires DatesNeverGoBack(zone) && NoDateWithin(zone, gap) && Spaced(times, gap) && times != []
    requires ScansAt(zone, times, scans, leads, cap, deadline)
    requires DateOf(zone, times[0]) == day - first && DateOf(zone, Last(times)) >= day + cap
    ensures var tiers := TiersOf(History(Steady(scans, leads, cap)).1, deadline);
      Descending(tiers) && forall t :: t in tiers <==> Expected(t, first, leads, cap)
  {
    var days := SeenDays(scans, leads, cap, deadline, day);
    SeenAtEachPass(zone, times, scans, leads, cap, deadline, day);
    SeenDaysNonIncreasing(zone, times, gap, days, day);
    SeenEachDay(zone, times, gap, days, day, first, cap);
    forall scan | scan in scans ensures InCalendar(scan.today) {
      var k :| 0 <= k < |scans| && scans[k] == scan;
    }
    DeadlineRemindedExactly(scans, leads, cap, deadline, day, first);
  }

  lemma SeenDaysNonIncreasing(zone: Zone, times: seq<int>, gap: int, days: seq<int>, day: int)
    requires Spaced(times, gap) && DatesNeverGoBack(zone) && |days| == |times|
    requires forall k :: 0 <= k < |times| ==> days[k] == day - DateOf(zone, times[k])
    ensures NonIncreasing(days)
    ensures forall d :: d in days ==> d <= day - DateOf(zone, times[0])
  {
    forall i, j | 0 <= i < j < |days| ensures days[i] >= days[j] {
      DatesFall(zone, times, gap, i, j);
    }
    forall d | d in days ensures d <= day - DateOf(zone, times[0]) {
      var k :| 0 <= k < |days| && days[k] == d;
      DatesFall(zone, times, gap, 0, k);
    }
  }

  lemma SeenEachDay(zone: Zone, times: seq<int>, gap: int, days: seq<int>, day: int, first: int, cap: int)
    requires Spaced(times, gap) && NoDateWithin(zone, gap) && times != [] && |days| == |times|
    requires forall k :: 0 <= k < |times| ==> days[k] == day - DateOf(zone, times[k])
    requires DateOf(zone, times[0]) == day - first && DateOf(zone, Last(times)) >= day + cap
    ensures forall d :: -cap <= d <= first ==> d in days
  {
    forall d | -cap <= d <= first ensures d in days {
      SpacedLooksDaily(zone, times, gap, day - d);
      var k :| 0 <= k < |times| && DateOf(zone, times[k]) == day - d;
      assert days[k] == d;
    }
  }
}
