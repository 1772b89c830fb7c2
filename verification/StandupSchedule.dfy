/**
 When a standup job fires: the next trigger instant in a time zone, the wait until it, and the loop of
 waiting, firing and pausing. Instants and wall-clock times are nanoseconds; a date is a day number.
 */
module StandupSchedule {
  import opened Sequences

  const SECOND: int := 1_000_000_000
  const HOUR: int := 3600 * SECOND
  const DAY: int := 24 * HOUR
  const FALLBACK: int := 60 * SECOND
  const PAUSE: int := 5 * SECOND

  /** The wall clock at an instant, and the earliest instant at which the wall clock shows a time. */
  datatype Zone = Zone(local: int -> int, earliest: int -> Option<int>)

  ghost predicate WellFormed(zone: Zone) {
    forall w, t :: zone.local(t) == w ==> zone.earliest(w).Some? && zone.earliest(w).value <= t
  }

  ghost predicate EarliestIsReal(zone: Zone) {
    forall w :: zone.earliest(w).Some? ==> zone.local(zone.earliest(w).value) == w
  }

  function DateOf(zone: Zone, t: int): int {
    zone.local(t) / DAY
  }

  /** Midnight of the epoch stands in for a time of day that does not exist. */
  function WallClock(date: int, hour: nat, minute: nat): int {
    if hour < 24 && minute < 60 then date * DAY + hour * HOUR + minute * 60 * SECOND else 0
  }

  /** The trigger instant of a date: an hour later inside a gap, and the bumped time as UTC inside a longer one. */
  function LocalInstant(zone: Zone, date: int, hour: nat, minute: nat): int {
    var wall := WallClock(date, hour, minute);
    if zone.earliest(wall).Some? then zone.earliest(wall).value
    else if zone.earliest(wall + HOUR).Some? then zone.earliest(wall + HOUR).value
    else wall + HOUR
  }

  /** The date whose trigger a computation at `now` aims at. */
  function TriggerDate(zone: Zone, now: int, hour: nat, minute: nat): int {
    if LocalInstant(zone, DateOf(zone, now), hour, minute) <= now then DateOf(zone, now) + 1 else DateOf(zone, now)
  }

  function Target(zone: Zone, now: int, hour: nat, minute: nat): int {
    LocalInstant(zone, TriggerDate(zone, now, hour, minute), hour, minute)
  }

  method DurationUntil(zone: Zone, now: int, hour: nat, minute: nat) returns (wait: int)
    ensures wait >= 0
    ensures now <= Target(zone, now, hour, minute) ==> now + wait == Target(zone, now, hour, minute)
    ensures Target(zone, now, hour, minute) < now ==> wait == 60_000_000_000
    ensures wait == Wait(zone, now, hour, minute)
  {
    var target := LocalInstant(zone, DateOf(zone, now), hour, minute);
    if target <= now {
      target := LocalInstant(zone, DateOf(zone, now) + 1, hour, minute);
    }
    wait := if target >= now then target - now else FALLBACK;
  }

  function Wait(zone: Zone, now: int, hour: nat, minute: nat): int {
    var target := Target(zone, now, hour, minute);
    if target >= now then target - now else FALLBACK
  }

  /** Tomorrow's trigger follows every instant of today. */
  ghost predicate TomorrowFollowsToday(zone: Zone, hour: nat, minute: nat) {
    forall t :: t < LocalInstant(zone, DateOf(zone, t) + 1, hour, minute)
  }

  /** The wait is positive and ends at a trigger exactly when the aimed-at trigger lies ahead. */
  lemma WaitIsPositiveIff(zone: Zone, now: int, hour: nat, minute: nat)
    ensures (Wait(zone, now, hour, minute) > 0
             && now + Wait(zone, now, hour, minute) == Target(zone, now, hour, minute)) <==>
      (now < LocalInstant(zone, DateOf(zone, now), hour, minute)
       || now < LocalInstant(zone, DateOf(zone, now) + 1, hour, minute))
  {
  }

  // ---- zones in which tomorrow follows today ---------------------------------------------------

  ghost predicate DatesNeverGoBack(zone: Zone) {
    forall s, t :: s <= t ==> DateOf(zone, s) <= DateOf(zone, t)
  }

  /** Every wall-clock time missing from the zone is back within an hour. */
  ghost predicate GapsAtMostAnHour(zone: Zone) {
    forall w :: zone.earliest(w).None? ==> zone.earliest(w + HOUR).Some?
  }

  /** Daylight-saving gaps and overlaps are covered: neither moves a date back nor skips more than an hour. */
  lemma OrdinaryZonesAreSafe(zone: Zone, hour: nat, minute: nat)
    requires EarliestIsReal(zone) && DatesNeverGoBack(zone) && GapsAtMostAnHour(zone)
    requires hour < 24 && minute < 60
    ensures TomorrowFollowsToday(zone, hour, minute)
  {
    forall t ensures t < LocalInstant(zone, DateOf(zone, t) + 1, hour, minute) {
      TriggerFallsOnDate(zone, DateOf(zone, t) + 1, hour, minute);
    }
  }

  /** The trigger of a date never comes before that date; it is on that date unless a gap pushes it past midnight. */
  lemma TriggerFallsOnDate(zone: Zone, date: int, hour: nat, minute: nat)
    requires EarliestIsReal(zone) && GapsAtMostAnHour(zone) && hour < 24 && minute < 60
    ensures var at := DateOf(zone, LocalInstant(zone, date, hour, minute));
      at == date || (at == date + 1 && hour == 23 && zone.earliest(WallClock(date, hour, minute)).None?)
  {
    var wall := WallClock(date, hour, minute);
    WallClockDate(date, hour * HOUR + minute * 60 * SECOND);
    if zone.earliest(wall).None? {
      if hour < 23 {
        WallClockDate(date, (hour + 1) * HOUR + minute * 60 * SECOND);
      } else {
        WallClockDate(date + 1, minute * 60 * SECOND);
      }
    }
  }

  /**
   Where the trigger strikes the wall clock shows the configured time of the date, or exactly an hour more
   where that time is missing.
   */
  lemma TriggerShowsTime(zone: Zone, date: int, hour: nat, minute: nat)
    requires EarliestIsReal(zone) && GapsAtMostAnHour(zone) && hour < 24 && minute < 60
    ensures var wanted := (date * 86_400 + hour * 3_600 + minute * 60) * 1_000_000_000;
      zone.local(LocalInstant(zone, date, hour, minute)) ==
        if zone.earliest(wanted).Some? then wanted else wanted + 3_600_000_000_000
  {
  }

  /** Of several instants that show the time, the first is taken. */
  lemma TriggerIsEarliest(zone: Zone, date: int, hour: nat, minute: nat, t: int)
    requires WellFormed(zone) && hour < 24 && minute < 60
    requires zone.local(t) == (date * 86_400 + hour * 3_600 + minute * 60) * 1_000_000_000
    ensures LocalInstant(zone, date, hour, minute) <= t
  {
  }

  lemma WallClockDate(date: int, rest: int)
    requires 0 <= rest < DAY
    ensures (date * DAY + rest) / DAY == date
  {
  }

  // ---- runs of the loop --------------------------------------------------------------------

  /** One round: the wait is computed at `now` and the sleep ends at `wake`, when the job fires. */
  datatype Cycle = Cycle(now: int, wake: int)

  /** Sleeps never end early; the next round starts after the pause. */
  ghost predicate IsRun(zone: Zone, hour: nat, minute: nat, cycles: seq<Cycle>) {
    && (forall k :: 0 <= k < |cycles| ==> cycles[k].now + Wait(zone, cycles[k].now, hour, minute) <= cycles[k].wake)
    && (forall k :: 0 < k < |cycles| ==> cycles[k - 1].wake + PAUSE <= cycles[k].now)
  }

  function FiredDates(zone: Zone, hour: nat, minute: nat, cycles: seq<Cycle>): (r: seq<int>)
    ensures |r| == |cycles|
  {
    seq(|cycles|, k requires 0 <= k < |cycles| => TriggerDate(zone, cycles[k].now, hour, minute))
  }

  /** No computation ever aims at a trigger that is past: the fallback wait is never used. */
  ghost predicate NeverAimsBack(zone: Zone, hour: nat, minute: nat) {
    forall t :: t <= Target(zone, t, hour, minute)
  }

  lemma SafeZonesNeverAimBack(zone: Zone, hour: nat, minute: nat)
    requires TomorrowFollowsToday(zone, hour, minute)
    ensures NeverAimsBack(zone, hour, minute)
  {
    forall t ensures t <= Target(zone, t, hour, minute) {
      assert t < LocalInstant(zone, DateOf(zone, t) + 1, hour, minute);
    }
  }

  /** Trigger instants strictly increase along a run. */
  lemma {:induction false} TargetsIncrease(zone: Zone, hour: nat, minute: nat, cycles: seq<Cycle>, i: nat, j: nat)
    requires NeverAimsBack(zone, hour, minute) && IsRun(zone, hour, minute, cycles)
    requires i < j < |cycles|
    ensures cycles[i].now <= Target(zone, cycles[i].now, hour, minute)
    ensures Target(zone, cycles[i].now, hour, minute) + PAUSE <= cycles[j].now
    ensures cycles[j].now <= Target(zone, cycles[j].now, hour, minute)
  {
    if i + 1 < j {
      TargetsIncrease(zone, hour, minute, cycles, i, j - 1);
    }
    assert cycles[j - 1].now <= Target(zone, cycles[j - 1].now, hour, minute);
  }

  /** A job never fires twice for the same trigger date. */
  lemma FiresOncePerDate(zone: Zone, hour: nat, minute: nat, cycles: seq<Cycle>)
    requires NeverAimsBack(zone, hour, minute) && IsRun(zone, hour, minute, cycles)
    ensures NoDup(FiredDates(zone, hour, minute, cycles))
  {
    forall i, j | 0 <= i < j < |cycles|
      ensures TriggerDate(zone, cycles[i].now, hour, minute) != TriggerDate(zone, cycles[j].now, hour, minute)
    {
      TargetsIncrease(zone, hour, minute, cycles, i, j);
    }
  }

  /** Aiming back at a past trigger, and still doing so one short round later, fires twice for one date. */
  lemma AimingBackRefires(zone: Zone, hour: nat, minute: nat, t: int) returns (cycles: seq<Cycle>)
    requires Target(zone, t, hour, minute) < t
    requires DateOf(zone, t + FALLBACK + PAUSE) == DateOf(zone, t)
    ensures IsRun(zone, hour, minute, cycles) && |cycles| == 2 && cycles[0].now == t
    ensures FiredDates(zone, hour, minute, cycles)[0] == FiredDates(zone, hour, minute, cycles)[1]
  {
    var wake := t + FALLBACK;
    cycles := [Cycle(t, wake), Cycle(wake + PAUSE, wake + PAUSE + FALLBACK)];
  }

  /** The fallback branch is taken: tomorrow's trigger is past while it is still today. */
  ghost predicate FallsBack(zone: Zone, hour: nat, minute: nat, t: int) {
    && LocalInstant(zone, DateOf(zone, t), hour, minute) <= t
    && LocalInstant(zone, DateOf(zone, t) + 1, hour, minute) < t
  }

  ghost predicate Refires(zone: Zone, hour: nat, minute: nat, cycles: seq<Cycle>) {
    IsRun(zone, hour, minute, cycles) && !NoDup(FiredDates(zone, hour, minute, cycles))
  }

  /** In every zone: whoever fires again for a date took the fallback branch when computing that round's wait. */
  lemma RefiringFallsBack(zone: Zone, hour: nat, minute: nat, cycles: seq<Cycle>, i: nat, j: nat)
    requires IsRun(zone, hour, minute, cycles) && i < j < |cycles|
    requires TriggerDate(zone, cycles[i].now, hour, minute) == TriggerDate(zone, cycles[j].now, hour, minute)
    ensures FallsBack(zone, hour, minute, cycles[j].now)
  {
    RoundsApart(zone, hour, minute, cycles, i, j);
  }

  /** The fallback branch is taken at an instant and it is still the same date a short round later. */
  ghost predicate FallsBackAndStays(zone: Zone, hour: nat, minute: nat) {
    exists t :: FallsBack(zone, hour, minute, t) && DateOf(zone, t + FALLBACK + PAUSE) == DateOf(zone, t)
  }

  /** Tomorrow's trigger strikes today, after today's own, and five seconds later it is still today. */
  ghost predicate StrikesEarly(zone: Zone, hour: nat, minute: nat, date: int) {
    var tomorrow := LocalInstant(zone, date + 1, hour, minute);
    && LocalInstant(zone, date, hour, minute) <= tomorrow
    && DateOf(zone, tomorrow) == date && DateOf(zone, tomorrow + PAUSE) == date
  }

  /** The computation at `s` was for tomorrow, on the date of `t`, or for its own date, one later than that of `t`. */
  ghost predicate AimedWhere(zone: Zone, hour: nat, minute: nat, s: int, t: int) {
    || (DateOf(zone, s) == DateOf(zone, t) && LocalInstant(zone, DateOf(zone, s), hour, minute) <= s)
    || (DateOf(zone, s) == DateOf(zone, t) + 1 && s < LocalInstant(zone, DateOf(zone, s), hour, minute))
  }

  /** The fallback branch is taken at `t`, a full round after a computation for the same trigger. */
  ghost predicate FallsBackAfter(zone: Zone, hour: nat, minute: nat, s: int, t: int) {
    && FallsBack(zone, hour, minute, t) && AimedWhere(zone, hour, minute, s, t)
    && s + Wait(zone, s, hour, minute) + PAUSE <= t
  }

  lemma RefiringPair(zone: Zone, hour: nat, minute: nat, cycles: seq<Cycle>) returns (s: int, t: int)
    requires Refires(zone, hour, minute, cycles)
    ensures FallsBackAfter(zone, hour, minute, s, t)
  {
    var dates := FiredDates(zone, hour, minute, cycles);
    var i, j :| 0 <= i < j < |dates| && dates[i] == dates[j];
    RoundsApart(zone, hour, minute, cycles, i, j);
    RefiringFallsBack(zone, hour, minute, cycles, i, j);
    s, t := cycles[i].now, cycles[j].now;
  }

  lemma PairRefires(zone: Zone, hour: nat, minute: nat, s: int, t: int) returns (cycles: seq<Cycle>)
    requires s + Wait(zone, s, hour, minute) + PAUSE <= t
    requires TriggerDate(zone, s, hour, minute) == TriggerDate(zone, t, hour, minute)
    ensures Refires(zone, hour, minute, cycles)
  {
    cycles := [Cycle(s, s + Wait(zone, s, hour, minute)), Cycle(t, t + Wait(zone, t, hour, minute))];
    var dates := FiredDates(zone, hour, minute, cycles);
    assert dates[0] == dates[1];
  }

  /** Still on `date`, and its own trigger is past. */
  predicate Evening(zone: Zone, hour: nat, minute: nat, date: int, t: int) {
    DateOf(zone, t) == date && LocalInstant(zone, date, hour, minute) <= t
  }

  /** Up to the trigger of `date`, on that date or in the evening before. */
  predicate Awaits(zone: Zone, hour: nat, minute: nat, date: int, s: int) {
    var trigger := LocalInstant(zone, date, hour, minute);
    (DateOf(zone, s) == date && s < trigger) || (Evening(zone, hour, minute, date - 1, s) && s <= trigger)
  }

  /**
   It is the evening of `date` at `t`, and at `s` the trigger of the next date was awaited five seconds or
   more before `t`, or was past already a short round before `t`.
   */
  predicate Outlasts(zone: Zone, hour: nat, minute: nat, date: int, s: int, t: int) {
    var next := LocalInstant(zone, date + 1, hour, minute);
    && Evening(zone, hour, minute, date, t)
    && ((Awaits(zone, hour, minute, date + 1, s) && next + PAUSE <= t)
        || (Evening(zone, hour, minute, date, s) && next < s && s + FALLBACK + PAUSE <= t))
  }

  /** The evening of a date outlasts the trigger of the next one by a pause, or by a whole short round. */
  ghost predicate OutlastsNext(zone: Zone, hour: nat, minute: nat, date: int) {
    exists s, t :: Outlasts(zone, hour, minute, date, s, t)
  }

  lemma FallsBackIffOutlasts(zone: Zone, hour: nat, minute: nat, s: int, t: int)
    ensures FallsBackAfter(zone, hour, minute, s, t) <==> Outlasts(zone, hour, minute, DateOf(zone, t), s, t)
  {
  }

  /**
   In every zone, also where dates go back: some run, of whatever length, fires twice for a date exactly
   when the evening of the date before outlasts its trigger.
   */
  lemma RefiresAnywhereIff(zone: Zone, hour: nat, minute: nat)
    ensures (exists cycles: seq<Cycle> :: Refires(zone, hour, minute, cycles)) <==>
            (exists date :: OutlastsNext(zone, hour, minute, date))
  {
    if cycles: seq<Cycle> :| Refires(zone, hour, minute, cycles) {
      var s, t := RefiringPair(zone, hour, minute, cycles);
      FallsBackIffOutlasts(zone, hour, minute, s, t);
      assert OutlastsNext(zone, hour, minute, DateOf(zone, t));
    }
    if date :| OutlastsNext(zone, hour, minute, date) {
      var s, t :| Outlasts(zone, hour, minute, date, s, t);
      FallsBackIffOutlasts(zone, hour, minute, s, t);
      var cycles := PairRefires(zone, hour, minute, s, t);
    }
  }

  /**
   Where dates never go back this comes to two facts about the zone: the fallback branch is taken with
   a short round of the date left, or a trigger strikes with five seconds left of the date before its own.
   */
  lemma RefiresIff(zone: Zone, hour: nat, minute: nat)
    requires DatesNeverGoBack(zone)
    ensures (exists cycles: seq<Cycle> :: Refires(zone, hour, minute, cycles)) <==>
            (FallsBackAndStays(zone, hour, minute) || exists date :: StrikesEarly(zone, hour, minute, date))
  {
    if cycles: seq<Cycle> :| Refires(zone, hour, minute, cycles) {
      var s, t := RefiringPair(zone, hour, minute, cycles);
      SameAim(zone, hour, minute, s, t);
    }
    if FallsBackAndStays(zone, hour, minute) {
      var cycles := StayingRefires(zone, hour, minute);
    }
    if date :| StrikesEarly(zone, hour, minute, date) {
      var cycles := StrikingRefires(zone, hour, minute, date);
    }
  }

  lemma StrikingRefires(zone: Zone, hour: nat, minute: nat, date: int) returns (cycles: seq<Cycle>)
    requires StrikesEarly(zone, hour, minute, date)
    ensures Refires(zone, hour, minute, cycles)
  {
    var tomorrow := LocalInstant(zone, date + 1, hour, minute);
    cycles := PairRefires(zone, hour, minute, tomorrow, tomorrow + PAUSE);
  }

  lemma StayingRefires(zone: Zone, hour: nat, minute: nat) returns (cycles: seq<Cycle>)
    requires FallsBackAndStays(zone, hour, minute)
    ensures Refires(zone, hour, minute, cycles)
  {
    var t :| FallsBack(zone, hour, minute, t) && DateOf(zone, t + FALLBACK + PAUSE) == DateOf(zone, t);
    cycles := PairRefires(zone, hour, minute, t, t + FALLBACK + PAUSE);
  }

  lemma SameAim(zone: Zone, hour: nat, minute: nat, s: int, t: int)
    requires DatesNeverGoBack(zone) && FallsBackAfter(zone, hour, minute, s, t)
    ensures FallsBackAndStays(zone, hour, minute) || exists date :: StrikesEarly(zone, hour, minute, date)
  {
    assert DateOf(zone, s) <= DateOf(zone, t);
    var tomorrow := LocalInstant(zone, DateOf(zone, t) + 1, hour, minute);
    if tomorrow < s {
      assert FallsBack(zone, hour, minute, s);
      assert DateOf(zone, s) <= DateOf(zone, s + FALLBACK + PAUSE) <= DateOf(zone, t);
    } else {
      assert DateOf(zone, s) <= DateOf(zone, tomorrow) <= DateOf(zone, tomorrow + PAUSE) <= DateOf(zone, t);
      assert StrikesEarly(zone, hour, minute, DateOf(zone, t));
    }
  }

  lemma {:induction false} RoundsApart(zone: Zone, hour: nat, minute: nat, cycles: seq<Cycle>, i: nat, j: nat)
    requires IsRun(zone, hour, minute, cycles) && i < j < |cycles|
    ensures cycles[i].now + Wait(zone, cycles[i].now, hour, minute) + PAUSE <= cycles[j].now
  {
    if i + 1 < j {
      RoundsApart(zone, hour, minute, cycles, i, j - 1);
    }
  }

  /** When every round is over before the date of its trigger is, no date is left out either. */
  lemma {:induction false} FiresEveryDate(zone: Zone, hour: nat, minute: nat, cycles: seq<Cycle>, k: nat)
    requires NeverAimsBack(zone, hour, minute) && IsRun(zone, hour, minute, cycles) && k < |cycles|
    requires forall i :: 0 < i < |cycles| ==>
      DateOf(zone, cycles[i].now) == TriggerDate(zone, cycles[i - 1].now, hour, minute)
    ensures TriggerDate(zone, cycles[k].now, hour, minute) == TriggerDate(zone, cycles[0].now, hour, minute) + k
  {
    if k > 0 {
      FiresEveryDate(zone, hour, minute, cycles, k - 1);
      TargetsIncrease(zone, hour, minute, cycles, k - 1, k);
    }
  }

  /** The date the job acts for: the local date at the moment it wakes. */
  function DocumentDate(zone: Zone, c: Cycle): int {
    DateOf(zone, c.wake)
  }

  /** In an ordinary zone the dates acted for never go back, and each lies between two trigger dates. */
  lemma DocumentDateBetween(zone: Zone, hour: nat, minute: nat, cycles: seq<Cycle>, k: nat)
    requires EarliestIsReal(zone) && DatesNeverGoBack(zone) && GapsAtMostAnHour(zone)
    requires hour < 24 && minute < 60 && IsRun(zone, hour, minute, cycles) && k + 1 < |cycles|
    ensures TriggerDate(zone, cycles[k].now, hour, minute) <= DocumentDate(zone, cycles[k])
    ensures DocumentDate(zone, cycles[k]) <= TriggerDate(zone, cycles[k + 1].now, hour, minute)
    ensures TriggerDate(zone, cycles[k + 1].now, hour, minute) <= DocumentDate(zone, cycles[k + 1])
    ensures TriggerDate(zone, cycles[k].now, hour, minute) < TriggerDate(zone, cycles[k + 1].now, hour, minute)
  {
    OrdinaryZonesAreSafe(zone, hour, minute);
    SafeZonesNeverAimBack(zone, hour, minute);
    TargetsIncrease(zone, hour, minute, cycles, k, k + 1);
    var d, d' := TriggerDate(zone, cycles[k].now, hour, minute), TriggerDate(zone, cycles[k + 1].now, hour, minute);
    TriggerFallsOnDate(zone, d, hour, minute);
    TriggerFallsOnDate(zone, d', hour, minute);
    assert cycles[k].wake <= cycles[k + 1].now;
    assert DateOf(zone, Target(zone, cycles[k].now, hour, minute)) <= DateOf(zone, cycles[k].wake);
    assert DateOf(zone, cycles[k].wake) <= DateOf(zone, cycles[k + 1].now) <= d';
    FiresOncePerDate(zone, hour, minute, cycles);
    assert FiredDates(zone, hour, minute, cycles)[k] != FiredDates(zone, hour, minute, cycles)[k + 1];
  }

  /** The sleep ended on a later date than the one whose trigger it was for. */
  predicate Overslept(zone: Zone, hour: nat, minute: nat, c: Cycle) {
    TriggerDate(zone, c.now, hour, minute) < DateOf(zone, c.wake)
  }

  /**
   Round k overslept, the next one is computed still on that later date but before its trigger, and does
   not oversleep.
   */
  predicate RepeatsAt(zone: Zone, hour: nat, minute: nat, cycles: seq<Cycle>, k: nat)
    requires k + 1 < |cycles|
  {
    && Overslept(zone, hour, minute, cycles[k])
    && DateOf(zone, cycles[k + 1].now) == DateOf(zone, cycles[k].wake)
    && cycles[k + 1].now < LocalInstant(zone, DateOf(zone, cycles[k + 1].now), hour, minute)
    && !Overslept(zone, hour, minute, cycles[k + 1])
  }

  /**
   Two rounds act for the same date exactly when the first overslept, the second was computed on that
   later date but before its trigger, and did not oversleep itself.
   */
  lemma SameDocumentIff(zone: Zone, hour: nat, minute: nat, cycles: seq<Cycle>, k: nat)
    requires EarliestIsReal(zone) && DatesNeverGoBack(zone) && GapsAtMostAnHour(zone)
    requires hour < 24 && minute < 60 && IsRun(zone, hour, minute, cycles) && k + 1 < |cycles|
    ensures DocumentDate(zone, cycles[k]) == DocumentDate(zone, cycles[k + 1]) <==>
      RepeatsAt(zone, hour, minute, cycles, k)
  {
    DocumentDateBetween(zone, hour, minute, cycles, k);
    OrdinaryZonesAreSafe(zone, hour, minute);
    SafeZonesNeverAimBack(zone, hour, minute);
    TargetsIncrease(zone, hour, minute, cycles, k, k + 1);
    WaitReaches(zone, hour, minute, cycles, k + 1);
    assert DateOf(zone, cycles[k].wake) <= DateOf(zone, cycles[k + 1].now) <= DateOf(zone, cycles[k + 1].wake);
  }

  lemma WaitReaches(zone: Zone, hour: nat, minute: nat, cycles: seq<Cycle>, k: nat)
    requires IsRun(zone, hour, minute, cycles) && k < |cycles|
    ensures cycles[k].now <= cycles[k].wake
  {
  }

  function DocumentDates(zone: Zone, cycles: seq<Cycle>): (r: seq<int>)
    ensures |r| == |cycles|
  {
    seq(|cycles|, k requires 0 <= k < |cycles| => DocumentDate(zone, cycles[k]))
  }

  /** In whatever zone: if every round wakes on its trigger's date, the job acts for pairwise distinct dates. */
  lemma PunctualDocumentsAreDistinct(zone: Zone, hour: nat, minute: nat, cycles: seq<Cycle>)
    requires NeverAimsBack(zone, hour, minute) && IsRun(zone, hour, minute, cycles)
    requires forall c :: c in cycles ==> DateOf(zone, c.wake) == TriggerDate(zone, c.now, hour, minute)
    ensures NoDup(DocumentDates(zone, cycles))
    ensures DocumentDates(zone, cycles) == FiredDates(zone, hour, minute, cycles)
  {
    FiresOncePerDate(zone, hour, minute, cycles);
    forall k | 0 <= k < |cycles|
      ensures DocumentDate(zone, cycles[k]) == TriggerDate(zone, cycles[k].now, hour, minute)
    {
      assert cycles[k] in cycles;
    }
    assert DocumentDates(zone, cycles) == FiredDates(zone, hour, minute, cycles);
  }

  lemma {:induction false} DocumentDatesAscend(
    zone: Zone, hour: nat, minute: nat, cycles: seq<Cycle>, i: nat, j: nat)
    requires EarliestIsReal(zone) && DatesNeverGoBack(zone) && GapsAtMostAnHour(zone)
    requires hour < 24 && minute < 60 && IsRun(zone, hour, minute, cycles) && i <= j < |cycles|
    ensures DocumentDate(zone, cycles[i]) <= DocumentDate(zone, cycles[j])
  {
    if i < j {
      DocumentDatesAscend(zone, hour, minute, cycles, i, j - 1);
      DocumentDateBetween(zone, hour, minute, cycles, j - 1);
    }
  }

  /** The round after the first of two that act for the same date repeats it. */
  lemma SameDateRepeats(zone: Zone, hour: nat, minute: nat, cycles: seq<Cycle>, i: nat, j: nat)
    requires EarliestIsReal(zone) && DatesNeverGoBack(zone) && GapsAtMostAnHour(zone)
    requires hour < 24 && minute < 60 && IsRun(zone, hour, minute, cycles) && i < j < |cycles|
    requires DocumentDate(zone, cycles[i]) == DocumentDate(zone, cycles[j])
    ensures RepeatsAt(zone, hour, minute, cycles, i)
  {
    DocumentDatesAscend(zone, hour, minute, cycles, i, i + 1);
    DocumentDatesAscend(zone, hour, minute, cycles, i + 1, j);
    SameDocumentIff(zone, hour, minute, cycles, i);
  }

  lemma RepeatedDates(zone: Zone, cycles: seq<Cycle>) returns (i: nat, j: nat)
    requires !NoDup(DocumentDates(zone, cycles))
    ensures i < j < |cycles| && DocumentDate(zone, cycles[i]) == DocumentDate(zone, cycles[j])
  {
    var dates := DocumentDates(zone, cycles);
    i, j :| 0 <= i < j < |dates| && dates[i] == dates[j];
  }

  lemma EqualDatesRepeat(zone: Zone, cycles: seq<Cycle>, i: nat, j: nat)
    requires i < j < |cycles| && DocumentDate(zone, cycles[i]) == DocumentDate(zone, cycles[j])
    ensures !NoDup(DocumentDates(zone, cycles))
  {
    var dates := DocumentDates(zone, cycles);
    assert dates[i] == dates[j];
  }

  /** Over a whole run the job acts twice for some date exactly when some round repeats the one before. */
  lemma DocumentsRepeatIff(zone: Zone, hour: nat, minute: nat, cycles: seq<Cycle>)
    requires EarliestIsReal(zone) && DatesNeverGoBack(zone) && GapsAtMostAnHour(zone)
    requires hour < 24 && minute < 60 && IsRun(zone, hour, minute, cycles)
    ensures !NoDup(DocumentDates(zone, cycles)) <==>
      exists k :: 0 <= k < |cycles| - 1 && RepeatsAt(zone, hour, minute, cycles, k)
  {
    if !NoDup(DocumentDates(zone, cycles)) {
      var i, j := RepeatedDates(zone, cycles);
      SameDateRepeats(zone, hour, minute, cycles, i, j);
    }
    if k :| 0 <= k < |cycles| - 1 && RepeatsAt(zone, hour, minute, cycles, k) {
      SameDocumentIff(zone, hour, minute, cycles, k);
      EqualDatesRepeat(zone, cycles, k, k + 1);
    }
  }

  // ---- where it fails --------------------------------------------------------------------

  /** A zone that crossed the date line: ten hours behind, then fourteen ahead; one local date is missing. */
  function DateLineZone(): Zone {
    Zone((t: int) => if t < 34 * HOUR then t - 10 * HOUR else t + 14 * HOUR,
         (w: int) => if w < DAY then Some(w + 10 * HOUR) else if w < 2 * DAY then None else Some(w - 14 * HOUR))
  }

  lemma DateIs(zone: Zone, t: int, date: int)
    requires date * DAY <= zone.local(t) < (date + 1) * DAY
    ensures DateOf(zone, t) == date
  {
    WallClockDate(date, zone.local(t) - date * DAY);
  }

  lemma DivMonotone(a: int, b: int)
    requires a <= b
    ensures a / DAY <= b / DAY
  {
  }

  lemma DateLineZoneIsAZone()
    ensures WellFormed(DateLineZone()) && EarliestIsReal(DateLineZone()) && DatesNeverGoBack(DateLineZone())
  {
    var zone := DateLineZone();
    forall s, t | s <= t ensures DateOf(zone, s) <= DateOf(zone, t) {
      DivMonotone(zone.local(s), zone.local(t));
    }
  }

  /** In the afternoon before a missing date the job aims at that date, whose trigger reads as past. */
  lemma AimsAtMissingDate(now: int)
    requires 25 * HOUR < now < 34 * HOUR
    ensures TriggerDate(DateLineZone(), now, 0, 0) == 1 && Target(DateLineZone(), now, 0, 0) < now
  {
    var zone := DateLineZone();
    DateIs(zone, now, 0);
    assert WallClock(0, 0, 0) == 0 && WallClock(1, 0, 0) == DAY;
    assert LocalInstant(zone, 0, 0, 0) == 10 * HOUR;
    assert LocalInstant(zone, 1, 0, 0) == DAY + HOUR;
  }

  /** Across a missing date the computed trigger can be past, and the job fires again every 65 seconds. */
  lemma MissingDateRefires() returns (zone: Zone, cycles: seq<Cycle>)
    ensures WellFormed(zone) && EarliestIsReal(zone) && DatesNeverGoBack(zone)
    ensures IsRun(zone, 0, 0, cycles) && |cycles| == 2
    ensures FiredDates(zone, 0, 0, cycles)[0] == FiredDates(zone, 0, 0, cycles)[1]
  {
    zone := DateLineZone();
    DateLineZoneIsAZone();
    AimsAtMissingDate(26 * HOUR);
    DateIs(zone, 26 * HOUR, 0);
    DateIs(zone, 26 * HOUR + FALLBACK + PAUSE, 0);
    cycles := AimingBackRefires(zone, 0, 0, 26 * HOUR);
  }

  /** A clock that goes back an hour one minute after midnight, from 00:01 to 23:01 of the date before. */
  function TurnedBackZone(): Zone {
    Zone((t: int) => if t < DAY + 60 * SECOND then t else t - HOUR,
         (w: int) => if w < DAY + 60 * SECOND then Some(w) else Some(w + HOUR))
  }

  /** There the midnight job can fire twice for a date, and it is the date that came, went and came again. */
  lemma TurningBackRefires() returns (cycles: seq<Cycle>)
    ensures var zone := TurnedBackZone();
      && WellFormed(zone) && EarliestIsReal(zone) && !DatesNeverGoBack(zone)
      && OutlastsNext(zone, 0, 0, 0) && Refires(zone, 0, 0, cycles)
  {
    var zone, s, t := TurnedBackZone(), DAY - SECOND, DAY + 60 * SECOND;
    DateIs(zone, s, 0);
    DateIs(zone, DAY, 1);
    DateIs(zone, t, 0);
    assert LocalInstant(zone, 0, 0, 0) == 0 && LocalInstant(zone, 1, 0, 0) == DAY;
    assert Outlasts(zone, 0, 0, 0, s, t);
    cycles := PairRefires(zone, 0, 0, s, t);
    assert DateOf(zone, DAY) > DateOf(zone, t);
  }

  function Utc(): Zone {
    Zone((t: int) => t, (w: int) => Some(w))
  }

  /** Oversleeping past midnight makes the job act twice for one date and never for the other. */
  lemma OversleepingRepeatsADocument() returns (cycles: seq<Cycle>)
    ensures TomorrowFollowsToday(Utc(), 23, 59) && IsRun(Utc(), 23, 59, cycles) && |cycles| == 2
    ensures DocumentDate(Utc(), cycles[0]) == DocumentDate(Utc(), cycles[1])
  {
    UtcIsSafe();
    cycles := [Cycle(12 * HOUR, DAY + 60 * SECOND), Cycle(DAY + 65 * SECOND, 2 * DAY - 60 * SECOND)];
    UtcWait(0, 12 * HOUR);
    UtcWait(1, DAY + 65 * SECOND);
    DateIs(Utc(), cycles[0].wake, 1);
    DateIs(Utc(), cycles[1].wake, 1);
  }

  lemma UtcIsSafe()
    ensures TomorrowFollowsToday(Utc(), 23, 59)
  {
    forall s, t | s <= t ensures DateOf(Utc(), s) <= DateOf(Utc(), t) {
      DivMonotone(s, t);
    }
    OrdinaryZonesAreSafe(Utc(), 23, 59);
  }

  lemma UtcWait(date: int, now: int)
    requires date * DAY <= now < date * DAY + 12 * HOUR + 1
    ensures now + Wait(Utc(), now, 23, 59) == (date + 1) * DAY - 60 * SECOND
  {
    DateIs(Utc(), now, date);
    assert LocalInstant(Utc(), date, 23, 59) == (date + 1) * DAY - 60 * SECOND;
  }
}
