/** The settings of the standup app: trigger times as text, column widths, and the route that replaces them. */
module StandupSettings {
  import opened Integers
  import opened Sequences
  import opened Text

  // ---- times ---------------------------------------------------------------------------------

  function PadTwo(n: nat): string {
    if n < 10 then "0" + DigitsOf(n) else DigitsOf(n)
  }

  /** "HH:MM". */
  function PrintTime(hour: nat, minute: nat): string {
    PadTwo(hour) + ":" + PadTwo(minute)
  }

  function ValidTime(h: Option<int>, m: Option<int>): Option<(nat, nat)> {
    if h.Some? && m.Some? && 0 <= h.value < 24 && 0 <= m.value < 60 then Some((h.value, m.value)) else None
  }

  /** What the decoder makes of a time; None is replaced by midnight. */
  function TimeIn(s: string): Option<(nat, nat)> {
    var parts := SplitColon(s);
    if parts.None? then None
    else ValidTime(ParseU32(Trim(parts.value.0)), ParseU32(Trim(parts.value.1)))
  }

  function ParseTime(s: string): (nat, nat) {
    if TimeIn(s).Some? then TimeIn(s).value else (0, 0)
  }

  /** The route's check: like the decoder's, but white space is not tolerated. */
  function CheckedTime(s: string): Option<(nat, nat)> {
    var parts := SplitColon(s);
    if parts.None? then None else ValidTime(ParseU32(parts.value.0), ParseU32(parts.value.1))
  }

  predicate CheckTime(s: string) {
    CheckedTime(s).Some?
  }

  lemma PadTwoParses(n: nat)
    requires n <= U32_MAX
    ensures ParseU32(PadTwo(n)) == Some(n)
  {
    ValueOfDigits(n);
    var s := PadTwo(n);
    if n < 10 {
      assert Init(s) == "0" && Init(DigitsOf(n)) == "" && Last(s) == DigitsOf(n)[0] && Init("0") == "";
      assert ValueOf("0") == 0;
    }
    assert s[0] in s;
  }

  /** Printing a time and reading it back is the identity exactly on the times of a day. */
  lemma TimeRoundTripIff(hour: nat, minute: nat)
    requires hour <= U32_MAX && minute <= U32_MAX
    ensures ParseTime(PrintTime(hour, minute)) == (hour, minute) <==> hour < 24 && minute < 60
    ensures hour < 24 && minute < 60 ==> CheckedTime(PrintTime(hour, minute)) == Some((hour, minute))
  {
    PadTwoParses(hour);
    PadTwoParses(minute);
    ParsedHasNoSpace(PadTwo(hour), 0, U32_MAX);
    ParsedHasNoSpace(PadTwo(minute), 0, U32_MAX);
    SplitAtColon(PadTwo(hour), PadTwo(minute));
  }

  /** A time of the day is printed with two digits on either side of the colon. */
  lemma TimeFormat(hour: nat, minute: nat)
    requires hour < 24 && minute < 60
    ensures var s := PrintTime(hour, minute);
      && |s| == 5 && s[2] == ':'
      && IsDigit(s[0]) && IsDigit(s[1]) && IsDigit(s[3]) && IsDigit(s[4])
  {
    TwoDigits(hour);
    TwoDigits(minute);
  }

  lemma TwoDigits(n: nat)
    requires n < 60
    ensures var s := PadTwo(n); |s| == 2 && IsDigit(s[0]) && IsDigit(s[1])
  {
    if n >= 10 {
      assert |DigitsOf(n / 10)| == 1;
    }
    var s := PadTwo(n);
    assert s[1] in DigitsOf(n) && (n >= 10 ==> s[0] in DigitsOf(n));
  }

  /**
   Which times are understood, and as what: two numbers below 24 and 60 around the first colon, with or
   without white space around each; anything else counts as midnight.
   */
  lemma TimeMeaning(s: string, hour: string, minute: string)
    requires ':' !in hour && s == hour + ":" + minute
    ensures var h, m := ParseU32(Trim(hour)), ParseU32(Trim(minute));
      ParseTime(s) == if h.Some? && m.Some? && h.value < 24 && m.value < 60 then (h.value, m.value) else (0, 0)
  {
    SplitAtColon(hour, minute);
  }

  lemma {:induction false} NoColonIsMidnight(s: string)
    requires ':' !in s
    ensures SplitColon(s) == None && ParseTime(s) == (0, 0)
  {
    if s != "" {
      assert s == [s[0]] + s[1..];
      NoColonIsMidnight(s[1..]);
    }
  }

  /** Neither side of the colon has white space around it. */
  predicate Unspaced(s: string) {
    var parts := SplitColon(s);
    parts.Some? ==> Trim(parts.value.0) == parts.value.0 && Trim(parts.value.1) == parts.value.1
  }

  /** The route accepts exactly the times the decoder understands that carry no white space. */
  lemma CheckedIffDecoded(s: string)
    ensures CheckTime(s) <==> TimeIn(s).Some? && Unspaced(s)
    ensures CheckTime(s) ==> CheckedTime(s) == Some(ParseTime(s))
  {
    if CheckTime(s) {
      ParsedHasNoSpace(SplitColon(s).value.0, 0, U32_MAX);
      ParsedHasNoSpace(SplitColon(s).value.1, 0, U32_MAX);
    }
  }

  // ---- widths --------------------------------------------------------------------------------

  const DEFAULT_WIDTHS: seq<int> := [120, 300, 300, 240]

  function Positive(widths: seq<int>): seq<int> {
    if widths == [] then []
    else if widths[0] > 0 then [widths[0]] + Positive(widths[1..])
    else Positive(widths[1..])
  }

  function NormalizeWidths(widths: seq<int>): seq<int> {
    if Positive(widths) == [] then DEFAULT_WIDTHS else Positive(widths)
  }

  lemma {:induction false} PositiveMeaning(widths: seq<int>)
    ensures forall w :: w in Positive(widths) <==> w in widths && w > 0
    ensures (forall w :: w in widths ==> w > 0) ==> Positive(widths) == widths
  {
    if widths != [] {
      assert widths == [widths[0]] + widths[1..];
      assert forall w :: w in widths[1..] ==> w in widths;
      PositiveMeaning(widths[1..]);
      assert widths[0] in widths;
    }
  }

  /** Normalising is idempotent and always leaves positive widths; given one it never falls back. */
  lemma NormalizeMeaning(widths: seq<int>)
    ensures NormalizeWidths(NormalizeWidths(widths)) == NormalizeWidths(widths)
    ensures NormalizeWidths(widths) != [] && forall w :: w in NormalizeWidths(widths) ==> w > 0
    ensures NormalizeWidths(widths) == Positive(widths) <==> exists w :: w in widths && w > 0
  {
    PositiveMeaning(widths);
    PositiveMeaning(NormalizeWidths(widths));
    if w :| w in widths && w > 0 {
      assert w in Positive(widths);
    } else if Positive(widths) != [] {
      assert Positive(widths)[0] in Positive(widths);
    }
  }

  // ---- the decoded and the wire form ------------------------------------------------------------

  /** One value for each of the four daily jobs. */
  datatype PerJob<T> = PerJob(announce: T, remindEvening: T, remindMorning: T, urgent: T) {
    function All(): seq<T> {
      [announce, remindEvening, remindMorning, urgent]
    }
  }

  datatype Trigger = Trigger(hour: nat, minute: nat, enabled: bool)

  /** `texts` are the title, the headers and the message templates, which are passed through. */
  datatype Settings = Settings(timezone: string, triggers: PerJob<Trigger>, widths: seq<int>, texts: seq<string>)

  /** The stored and transmitted form. */
  datatype Wire = Wire(
    timezone: string, times: PerJob<string>, enabled: PerJob<bool>, widths: seq<int>, texts: seq<string>)

  const DEFAULT_ZONE := "Asia/Shanghai"

  function TriggerAt(time: string, enabled: bool): Trigger {
    Trigger(ParseTime(time).0, ParseTime(time).1, enabled)
  }

  /** Never fails: whatever is malformed is replaced. `zones` are the known time zone names. */
  function FromWire(zones: set<string>, w: Wire): Settings {
    Settings(
      if w.timezone in zones then w.timezone else DEFAULT_ZONE,
      PerJob(TriggerAt(w.times.announce, w.enabled.announce),
             TriggerAt(w.times.remindEvening, w.enabled.remindEvening),
             TriggerAt(w.times.remindMorning, w.enabled.remindMorning),
             TriggerAt(w.times.urgent, w.enabled.urgent)),
      NormalizeWidths(w.widths), w.texts)
  }

  function TimeOf(t: Trigger): string {
    PrintTime(t.hour, t.minute)
  }

  function ToWire(s: Settings): Wire {
    var t := s.triggers;
    Wire(
      s.timezone,
      PerJob(TimeOf(t.announce), TimeOf(t.remindEvening), TimeOf(t.remindMorning), TimeOf(t.urgent)),
      PerJob(t.announce.enabled, t.remindEvening.enabled, t.remindMorning.enabled, t.urgent.enabled),
      s.widths, s.texts)
  }

  lemma TriggerRoundTrip(time: string, enabled: bool)
    ensures TriggerAt(TimeOf(TriggerAt(time, enabled)), enabled) == TriggerAt(time, enabled)
    ensures CheckTime(TimeOf(TriggerAt(time, enabled)))
  {
    TimeRoundTripIff(ParseTime(time).0, ParseTime(time).1);
  }

  /** Decoding, printing and decoding again changes nothing, however malformed the first form was. */
  lemma NormalisationIsIdempotent(zones: set<string>, w: Wire)
    requires DEFAULT_ZONE in zones
    ensures var normal := ToWire(FromWire(zones, w));
      && FromWire(zones, normal) == FromWire(zones, w)
      && ToWire(FromWire(zones, normal)) == normal
  {
    TriggerRoundTrip(w.times.announce, w.enabled.announce);
    TriggerRoundTrip(w.times.remindEvening, w.enabled.remindEvening);
    TriggerRoundTrip(w.times.remindMorning, w.enabled.remindMorning);
    TriggerRoundTrip(w.times.urgent, w.enabled.urgent);
    NormalizeMeaning(w.widths);
  }

  /** What the decoder puts in place of what it does not understand, and what it leaves as it is. */
  lemma DecodedFields(zones: set<string>, w: Wire)
    ensures var s := FromWire(zones, w);
      && s.timezone == (if w.timezone in zones then w.timezone else "Asia/Shanghai")
      && s.texts == w.texts
      && s.widths == (if Positive(w.widths) == [] then [120, 300, 300, 240] else Positive(w.widths))
      && Says(s.triggers.announce, w.times.announce, w.enabled.announce)
      && Says(s.triggers.remindEvening, w.times.remindEvening, w.enabled.remindEvening)
      && Says(s.triggers.remindMorning, w.times.remindMorning, w.enabled.remindMorning)
      && Says(s.triggers.urgent, w.times.urgent, w.enabled.urgent)
  {
  }

  predicate Says(t: Trigger, time: string, enabled: bool) {
    (t.hour, t.minute) == ParseTime(time) && t.enabled == enabled
  }

  lemma {:induction false} PositiveConcat(a: seq<int>, b: seq<int>)
    ensures Positive(a + b) == Positive(a) + Positive(b)
    ensures |b| == 1 ==> Positive(b) == if b[0] > 0 then b else []
  {
    if a == [] {
      assert a + b == b;
      assert |b| == 1 ==> b[1..] == [];
    } else {
      assert (a + b)[0] == a[0] && (a + b)[1..] == a[1..] + b;
      PositiveConcat(a[1..], b);
    }
  }

  // ---- the route -----------------------------------------------------------------------------

  datatype Rejection = UnknownTimezone | BadTime(job: nat) | NoWidth

  datatype Reply = Echo(wire: Wire) | Rejected(why: Rejection) | Internal

  predicate AnyPositive(widths: seq<int>) {
    exists w :: w in widths && w > 0
  }

  predicate Accepts(zones: set<string>, body: Wire) {
    && body.timezone in zones
    && CheckTime(body.times.announce) && CheckTime(body.times.remindEvening)
    && CheckTime(body.times.remindMorning) && CheckTime(body.times.urgent)
    && AnyPositive(body.widths)
  }

  /** Nothing in the decoded form was put in place of something malformed. */
  predicate TakenAsGiven(zones: set<string>, body: Wire) {
    && body.timezone in zones
    && TimeIn(body.times.announce).Some? && TimeIn(body.times.remindEvening).Some?
    && TimeIn(body.times.remindMorning).Some? && TimeIn(body.times.urgent).Some?
    && Positive(body.widths) != []
  }

  lemma AnyPositiveIff(widths: seq<int>)
    ensures AnyPositive(widths) <==> Positive(widths) != []
  {
    PositiveMeaning(widths);
    if AnyPositive(widths) {
      var w :| w in widths && w > 0;
      assert w in Positive(widths);
    }
    if Positive(widths) != [] {
      var w := Positive(widths)[0];
      assert w in Positive(widths);
      assert w in widths && w > 0;
    }
  }

  predicate NoSpaces(times: PerJob<string>) {
    && Unspaced(times.announce) && Unspaced(times.remindEvening)
    && Unspaced(times.remindMorning) && Unspaced(times.urgent)
  }

  /** The route accepts exactly the forms that are taken as given and have no white space in their times. */
  lemma AcceptsIff(zones: set<string>, body: Wire)
    ensures Accepts(zones, body) <==>
      TakenAsGiven(zones, body) && NoSpaces(body.times)
  {
    CheckedIffDecoded(body.times.announce);
    CheckedIffDecoded(body.times.remindEvening);
    CheckedIffDecoded(body.times.remindMorning);
    CheckedIffDecoded(body.times.urgent);
    AnyPositiveIff(body.widths);
  }

  /** The echoed form can be sent back: it is always acceptable. */
  lemma EchoIsAcceptable(zones: set<string>, w: Wire)
    requires DEFAULT_ZONE in zones
    ensures Accepts(zones, ToWire(FromWire(zones, w)))
  {
    TriggerRoundTrip(w.times.announce, w.enabled.announce);
    TriggerRoundTrip(w.times.remindEvening, w.enabled.remindEvening);
    TriggerRoundTrip(w.times.remindMorning, w.enabled.remindMorning);
    TriggerRoundTrip(w.times.urgent, w.enabled.urgent);
    NormalizeMeaning(w.widths);
    assert NormalizeWidths(w.widths)[0] in NormalizeWidths(w.widths);
  }

  /** The first of the times that fails the check. */
  function FirstBad(times: seq<string>): (i: nat)
    ensures i <= |times|
    ensures forall k :: 0 <= k < i ==> CheckTime(times[k])
    ensures i < |times| ==> !CheckTime(times[i])
  {
    if times == [] || !CheckTime(times[0]) then 0 else 1 + FirstBad(times[1..])
  }

  class SettingsBlob {
    const zones: set<string>
    var blob: Option<Wire>

    constructor (zones: set<string>)
      ensures blob == None && this.zones == zones
    {
      blob := None;
      this.zones := zones;
    }

    /** Validates, then replaces the stored form and echoes its normalised view; `saveOk`: the store accepts it. */
    method Put(body: Wire, saveOk: bool) returns (reply: Reply)
      modifies this
      ensures reply.Rejected? <==> !Accepts(zones, body)
      ensures reply.Echo? <==> Accepts(zones, body) && saveOk
      ensures reply.Echo? ==> reply.wire == ToWire(FromWire(zones, body)) && blob == Some(body)
      ensures !reply.Echo? ==> blob == old(blob)
      ensures reply == Rejected(UnknownTimezone) <==> body.timezone !in zones
      ensures forall i :: reply == Rejected(BadTime(i)) <==>
        body.timezone in zones && i < 4 && i == FirstBad(body.times.All())
    {
      if body.timezone !in zones {
        return Rejected(UnknownTimezone);
      }
      var times := body.times.All();
      for i := 0 to |times|
        invariant forall k :: 0 <= k < i ==> CheckTime(times[k])
      {
        if !CheckTime(times[i]) {
          return Rejected(BadTime(i));
        }
      }
      assert CheckTime(times[0]) && CheckTime(times[1]) && CheckTime(times[2]) && CheckTime(times[3]);
      if !AnyPositive(body.widths) {
        return Rejected(NoWidth);
      }
      if !saveOk {
        return Internal;
      }
      blob := Some(body);
      return Echo(ToWire(FromWire(zones, body)));
    }
  }

  predicate TakesEffect(time: string, enabled: bool, t: Trigger) {
    CheckedTime(time) == Some((t.hour, t.minute)) && t.enabled == enabled
  }

  lemma CheckedTakesEffect(time: string, enabled: bool)
    requires CheckTime(time)
    ensures TakesEffect(time, enabled, TriggerAt(time, enabled))
  {
    CheckedIffDecoded(time);
  }

  /** What an accepted form says is what the app acts on: no time, zone or width is silently replaced. */
  lemma AcceptedTakesEffect(zones: set<string>, body: Wire)
    requires Accepts(zones, body)
    ensures var s := FromWire(zones, body);
      && s.timezone == body.timezone
      && TakesEffect(body.times.announce, body.enabled.announce, s.triggers.announce)
      && TakesEffect(body.times.remindEvening, body.enabled.remindEvening, s.triggers.remindEvening)
      && TakesEffect(body.times.remindMorning, body.enabled.remindMorning, s.triggers.remindMorning)
      && TakesEffect(body.times.urgent, body.enabled.urgent, s.triggers.urgent)
      && s.widths == Positive(body.widths)
      && s.texts == body.texts
  {
    CheckedTakesEffect(body.times.announce, body.enabled.announce);
    CheckedTakesEffect(body.times.remindEvening, body.enabled.remindEvening);
    CheckedTakesEffect(body.times.remindMorning, body.enabled.remindMorning);
    CheckedTakesEffect(body.times.urgent, body.enabled.urgent);
    NormalizeMeaning(body.widths);
  }
}
