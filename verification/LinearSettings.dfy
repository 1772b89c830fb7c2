/** The settings of the linear app: the stored row, its decoded form and the route that replaces it. */
module LinearSettings {
  import opened Sequences
  import opened Text
  import Reminders
  import opened Integers

  const I32_MAX: int := 0x7FFF_FFFF

  datatype Recipients = Assignee | AssigneeAndSubscribers

  function RecipientsName(r: Recipients): string {
    match r
    case Assignee => "assignee"
    case AssigneeAndSubscribers => "assignee_and_subscribers"
  }

  function ParseRecipients(s: string): Recipients {
    if s == "assignee_and_subscribers" then AssigneeAndSubscribers else Assignee
  }

  /** The decoded settings; lead and overdue days are 64-bit signed, the interval 64-bit unsigned. */
  datatype Settings = Settings(
    onComment: bool, onStatusChange: bool, onAnyUpdate: bool, remindersEnabled: bool,
    recipients: Recipients, leadDays: seq<int>, overdueMaxDays: int, intervalHours: nat, timezone: string)

  /** The stored row; the two numbers are 32-bit signed. */
  datatype Model = Model(
    onComment: bool, onStatusChange: bool, onAnyUpdate: bool, remindersEnabled: bool,
    recipients: string, leadDays: string, overdueMaxDays: int, intervalHours: int, timezone: string)

  const DEFAULTS := Settings(true, true, false, true, Assignee, [7, 3, 1, 0], 7, 6, "UTC")

  function Max(a: int, b: int): int {
    if a < b then b else a
  }

  // ---- lead days ---------------------------------------------------------------------------

  function Printed(days: seq<int>): (r: seq<string>)
    ensures |r| == |days|
  {
    if days == [] then [] else [Print(days[0])] + Printed(days[1..])
  }

  function LeadDaysCsv(days: seq<int>): string {
    Join(Printed(days), ",")
  }

  function KeepNonNegative(days: seq<int>): seq<int> {
    if days == [] then []
    else if days[0] >= 0 then [days[0]] + KeepNonNegative(days[1..])
    else KeepNonNegative(days[1..])
  }

  /** The pieces that are numbers. */
  function Numbers(pieces: seq<string>): seq<int> {
    if pieces == [] then []
    else
      var n := ParseI64(Trim(pieces[0]));
      if n.Some? then [n.value] + Numbers(pieces[1..]) else Numbers(pieces[1..])
  }

  function ParseLeadDays(csv: string): seq<int> {
    KeepNonNegative(Numbers(Split(csv, ',')))
  }

  lemma {:induction false} NumbersConcat(a: seq<string>, b: seq<string>)
    ensures Numbers(a + b) == Numbers(a) + Numbers(b)
  {
    if a == [] {
      assert a + b == b;
    } else {
      assert (a + b)[0] == a[0] && (a + b)[1..] == a[1..] + b;
      NumbersConcat(a[1..], b);
    }
  }

  lemma {:induction false} NonNegativeConcat(a: seq<int>, b: seq<int>)
    ensures KeepNonNegative(a + b) == KeepNonNegative(a) + KeepNonNegative(b)
  {
    if a == [] {
      assert a + b == b;
    } else {
      assert (a + b)[0] == a[0] && (a + b)[1..] == a[1..] + b;
      NonNegativeConcat(a[1..], b);
    }
  }

  /**
   Whatever the column holds, each piece between commas counts on its own: a non-negative number with or
   without white space around it is a lead, in its place, and anything else is dropped.
   */
  lemma LeadDaysPieceByPiece(before: seq<string>, piece: string, after: seq<string>, csv: string)
    requires Split(csv, ',') == before + [piece] + after
    ensures var n := ParseI64(Trim(piece));
      ParseLeadDays(csv) ==
        KeepNonNegative(Numbers(before)) + (if n.Some? && n.value >= 0 then [n.value] else [])
        + KeepNonNegative(Numbers(after))
  {
    NumbersConcat(before + [piece], after);
    NumbersConcat(before, [piece]);
    NonNegativeConcat(Numbers(before + [piece]), Numbers(after));
    NonNegativeConcat(Numbers(before), Numbers([piece]));
    OnePiece(piece);
  }

  lemma OnePiece(piece: string)
    ensures var n := ParseI64(Trim(piece));
      KeepNonNegative(Numbers([piece])) == if n.Some? && n.value >= 0 then [n.value] else []
  {
    assert [piece][1..] == [] && Numbers([]) == [];
    var n := ParseI64(Trim(piece));
    if n.Some? {
      assert Numbers([piece]) == [n.value] && [n.value][1..] == [];
    }
  }

  predicate AllI64(days: seq<int>) {
    forall d :: d in days ==> I64_MIN <= d <= I64_MAX
  }

  lemma {:induction false} NumbersOfPrinted(days: seq<int>)
    requires AllI64(days)
    ensures Numbers(Printed(days)) == days
  {
    if days != [] {
      assert days == [days[0]] + days[1..];
      assert forall d :: d in days[1..] ==> d in days;
      PrintHasNoSeparator(days[0]);
      ParsePrint(days[0], I64_MIN, I64_MAX);
      NumbersOfPrinted(days[1..]);
      var pieces := Printed(days);
      assert pieces[0] == Print(days[0]) && pieces[1..] == Printed(days[1..]);
      assert days[0] in days;
      assert ParseI64(Trim(pieces[0])) == Some(days[0]);
    }
  }

  lemma {:induction false} PrintedHasNoComma(days: seq<int>)
    ensures forall p :: p in Printed(days) ==> ',' !in p
  {
    if days != [] {
      PrintHasNoSeparator(days[0]);
      PrintedHasNoComma(days[1..]);
    }
  }

  /** Reading back the printed list keeps exactly its non-negative days, in order; the empty list included. */
  lemma LeadDaysRoundTrip(days: seq<int>)
    requires AllI64(days)
    ensures ParseLeadDays(LeadDaysCsv(days)) == KeepNonNegative(days)
  {
    if days == [] {
      assert Split("", ',') == [""];
      assert Numbers([""]) == [];
    } else {
      NumbersOfPrinted(days);
      PrintedHasNoComma(days);
      SplitJoin(Printed(days), ',');
    }
  }

  lemma {:induction false} KeepNonNegativeMeaning(days: seq<int>)
    ensures forall d :: d in KeepNonNegative(days) <==> d in days && d >= 0
    ensures |KeepNonNegative(days)| <= |days|
    ensures (forall d :: d in days ==> d >= 0) ==> KeepNonNegative(days) == days
  {
    if days != [] {
      assert days == [days[0]] + days[1..];
      assert forall d :: d in days[1..] ==> d in days;
      KeepNonNegativeMeaning(days[1..]);
      assert days[0] in days;
    }
  }

  /** The round trip is the identity exactly on the lists of non-negative days. */
  lemma LeadDaysRoundTripIff(days: seq<int>)
    requires AllI64(days)
    ensures ParseLeadDays(LeadDaysCsv(days)) == days <==> forall d :: d in days ==> d >= 0
  {
    LeadDaysRoundTrip(days);
    KeepNonNegativeMeaning(days);
  }

  // ---- the stored row ------------------------------------------------------------------------

  /** `zones` are the known time zone names. */
  function FromModel(zones: set<string>, m: Model): Settings {
    Settings(
      m.onComment, m.onStatusChange, m.onAnyUpdate, m.remindersEnabled,
      ParseRecipients(m.recipients), ParseLeadDays(m.leadDays), Max(m.overdueMaxDays, 0), Max(m.intervalHours, 1),
      if m.timezone in zones then m.timezone else "UTC")
  }

  function ToModel(s: Settings): Model {
    Model(
      s.onComment, s.onStatusChange, s.onAnyUpdate, s.remindersEnabled,
      RecipientsName(s.recipients), LeadDaysCsv(s.leadDays), AsI32(s.overdueMaxDays), AsI32(s.intervalHours),
      s.timezone)
  }

  /** Loading what was saved gives it back exactly when its numbers fit the row and make sense. */
  lemma SaveLoadIff(zones: set<string>, s: Settings)
    requires AllI64(s.leadDays) && s.timezone in zones
    ensures FromModel(zones, ToModel(s)) == s <==>
      (&& (forall d :: d in s.leadDays ==> d >= 0)
       && 0 <= s.overdueMaxDays <= I32_MAX
       && 1 <= s.intervalHours <= I32_MAX)
  {
    LeadDaysRoundTripIff(s.leadDays);
  }

  /** What the app makes of a row, field by field. */
  lemma LoadedFields(zones: set<string>, m: Model)
    ensures var s := FromModel(zones, m);
      && s.onComment == m.onComment && s.onStatusChange == m.onStatusChange
      && s.onAnyUpdate == m.onAnyUpdate && s.remindersEnabled == m.remindersEnabled
      && (s.recipients == AssigneeAndSubscribers <==> m.recipients == "assignee_and_subscribers")
      && (m.overdueMaxDays >= 0 ==> s.overdueMaxDays == m.overdueMaxDays)
      && (m.overdueMaxDays < 0 ==> s.overdueMaxDays == 0)
      && (m.intervalHours >= 1 ==> s.intervalHours == m.intervalHours)
      && (m.intervalHours < 1 ==> s.intervalHours == 1)
      && (m.timezone in zones ==> s.timezone == m.timezone) && (m.timezone !in zones ==> s.timezone == "UTC")
  {
  }

  /** Whatever the row holds, the app acts on non-negative leads and a positive 32-bit interval. */
  lemma LoadedIsSane(zones: set<string>, m: Model)
    requires m.overdueMaxDays <= I32_MAX && m.intervalHours <= I32_MAX && "UTC" in zones
    ensures var s := FromModel(zones, m);
      && (forall d :: d in s.leadDays ==> d >= 0)
      && 0 <= s.overdueMaxDays <= I32_MAX
      && 1 <= s.intervalHours <= I32_MAX
      && s.timezone in zones
  {
    KeepNonNegativeMeaning(Numbers(Split(m.leadDays, ',')));
  }

  // ---- the route -----------------------------------------------------------------------------

  /** The request body. */
  datatype Wire = Wire(
    onComment: bool, onStatusChange: bool, onAnyUpdate: bool, remindersEnabled: bool,
    recipients: string, leadDays: seq<int>, overdueMaxDays: int, intervalHours: nat, timezone: string)

  function ToWire(s: Settings): Wire {
    Wire(s.onComment, s.onStatusChange, s.onAnyUpdate, s.remindersEnabled,
         RecipientsName(s.recipients), s.leadDays, s.overdueMaxDays, s.intervalHours, s.timezone)
  }

  predicate Accepts(zones: set<string>, body: Wire) {
    && body.timezone in zones
    && (body.recipients == "assignee" || body.recipients == "assignee_and_subscribers")
    && body.intervalHours != 0
  }

  function Decoded(body: Wire): Settings {
    Settings(
      body.onComment, body.onStatusChange, body.onAnyUpdate, body.remindersEnabled,
      ParseRecipients(body.recipients), KeepNonNegative(body.leadDays), Max(body.overdueMaxDays, 0),
      body.intervalHours, body.timezone)
  }

  datatype Reply = Echo(wire: Wire) | BadRequest | Internal

  class SettingsTable {
    const zones: set<string>
    var row: Option<Model>

    constructor (zones: set<string>)
      ensures row == None && this.zones == zones
    {
      row := None;
      this.zones := zones;
    }

    function Load(): Settings
      reads this
    {
      if row.Some? then FromModel(zones, row.value) else DEFAULTS
    }

    /** Replaces the row and echoes the settings it was given; `saveOk`: the database accepts the write. */
    method Put(body: Wire, saveOk: bool) returns (reply: Reply)
      modifies this
      ensures reply == if !Accepts(zones, body) then BadRequest
                       else if saveOk then Echo(ToWire(Decoded(body))) else Internal
      ensures row == if reply.Echo? then Some(ToModel(Decoded(body))) else old(row)
      ensures reply.Echo? && AllI64(body.leadDays) ==>
        (reply.wire == ToWire(Load()) <==> body.overdueMaxDays <= I32_MAX && body.intervalHours <= I32_MAX)
    {
      if body.timezone !in zones {
        return BadRequest;
      }
      if body.recipients != "assignee" && body.recipients != "assignee_and_subscribers" {
        return BadRequest;
      }
      if body.intervalHours == 0 {
        return BadRequest;
      }
      var settings := Decoded(body);
      if !saveOk {
        return Internal;
      }
      row := Some(ToModel(settings));
      if AllI64(body.leadDays) {
        EchoIsLoadedIff(zones, body);
      }
      return Echo(ToWire(settings));
    }
  }

  /** What the route echoes is what the app then acts on, exactly when the two numbers fit 32 bits. */
  lemma EchoIsLoadedIff(zones: set<string>, body: Wire)
    requires Accepts(zones, body) && AllI64(body.leadDays)
    ensures ToWire(FromModel(zones, ToModel(Decoded(body)))) == ToWire(Decoded(body)) <==>
      body.overdueMaxDays <= I32_MAX && body.intervalHours <= I32_MAX
  {
    KeepNonNegativeMeaning(body.leadDays);
    SaveLoadIff(zones, Decoded(body));
  }

  /** The route echoes the body itself exactly if there is no negative number in it. */
  lemma EchoIsBodyIff(zones: set<string>, body: Wire)
    requires Accepts(zones, body)
    ensures ToWire(Decoded(body)) == body <==>
      (forall d :: d in body.leadDays ==> d >= 0) && body.overdueMaxDays >= 0
  {
    KeepNonNegativeMeaning(body.leadDays);
  }

  // ---- what the scheduler makes of them ----------------------------------------------------------

  /**
   The route accepts, the row stores and the app loads settings under which no reminder is ever sent:
   any cap beyond the whole calendar that fits the row, and any lead beyond the calendar.
   */
  lemma AcceptedSettingsCanSilence(zones: set<string>, body: Wire, scans: seq<Reminders.Scan>)
    requires Accepts(zones, body) && AllI64(body.leadDays)
    requires forall scan :: scan in scans ==> Reminders.InCalendar(scan.today)
    requires var days := Reminders.MAX_DAY - Reminders.MIN_DAY;
      (days < body.overdueMaxDays <= I32_MAX) || (exists l :: l in body.leadDays && l > days)
    ensures var loaded := FromModel(zones, ToModel(Decoded(body)));
      Reminders.History(Reminders.Steady(scans, loaded.leadDays, loaded.overdueMaxDays)) == ({}, [])
  {
    var settings := Decoded(body);
    KeepNonNegativeMeaning(body.leadDays);
    LeadDaysRoundTripIff(settings.leadDays);
    var loaded := FromModel(zones, ToModel(settings));
    assert loaded.leadDays == settings.leadDays;
    Reminders.HugeCadenceSilences(scans, loaded.leadDays, loaded.overdueMaxDays);
  }
}
