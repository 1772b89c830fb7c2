/** Who a due-date reminder and a subscriber notification are sent to, and when somebody is sent it twice. */
module ReminderRecipients {
  import opened Sequences

  // ---- sorting and removing repeats ------------------------------------------------------------

  /** Code-point order. */
  predicate AtMost(a: string, b: string) {
    a == "" || (b != "" && (a[0] < b[0] || (a[0] == b[0] && AtMost(a[1..], b[1..]))))
  }

  lemma {:induction false} AtMostIsTotal(a: string, b: string)
    ensures AtMost(a, b) || AtMost(b, a)
    ensures AtMost(a, b) && AtMost(b, a) ==> a == b
  {
    if a != "" && b != "" {
      AtMostIsTotal(a[1..], b[1..]);
      assert a == [a[0]] + a[1..] && b == [b[0]] + b[1..];
    }
  }

  lemma {:induction false} AtMostIsTransitive(a: string, b: string, c: string)
    requires AtMost(a, b) && AtMost(b, c)
    ensures AtMost(a, c)
  {
    if a != "" && a[0] == b[0] && b[0] == c[0] {
      AtMostIsTransitive(a[1..], b[1..], c[1..]);
    }
  }

  ghost predicate InOrder(s: seq<string>) {
    forall i, j :: 0 <= i < j < |s| ==> AtMost(s[i], s[j])
  }

  function Insert(s: seq<string>, x: string): seq<string> {
    if s == [] then [x] else if AtMost(x, s[0]) then [x] + s else [s[0]] + Insert(s[1..], x)
  }

  function Sort(s: seq<string>): seq<string> {
    if s == [] then [] else Insert(Sort(Init(s)), Last(s))
  }

  /** Removes elements equal to the one before them. */
  function Dedup(s: seq<string>): seq<string> {
    if |s| <= 1 then s else if s[0] == s[1] then Dedup(s[1..]) else [s[0]] + Dedup(s[1..])
  }

  lemma HeadInOrder(x: string, s: seq<string>)
    requires InOrder(s) && forall y :: y in s ==> AtMost(x, y)
    ensures InOrder([x] + s)
  {
  }

  lemma {:induction false} InsertMembers(s: seq<string>, x: string)
    ensures forall y :: y in Insert(s, x) <==> y in s || y == x
  {
    if s != [] {
      assert s == [s[0]] + s[1..];
      InsertMembers(s[1..], x);
    }
  }

  lemma {:induction false} InsertInOrder(s: seq<string>, x: string)
    requires InOrder(s)
    ensures InOrder(Insert(s, x))
  {
    if s != [] {
      AtMostIsTotal(x, s[0]);
      if AtMost(x, s[0]) {
        forall y | y in s ensures AtMost(x, y) {
          var i :| 0 <= i < |s| && s[i] == y;
          AtMostIsTotal(y, y);
          AtMostIsTransitive(x, s[0], y);
        }
        HeadInOrder(x, s);
      } else {
        InsertInOrder(s[1..], x);
        InsertMembers(s[1..], x);
        HeadInOrder(s[0], Insert(s[1..], x));
      }
    }
  }

  lemma {:induction false} SortMeaning(s: seq<string>)
    ensures InOrder(Sort(s)) && forall y :: y in Sort(s) <==> y in s
  {
    if s != [] {
      SortMeaning(Init(s));
      InsertInOrder(Sort(Init(s)), Last(s));
      InsertMembers(Sort(Init(s)), Last(s));
      assert s == Init(s) + [Last(s)];
    }
  }

  lemma {:induction false} DedupMembers(s: seq<string>)
    ensures forall y :: y in Dedup(s) <==> y in s
  {
    if |s| > 1 {
      assert s == [s[0]] + s[1..];
      DedupMembers(s[1..]);
    }
  }

  /** On a sorted list, dropping neighbours that repeat leaves no repeat at all. */
  lemma {:induction false} DedupOfSorted(s: seq<string>)
    requires InOrder(s)
    ensures NoDup(Dedup(s))
  {
    if |s| > 1 {
      DedupOfSorted(s[1..]);
      DedupMembers(s[1..]);
      if s[0] != s[1] {
        FirstNotLater(s);
      }
    }
  }

  lemma FirstNotLater(s: seq<string>)
    requires InOrder(s) && |s| > 1 && s[0] != s[1]
    ensures s[0] !in s[1..]
  {
    AtMostIsTotal(s[0], s[1]);
    forall i | 1 <= i < |s| ensures s[i] != s[0] {
      assert i > 1 ==> AtMost(s[1], s[i]);
    }
  }

  // ---- reminders -----------------------------------------------------------------------------

  datatype Person = Person(id: string, email: string, active: bool)

  /** The address used in Lark for a Linear address: the administrator's override, or the same address. */
  function Resolve(overrides: map<string, string>, email: string): string {
    if email in overrides then overrides[email] else email
  }

  function ResolveAll(overrides: map<string, string>, emails: seq<string>): (r: seq<string>)
    ensures |r| == |emails|
  {
    seq(|emails|, i requires 0 <= i < |emails| => Resolve(overrides, emails[i]))
  }

  function ActiveEmails(people: seq<Person>): seq<string> {
    if people == [] then []
    else
      var before, p := ActiveEmails(Init(people)), Last(people);
      if p.active && p.email != "" then before + [p.email] else before
  }

  /** The Linear addresses of a reminder, each once. */
  function Addressees(assignee: Option<Person>, subscribers: seq<Person>, includeSubscribers: bool): seq<string> {
    var first := if assignee.Some? && assignee.value.email != "" then [assignee.value.email] else [];
    Dedup(Sort(first + if includeSubscribers then ActiveEmails(subscribers) else []))
  }

  /** The addresses a reminder is sent to. */
  method SendReminder(
    assignee: Option<Person>, subscribers: seq<Person>, includeSubscribers: bool, overrides: map<string, string>)
    returns (larkEmails: seq<string>)
    ensures larkEmails == ResolveAll(overrides, Addressees(assignee, subscribers, includeSubscribers))
  {
    var linearEmails := [];
    if assignee.Some? && assignee.value.email != "" {
      linearEmails := [assignee.value.email];
    }
    ghost var first: seq<string> := linearEmails;
    if includeSubscribers {
      for i := 0 to |subscribers|
        invariant linearEmails == first + ActiveEmails(subscribers[..i])
      {
        assert Init(subscribers[..i + 1]) == subscribers[..i];
        var s := subscribers[i];
        if s.active && s.email != "" {
          linearEmails := linearEmails + [s.email];
        }
      }
      assert subscribers[..|subscribers|] == subscribers;
    } else {
      assert first + [] == first;
    }
    linearEmails := Dedup(Sort(linearEmails));
    larkEmails := [];
    for i := 0 to |linearEmails|
      invariant larkEmails == ResolveAll(overrides, linearEmails[..i])
    {
      larkEmails := larkEmails + [Resolve(overrides, linearEmails[i])];
    }
    assert linearEmails[..|linearEmails|] == linearEmails;
  }

  lemma {:induction false} ActiveEmailsMeaning(people: seq<Person>)
    ensures forall e :: e in ActiveEmails(people) <==>
      exists p :: p in people && p.active && p.email != "" && p.email == e
  {
    if people != [] {
      ActiveEmailsMeaning(Init(people));
      assert people == Init(people) + [Last(people)];
    }
  }

  /** Exactly the assignee and, where configured, the active subscribers, as far as they have an address; each once. */
  lemma AddresseesMeaning(assignee: Option<Person>, subscribers: seq<Person>, includeSubscribers: bool)
    ensures var r := Addressees(assignee, subscribers, includeSubscribers);
      && NoDup(r)
      && forall e :: e in r <==>
        || (assignee.Some? && assignee.value.email == e && e != "")
        || (includeSubscribers && exists p :: p in subscribers && p.active && p.email != "" && p.email == e)
  {
    var first := if assignee.Some? && assignee.value.email != "" then [assignee.value.email] else [];
    var all := first + if includeSubscribers then ActiveEmails(subscribers) else [];
    ActiveEmailsMeaning(subscribers);
    SortMeaning(all);
    DedupMembers(Sort(all));
    DedupOfSorted(Sort(all));
  }

  /** The overrides send two of the addresses to the same place. */
  ghost predicate Collide(overrides: map<string, string>, emails: seq<string>) {
    exists a, b :: a in emails && b in emails && a != b && Resolve(overrides, a) == Resolve(overrides, b)
  }

  /** Repeats are removed before the overrides apply: somebody is reminded twice exactly if two addresses collide. */
  lemma RemindedOnceIff(
    assignee: Option<Person>, subscribers: seq<Person>, includeSubscribers: bool, overrides: map<string, string>)
    ensures var emails := Addressees(assignee, subscribers, includeSubscribers);
      NoDup(ResolveAll(overrides, emails)) <==> !Collide(overrides, emails)
  {
    AddresseesMeaning(assignee, subscribers, includeSubscribers);
    ResolvedOnceIff(overrides, Addressees(assignee, subscribers, includeSubscribers));
  }

  lemma ResolvedOnceIff(overrides: map<string, string>, emails: seq<string>)
    requires NoDup(emails)
    ensures NoDup(ResolveAll(overrides, emails)) <==> !Collide(overrides, emails)
  {
    var r := ResolveAll(overrides, emails);
    if Collide(overrides, emails) {
      var a, b :| a in emails && b in emails && a != b && Resolve(overrides, a) == Resolve(overrides, b);
      var i :| 0 <= i < |emails| && emails[i] == a;
      var j :| 0 <= j < |emails| && emails[j] == b;
      assert r[i] == r[j];
    } else {
      forall i, j | 0 <= i < j < |r| ensures r[i] != r[j] {
        assert emails[i] in emails && emails[j] in emails;
      }
    }
  }

  /** Reminder number k goes to the override of address number k if there is one, and to that very address otherwise. */
  lemma RemindersGoTo(
    assignee: Option<Person>, subscribers: seq<Person>, includeSubscribers: bool, overrides: map<string, string>,
    k: nat)
    requires k < |Addressees(assignee, subscribers, includeSubscribers)|
    ensures var emails := Addressees(assignee, subscribers, includeSubscribers);
      var sentTo := ResolveAll(overrides, emails);
      && |sentTo| == |emails|
      && (emails[k] in overrides ==> sentTo[k] == overrides[emails[k]])
      && (emails[k] !in overrides ==> sentTo[k] == emails[k])
  {
  }

  /** An assignee and a subscriber overridden to one address: it gets the same reminder more than once. */
  lemma OverridesCanCollide(assignee: Person, subscriber: Person, to: string)
    requires assignee.email != "" && subscriber.email != "" && assignee.email != subscriber.email && subscriber.active
    ensures var overrides := map[assignee.email := to, subscriber.email := to];
      var sentTo := ResolveAll(overrides, Addressees(Some(assignee), [subscriber], true));
      |sentTo| > 1 && forall e :: e in sentTo ==> e == to
  {
    var emails := Addressees(Some(assignee), [subscriber], true);
    AddresseesMeaning(Some(assignee), [subscriber], true);
    assert subscriber in [subscriber];
    assert assignee.email in emails && subscriber.email in emails;
    forall i | 0 <= i < |emails| ensures emails[i] == assignee.email || emails[i] == subscriber.email {
      assert emails[i] in emails;
    }
  }

  // ---- subscribers ---------------------------------------------------------------------------

  /** Active, with an address, and not the one who caused the event. */
  predicate Wanted(s: Person, actor: Option<string>) {
    s.active && s.email != "" && Some(s.id) != actor
  }

  function Notified(subscribers: seq<Person>, actor: Option<string>, overrides: map<string, string>): seq<string> {
    if subscribers == [] then []
    else
      var before, s := Notified(Init(subscribers), actor, overrides), Last(subscribers);
      if Wanted(s, actor) then before + [Resolve(overrides, s.email)] else before
  }

  method NotifySubscribers(subscribers: seq<Person>, actor: Option<string>, overrides: map<string, string>)
    returns (emails: seq<string>)
    ensures emails == Notified(subscribers, actor, overrides)
  {
    emails := [];
    for i := 0 to |subscribers|
      invariant emails == Notified(subscribers[..i], actor, overrides)
    {
      assert Init(subscribers[..i + 1]) == subscribers[..i];
      var s := subscribers[i];
      if !s.active || s.email == "" || Some(s.id) == actor {
        continue;
      }
      emails := emails + [Resolve(overrides, s.email)];
    }
    assert subscribers[..|subscribers|] == subscribers;
  }

  /** The positions of the subscribers to be notified. */
  function Positions(subscribers: seq<Person>, actor: Option<string>): (who: seq<nat>)
    ensures forall k :: 0 <= k < |who| ==> who[k] < |subscribers|
    ensures forall i, j :: 0 <= i < j < |who| ==> who[i] < who[j]
  {
    if subscribers == [] then []
    else
      var before := Positions(Init(subscribers), actor);
      if Wanted(Last(subscribers), actor) then before + [|subscribers| - 1] else before
  }

  lemma {:induction false} PositionsIff(subscribers: seq<Person>, actor: Option<string>, i: nat)
    ensures i in Positions(subscribers, actor) <==> i < |subscribers| && Wanted(subscribers[i], actor)
  {
    if subscribers != [] {
      PositionsIff(Init(subscribers), actor, i);
      assert i < |subscribers| - 1 ==> Init(subscribers)[i] == subscribers[i];
    }
  }

  lemma {:induction false} NotifiedAddresses(
    subscribers: seq<Person>, actor: Option<string>, overrides: map<string, string>, emails: seq<string>, who: seq<nat>)
    requires emails == Notified(subscribers, actor, overrides) && who == Positions(subscribers, actor)
    ensures |emails| == |who|
    ensures forall k :: 0 <= k < |who| ==> emails[k] == Resolve(overrides, subscribers[who[k]].email)
  {
    if subscribers != [] {
      var p := Init(subscribers);
      var before := Positions(p, actor);
      NotifiedAddresses(p, actor, overrides, Notified(p, actor, overrides), before);
      forall k | 0 <= k < |who| ensures emails[k] == Resolve(overrides, subscribers[who[k]].email) {
        assert k < |before| ==> subscribers[before[k]] == p[before[k]];
      }
    }
  }

  /** Message number k goes to the address of the k-th subscriber that is Wanted; there are no others. */
  lemma NotifiedMeaning(subscribers: seq<Person>, actor: Option<string>, overrides: map<string, string>)
    ensures |Notified(subscribers, actor, overrides)| == |Positions(subscribers, actor)|
    ensures forall k :: 0 <= k < |Positions(subscribers, actor)| ==>
      var email := subscribers[Positions(subscribers, actor)[k]].email;
      Notified(subscribers, actor, overrides)[k] == if email in overrides then overrides[email] else email
    ensures forall i: nat :: i in Positions(subscribers, actor) <==>
      i < |subscribers| && subscribers[i].active && subscribers[i].email != "" && Some(subscribers[i].id) != actor
  {
    NotifiedAddresses(
      subscribers, actor, overrides, Notified(subscribers, actor, overrides), Positions(subscribers, actor));
    forall i: nat
      ensures i in Positions(subscribers, actor) <==> i < |subscribers| && Wanted(subscribers[i], actor)
    {
      PositionsIff(subscribers, actor, i);
    }
  }
}
