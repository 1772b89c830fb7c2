/** Notification routing: which destinations an event of a subject is delivered to. */
module Routing {
  import opened Sequences
  import opened Text

  datatype Kind = Chat | Dm

  datatype Destination = Destination(kind: Kind, target: string)

  /** Deliver to `destinations` when the subject matches and the event is listed; no list means all events. */
  datatype Rule = Rule(pattern: string, events: seq<string>, destinations: seq<Destination>)

  datatype RoutingConfig = RoutingConfig(rules: seq<Rule>, defaults: seq<Destination>)

  // What ends a namespace pattern.
  const NAMESPACE_SUFFIX := "/" + "*"

  // "*" matches everything, a namespace pattern its base and all below it, anything else only itself.
  predicate Matches(pattern: string, subject: string) {
    if pattern == "*" then true
    else if |pattern| >= 2 && pattern[|pattern| - 2..] == NAMESPACE_SUFFIX then
      var base := pattern[..|pattern| - 2];
      subject == base || base + "/" <= subject
    else pattern == subject
  }

  predicate Routes(rule: Rule, subject: string, event: string) {
    Matches(rule.pattern, subject) && (rule.events == [] || event in rule.events)
  }

  /** The destination lists of the rules that route the event, in order. */
  function RoutedLists(rules: seq<Rule>, subject: string, event: string): seq<seq<Destination>> {
    if rules == [] then []
    else if Routes(Last(rules), subject, event) then
      RoutedLists(Init(rules), subject, event) + [Last(rules).destinations]
    else RoutedLists(Init(rules), subject, event)
  }

  predicate Configured(rules: seq<Rule>, subject: string) {
    exists i :: 0 <= i < |rules| && Matches(rules[i].pattern, subject)
  }

  method PushUnique(out: seq<Destination>, d: Destination) returns (r: seq<Destination>)
    ensures r == PushNew(out, d)
  {
    r := out;
    if !exists i :: 0 <= i < |out| && out[i].kind == d.kind && out[i].target == d.target {
      r := r + [d];
    }
  }

  method PushAllUnique(out: seq<Destination>, ds: seq<Destination>) returns (r: seq<Destination>)
    ensures r == AppendNew(out, ds)
  {
    r := out;
    for i := 0 to |ds|
      invariant r == AppendNew(out, ds[..i])
    {
      assert Init(ds[..i + 1]) == ds[..i];
      r := PushUnique(r, ds[i]);
    }
    assert ds[..|ds|] == ds;
  }

  /**
   The first occurrences of all destinations of all rules that match both subject and event; or of
   the defaults, exactly when no rule matches the subject at all.
   */
  function Destinations(config: RoutingConfig, subject: string, event: string): seq<Destination> {
    FirstOcc(Candidates(config, subject, event))
  }

  /** Every destination of every rule that routes the event, in order and with repeats, or the defaults. */
  function Candidates(config: RoutingConfig, subject: string, event: string): seq<Destination> {
    if Configured(config.rules, subject) then Concat(RoutedLists(config.rules, subject, event)) else config.defaults
  }

  method DestinationsFor(config: RoutingConfig, subject: string, event: string) returns (out: seq<Destination>)
    ensures out == Destinations(config, subject, event)
  {
    out := [];
    var subjectMatched := false;
    for i := 0 to |config.rules|
      invariant subjectMatched <==> Configured(config.rules[..i], subject)
      invariant out == FirstOcc(Concat(RoutedLists(config.rules[..i], subject, event)))
    {
      var seen, rule := config.rules[..i], config.rules[i];
      assert Init(config.rules[..i + 1]) == seen && config.rules[..i + 1] == seen + [rule];
      assert Configured(config.rules[..i + 1], subject) <==> Configured(seen, subject) || Matches(rule.pattern, subject)
      by { ConfiguredIn(seen, rule, subject); }
      if !Matches(rule.pattern, subject) {
        continue;
      }
      subjectMatched := true;
      if rule.events != [] && event !in rule.events {
        continue;
      }
      RoutedExtends(seen, rule, subject, event);
      out := PushAllUnique(out, rule.destinations);
    }
    assert config.rules[..|config.rules|] == config.rules;
    if !subjectMatched {
      NothingRouted(config.rules, subject, event);
      out := PushAllUnique(out, config.defaults);
    }
  }

  lemma ConfiguredIn(rules: seq<Rule>, rule: Rule, subject: string)
    ensures Configured(rules + [rule], subject) <==> Configured(rules, subject) || Matches(rule.pattern, subject)
  {
    assert (rules + [rule])[|rules|] == rule;
    if Configured(rules, subject) {
      var i :| 0 <= i < |rules| && Matches(rules[i].pattern, subject);
      assert (rules + [rule])[i] == rules[i];
    }
  }

  lemma RoutedExtends(rules: seq<Rule>, rule: Rule, subject: string, event: string)
    requires Routes(rule, subject, event)
    ensures FirstOcc(Concat(RoutedLists(rules + [rule], subject, event)))
      == AppendNew(FirstOcc(Concat(RoutedLists(rules, subject, event))), rule.destinations)
  {
    assert Init(rules + [rule]) == rules;
    var lists := RoutedLists(rules, subject, event);
    assert Init(lists + [rule.destinations]) == lists;
    AppendNewConcat([], Concat(lists), rule.destinations);
  }

  lemma {:induction false} NothingRouted(rules: seq<Rule>, subject: string, event: string)
    requires !Configured(rules, subject)
    ensures RoutedLists(rules, subject, event) == []
  {
    if rules != [] {
      ConfiguredIn(Init(rules), Last(rules), subject);
      assert rules == Init(rules) + [Last(rules)];
      NothingRouted(Init(rules), subject, event);
    }
  }

  lemma {:induction false} RoutedMembers(rules: seq<Rule>, subject: string, event: string, d: Destination)
    ensures d in Concat(RoutedLists(rules, subject, event)) <==>
      exists rule :: rule in rules && Routes(rule, subject, event) && d in rule.destinations
  {
    if rules != [] {
      var p, last := Init(rules), Last(rules);
      RoutedMembers(p, subject, event, d);
      assert forall rule :: rule in rules <==> rule in p || rule == last by { assert rules == p + [last]; }
      if Routes(last, subject, event) {
        var lists := RoutedLists(p, subject, event);
        assert Init(lists + [last.destinations]) == lists;
      }
    }
  }

  /** A destination is delivered to exactly if a rule routes the event there, or no rule matches and it is a default. */
  lemma DeliveredIff(config: RoutingConfig, subject: string, event: string, d: Destination)
    ensures d in Destinations(config, subject, event) <==>
      (exists rule :: rule in config.rules && Matches(rule.pattern, subject)
                      && (rule.events == [] || event in rule.events) && d in rule.destinations)
      || ((forall rule :: rule in config.rules ==> !Matches(rule.pattern, subject)) && d in config.defaults)
  {
    RoutedMembers(config.rules, subject, event, d);
    AppendNewMembers([], Concat(RoutedLists(config.rules, subject, event)));
    AppendNewMembers([], config.defaults);
  }

  /** Delivery goes to each candidate once, in the order in which the rules, or the defaults, first name them. */
  lemma DeliveryOrder(config: RoutingConfig, subject: string, event: string)
    ensures ListsFirsts(Candidates(config, subject, event), Destinations(config, subject, event))
  {
    FirstOccMeaning(Candidates(config, subject, event));
  }

  /** Each destination once, and the same destinations for every order of the rules. */
  lemma RuleOrderIrrelevant(config: RoutingConfig, rules: seq<Rule>, subject: string, event: string)
    requires multiset(rules) == multiset(config.rules)
    ensures var here := Destinations(config, subject, event);
      var there := Destinations(config.(rules := rules), subject, event);
      NoDup(here) && |here| == |there| && forall d :: d in here <==> d in there
  {
    forall rule ensures rule in rules <==> rule in config.rules {
      assert rule in multiset(rules) <==> rule in multiset(config.rules);
    }
    var here := Destinations(config, subject, event);
    var there := Destinations(config.(rules := rules), subject, event);
    forall d ensures d in here <==> d in there {
      DeliveredIff(config, subject, event, d);
      DeliveredIff(config.(rules := rules), subject, event, d);
    }
    DeliveryOrder(config, subject, event);
    DeliveryOrder(config.(rules := rules), subject, event);
    NoDupCount(here, set d | d in here);
    NoDupCount(there, set d | d in here);
  }

  lemma {:induction false} NoDupCount<T(!new)>(s: seq<T>, elements: set<T>)
    requires NoDup(s) && forall x :: x in s <==> x in elements
    ensures |s| == |elements|
  {
    if s == [] {
      assert elements == {};
    } else {
      assert s == Init(s) + [Last(s)];
      NoDupCount(Init(s), elements - {Last(s)});
    }
  }

  // ---- patterns and path segments --------------------------------------------------------------

  lemma {:induction false} SplitAt(base: string, rest: string)
    ensures Split(base + "/" + rest, '/') == Split(base, '/') + Split(rest, '/')
  {
    var s := base + "/" + rest;
    if base == [] {
      assert s[1..] == rest;
    } else {
      assert s[1..] == base[1..] + "/" + rest;
      SplitAt(base[1..], rest);
    }
  }

  lemma {:induction false} JoinSplit(s: string)
    ensures Join(Split(s, '/'), "/") == s
  {
    if s != [] {
      JoinSplit(s[1..]);
      var rest := Split(s[1..], '/');
      if s[0] == '/' {
        assert Join([""] + rest, "/") == "" + "/" + Join(rest, "/") by { assert ([""] + rest)[1..] == rest; }
      } else {
        assert ([[s[0]] + rest[0]] + rest[1..])[1..] == rest[1..];
      }
    }
  }

  lemma {:induction false} JoinConcat(a: seq<string>, b: seq<string>)
    requires a != [] && b != []
    ensures Join(a + b, "/") == Join(a, "/") + "/" + Join(b, "/")
  {
    if |a| == 1 {
      assert (a + b)[1..] == b;
    } else {
      assert (a + b)[1..] == a[1..] + b;
      JoinConcat(a[1..], b);
    }
  }

  // A namespace pattern matches exactly the subjects whose path segments start with its base's.
  lemma NamespaceMatchesSegments(base: string, subject: string)
    ensures Matches(base + NAMESPACE_SUFFIX, subject) <==> Split(base, '/') <= Split(subject, '/')
  {
    var pattern := base + NAMESPACE_SUFFIX;
    assert pattern[|pattern| - 2..] == NAMESPACE_SUFFIX && pattern[..|pattern| - 2] == base;
    if base + "/" <= subject {
      var rest := subject[|base| + 1..];
      assert subject == base + "/" + rest;
      SplitAt(base, rest);
    }
    if Split(base, '/') <= Split(subject, '/') {
      var a, all := Split(base, '/'), Split(subject, '/');
      var b := all[|a|..];
      assert all == a + b;
      JoinSplit(base);
      JoinSplit(subject);
      if b != [] {
        JoinConcat(a, b);
      } else {
        assert a == all;
      }
    }
  }

  // The three kinds of patterns: everything, a namespace with all below it, and one subject only.
  lemma MatchesIff(pattern: string, subject: string)
    ensures Matches(pattern, subject) <==>
      || pattern == "*"
      || pattern == subject
      || exists base: string :: pattern == base + "/" + "*" && Split(base, '/') <= Split(subject, '/')
  {
    if |pattern| >= 2 && pattern[|pattern| - 2..] == NAMESPACE_SUFFIX {
      var base := pattern[..|pattern| - 2];
      assert pattern == base + "/" + "*" && pattern == base + NAMESPACE_SUFFIX;
      NamespaceMatchesSegments(base, subject);
      if pattern == subject {
        assert base + "/" <= subject;
      }
      forall other: string | pattern == other + "/" + "*" ensures other == base {
        assert |other| == |base| && other == pattern[..|other|];
      }
    } else {
      forall base: string ensures pattern != base + "/" + "*" {
        assert (base + "/" + "*")[|base|..] == NAMESPACE_SUFFIX;
      }
    }
  }
}
