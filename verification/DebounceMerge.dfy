/**
 Coalescing of rapid-fire issue updates: the per-window merge, the change lines it
 deduplicates, and the keyed map of pending updates.
 */
module DebounceMerge {
  import opened Sequences

  datatype Priority = NoPriority | Urgent | High | Medium | Low

  /** The fields of a notification that every newer update overwrites. */
  datatype Issue = Issue(
    identifier: string, id: string, title: string, description: Option<string>,
    status: string, priority: Priority, assignee: Option<string>, url: string)

  datatype Notification = Notification(
    isCreate: bool, statusChanged: bool, issue: Issue, changes: seq<string>)

  /** One webhook's contribution; a pending entry has the same shape. */
  datatype Update = Update(notif: Notification, dmEmail: Option<string>, actorId: Option<string>)

  // ---- merging two updates --------------------------------------------------

  /** What `newer` leaves pending when `existing` is already waiting. */
  function Merge(existing: Update, newer: Update): Update {
    Update(
      Notification(
        existing.notif.isCreate || newer.notif.isCreate,
        existing.notif.statusChanged || newer.notif.statusChanged,
        newer.notif.issue,
        AppendNew(existing.notif.changes, newer.notif.changes)),
      newer.dmEmail.Or(existing.dmEmail),
      newer.actorId.Or(existing.actorId))
  }

  lemma MergeAssociative(a: Update, b: Update, c: Update)
    ensures Merge(Merge(a, b), c) == Merge(a, Merge(b, c))
  {
    AppendNewAssociative(a.notif.changes, b.notif.changes, c.notif.changes);
  }

  /** The pending entry after the updates of `window` arrived one by one. */
  function Fold(window: seq<Update>): Update
    requires window != []
  {
    if |window| == 1 then window[0] else Merge(Fold(Init(window)), Last(window))
  }

  /** Merging is insensitive to how the window is grouped. */
  lemma {:induction false} FoldRegroups(earlier: seq<Update>, later: seq<Update>)
    requires earlier != [] && later != []
    ensures Fold(earlier + later) == Merge(Fold(earlier), Fold(later))
  {
    assert Init(earlier + later) == earlier + Init(later);
    if |later| == 1 {
      assert earlier + Init(later) == earlier;
    } else {
      FoldRegroups(earlier, Init(later));
      MergeAssociative(Fold(earlier), Fold(Init(later)), Last(later));
    }
  }

  // ---- what a window's notification says ------------------------------------

  function ChangeLists(window: seq<Update>): seq<seq<string>> {
    seq(|window|, i requires 0 <= i < |window| => window[i].notif.changes)
  }

  /** `value` is what the latest update carrying one says, or None if no update carries one. */
  ghost predicate IsLatest(values: seq<Option<string>>, value: Option<string>) {
    if value.None? then
      forall i :: 0 <= i < |values| ==> values[i].None?
    else
      exists i :: 0 <= i < |values| && values[i] == value && forall j :: i < j < |values| ==> values[j].None?
  }

  function Emails(window: seq<Update>): seq<Option<string>> {
    seq(|window|, i requires 0 <= i < |window| => window[i].dmEmail)
  }

  function Actors(window: seq<Update>): seq<Option<string>> {
    seq(|window|, i requires 0 <= i < |window| => window[i].actorId)
  }

  /** `u` summarises `window`, without reference to the order in which merging happened. */
  ghost predicate Summarises(u: Update, window: seq<Update>)
    requires window != []
  {
    && u.notif.issue == Last(window).notif.issue
    && (u.notif.isCreate <==> exists i :: 0 <= i < |window| && window[i].notif.isCreate)
    && (u.notif.statusChanged <==> exists i :: 0 <= i < |window| && window[i].notif.statusChanged)
    && IsLatest(Emails(window), u.dmEmail)
    && IsLatest(Actors(window), u.actorId)
    && u.notif.changes == FirstOcc(Concat(ChangeLists(window)))
  }

  lemma LatestOr(values: seq<Option<string>>, value: Option<string>, newest: Option<string>)
    requires IsLatest(values, value)
    ensures IsLatest(values + [newest], newest.Or(value))
  {
    var all := values + [newest];
    if newest.Some? {
      assert all[|values|] == newest;
    } else if value.Some? {
      var i :| 0 <= i < |values| && values[i] == value && forall j :: i < j < |values| ==> values[j].None?;
      assert all[i] == value;
    }
  }

  /**
   The merged notification of any window is the newest issue state with OR-ed flags, the
   latest e-mail and actor present, and the first occurrences of all change lines; the last
   point holds exactly when the window's first update repeats no line itself.
   */
  lemma {:induction false} FoldSummarises(window: seq<Update>)
    requires window != []
    ensures Summarises(Fold(window), window) <==> NoDup(window[0].notif.changes)
  {
    FoldSummaryParts(window);
    FoldChanges(window);
    var first, rest := window[0].notif.changes, Concat(ChangeLists(window[1..]));
    assert ChangeLists(window) == [first] + ChangeLists(window[1..]);
    ConcatAppend([first], ChangeLists(window[1..]));
    assert Concat([first]) == first by { assert Init([first]) == []; assert [] + first == first; }
    AppendNewIsFirstOcc(first, rest);
  }

  /**
   Where it holds, the notification lists each line of the window once, and exactly those, in the order
   in which they first came up.
   */
  lemma SummaryLines(window: seq<Update>)
    requires window != [] && NoDup(window[0].notif.changes)
    ensures ListsFirsts(Concat(ChangeLists(window)), Fold(window).notif.changes)
  {
    FoldSummarises(window);
    FirstOccMeaning(Concat(ChangeLists(window)));
  }

  lemma {:induction false} FoldChanges(window: seq<Update>)
    requires window != []
    ensures Fold(window).notif.changes == AppendNew(window[0].notif.changes, Concat(ChangeLists(window[1..])))
  {
    if |window| == 1 {
      assert ChangeLists(window[1..]) == [];
    } else {
      var p := Init(window);
      FoldChanges(p);
      assert ChangeLists(window[1..]) == ChangeLists(p[1..]) + [Last(window).notif.changes];
      assert Init(ChangeLists(window[1..])) == ChangeLists(p[1..]);
      AppendNewConcat(window[0].notif.changes, Concat(ChangeLists(p[1..])), Last(window).notif.changes);
    }
  }

  lemma {:induction false} FoldSummaryParts(window: seq<Update>)
    requires window != []
    ensures var u := Fold(window);
      && u.notif.issue == Last(window).notif.issue
      && (u.notif.isCreate <==> exists i :: 0 <= i < |window| && window[i].notif.isCreate)
      && (u.notif.statusChanged <==> exists i :: 0 <= i < |window| && window[i].notif.statusChanged)
      && IsLatest(Emails(window), u.dmEmail)
      && IsLatest(Actors(window), u.actorId)
  {
    if |window| == 1 {
      assert window[0].dmEmail == Emails(window)[0] && window[0].actorId == Actors(window)[0];
    } else {
      var p, u := Init(window), Last(window);
      FoldSummaryParts(p);
      assert window == p + [u];
      assert Emails(window) == Emails(p) + [u.dmEmail] && Actors(window) == Actors(p) + [u.actorId];
      LatestOr(Emails(p), Fold(p).dmEmail, u.dmEmail);
      LatestOr(Actors(p), Fold(p).actorId, u.actorId);
    }
  }

  // ---- change lines ----------------------------------------------------------

  /** The `state` value of a webhook's `updatedFrom`, as far as the change line reads it. */
  datatype OldState = Named(name: string) | Flat(name: string) | Unreadable

  datatype UpdatedFrom = UpdatedFrom(
    state: Option<OldState>, priority: Option<nat>, assigneeId: bool, assignee: Option<Option<string>>)

  function FromLinear(value: nat): Priority {
    match value
    case 1 => Urgent
    case 2 => High
    case 3 => Medium
    case 4 => Low
    case _ => NoPriority
  }

  function Display(p: Priority): string {
    match p
    case Urgent => "🔴 Urgent"
    case High => "🟠 High"
    case Medium => "🟡 Medium"
    case Low => "🔵 Low"
    case NoPriority => "⚪ None"
  }

  function StatusLine(issue: Issue, previous: OldState): string {
    "**Status:** " + (if previous.Unreadable? then "Unknown" else previous.name) + " → " + issue.status
  }

  function PriorityLine(issue: Issue, previous: nat): string {
    "**Priority:** " + Display(FromLinear(previous)) + " → " + Display(issue.priority)
  }

  function AssigneeLine(issue: Issue, previous: Option<Option<string>>): string {
    var oldName := if previous.Some? then previous.value.UnwrapOr("Unassigned") else "Unassigned";
    "**Assignee:** " + oldName + " → " + issue.assignee.UnwrapOr("Unassigned")
  }

  /** One line per field that `uf` reports as changed: status, priority, assignee. */
  function ChangeLines(issue: Issue, uf: UpdatedFrom): seq<string> {
    (if uf.state.Some? then [StatusLine(issue, uf.state.value)] else [])
    + (if uf.priority.Some? then [PriorityLine(issue, uf.priority.value)] else [])
    + (if uf.assigneeId || uf.assignee.Some? then [AssigneeLine(issue, uf.assignee)] else [])
  }

  /** No update repeats a change line, so every window meets the condition of FoldSummarises. */
  lemma ChangeLinesDistinct(issue: Issue, uf: UpdatedFrom)
    ensures NoDup(ChangeLines(issue, uf))
  {
    if uf.state.Some? {
      assert StatusLine(issue, uf.state.value)[2] == 'S';
    }
    if uf.priority.Some? {
      assert PriorityLine(issue, uf.priority.value)[2] == 'P';
    }
    assert AssigneeLine(issue, uf.assignee)[2] == 'A';
  }

  /** What was before the first arrow of a line, and what comes after it. */
  function AroundArrow(line: string): Option<(string, string)> {
    if line == "" then None
    else if line[0] == '→' then Some(("", line[1..]))
    else
      var rest := AroundArrow(line[1..]);
      if rest.None? then None else Some(([line[0]] + rest.value.0, rest.value.1))
  }

  lemma {:induction false} AroundFirstArrow(before: string, after: string)
    requires '→' !in before
    ensures AroundArrow(before + "→" + after) == Some((before, after))
  {
    var line := before + "→" + after;
    if before == "" {
      assert line[1..] == after;
    } else {
      assert before == [before[0]] + before[1..] && line[1..] == before[1..] + "→" + after;
      AroundFirstArrow(before[1..], after);
    }
  }

  /** The line starts with the field's label, gives the old value, and after the arrow the new one. */
  predicate Shows(line: string, head: string, from: string, to: string) {
    '→' !in from ==> AroundArrow(line) == Some((head + from + " ", " " + to))
  }

  lemma LineShows(line: string, head: string, from: string, to: string)
    requires '→' !in head && line == head + from + " → " + to
    ensures Shows(line, head, from, to)
  {
    if '→' !in from {
      assert line == (head + from + " ") + "→" + (" " + to);
      AroundFirstArrow(head + from + " ", " " + to);
    }
  }

  /** Linear's priorities: 1 to 4 from urgent to low, any other number none. */
  lemma PriorityNames(n: nat)
    ensures Display(FromLinear(n)) ==
      if n == 1 then "🔴 Urgent" else if n == 2 then "🟠 High" else if n == 3 then "🟡 Medium"
      else if n == 4 then "🔵 Low" else "⚪ None"
  {
  }

  function OldStatus(state: OldState): string {
    match state
    case Named(name) => name
    case Flat(name) => name
    case Unreadable => "Unknown"
  }

  function NameOr(name: Option<string>): string {
    match name
    case Some(n) => n
    case None => "Unassigned"
  }

  /** The lines of an update, one by one: for each field reported as changed, its old value and its new one. */
  lemma ChangeLinesShow(issue: Issue, uf: UpdatedFrom)
    ensures var lines := ChangeLines(issue, uf);
      var n := if uf.state.Some? then 1 else 0;
      var m := n + if uf.priority.Some? then 1 else 0;
      && |lines| == m + (if uf.assigneeId || uf.assignee.Some? then 1 else 0)
      && (uf.state.Some? ==> Shows(lines[0], "**Status:** ", OldStatus(uf.state.value), issue.status))
      && (uf.priority.Some? ==>
            Shows(lines[n], "**Priority:** ", Display(FromLinear(uf.priority.value)), Display(issue.priority)))
      && (uf.assigneeId || uf.assignee.Some? ==>
            Shows(lines[m], "**Assignee:** ", NameOr(if uf.assignee.Some? then uf.assignee.value else None),
                  NameOr(issue.assignee)))
  {
    if uf.state.Some? {
      LineShows(StatusLine(issue, uf.state.value), "**Status:** ", OldStatus(uf.state.value), issue.status);
    }
    if uf.priority.Some? {
      LineShows(PriorityLine(issue, uf.priority.value), "**Priority:** ", Display(FromLinear(uf.priority.value)),
                Display(issue.priority));
    }
    LineShows(AssigneeLine(issue, uf.assignee), "**Assignee:** ",
              NameOr(if uf.assignee.Some? then uf.assignee.value else None), NameOr(issue.assignee));
  }

  /** Compares an updated issue against its previous state; no lines when that is absent. */
  method BuildChangeFields(issue: Issue, updatedFrom: Option<UpdatedFrom>) returns (changes: seq<string>)
    ensures changes == if updatedFrom.Some? then ChangeLines(issue, updatedFrom.value) else []
    ensures NoDup(changes)
  {
    changes := [];
    if updatedFrom.None? {
      return;
    }
    var uf := updatedFrom.value;
    ChangeLinesDistinct(issue, uf);
    if uf.state.Some? {
      changes := changes + [StatusLine(issue, uf.state.value)];
    }
    if uf.priority.Some? {
      changes := changes + [PriorityLine(issue, uf.priority.value)];
    }
    if uf.assigneeId || uf.assignee.Some? {
      changes := changes + [AssigneeLine(issue, uf.assignee)];
    }
  }

  // ---- the map of pending updates ---------------------------------------------

  /** The pending updates after `update` arrived for `key`. */
  function Upserted(pending: map<string, Update>, key: string, update: Update): map<string, Update> {
    pending[key := if key in pending then Merge(pending[key], update) else update]
  }

  /** A oneshot channel, reduced to whether its receiver has resolved. */
  class Oneshot {
    var resolved: bool

    constructor ()
      ensures !resolved
    {
      resolved := false;
    }

    method Send()
      modifies this
      ensures resolved
    {
      resolved := true;
    }
  }

  datatype Pending = Pending(update: Update, cancelTx: Oneshot)

  class DebounceMap {
    var pending: map<string, Pending>

    constructor ()
      ensures Contents() == map[]
    {
      pending := map[];
    }

    ghost function Contents(): map<string, Update>
      reads this
    {
      map k | k in pending :: pending[k].update
    }

    /**
     Inserts or merges an update for `key`, cancelling the timer of the entry it replaces.
     The returned channel is new, unresolved, and the one stored with the entry.
     */
    method Upsert(key: string, update: Update) returns (cancelRx: Oneshot)
      modifies this, if key in pending then {pending[key].cancelTx} else {}
      ensures Contents() == Upserted(old(Contents()), key, update)
      ensures fresh(cancelRx) && !cancelRx.resolved
      ensures key in pending && pending[key].cancelTx == cancelRx
      ensures forall k :: k in pending && k != key ==> k in old(pending) && pending[k] == old(pending)[k]
      ensures key in old(pending) ==> old(pending)[key].cancelTx.resolved
    {
      var merged := update;
      if key in pending {
        var existing := pending[key];
        pending := pending - {key};
        existing.cancelTx.Send();
        var changes := existing.update.notif.changes;
        var incoming := update.notif.changes;
        for i := 0 to |incoming|
          invariant changes == AppendNew(existing.update.notif.changes, incoming[..i])
        {
          assert Init(incoming[..i + 1]) == incoming[..i];
          if incoming[i] !in changes {
            changes := changes + [incoming[i]];
          }
        }
        assert incoming[..|incoming|] == incoming;
        merged := Update(
          merged.notif.(
            changes := changes,
            isCreate := existing.update.notif.isCreate || merged.notif.isCreate,
            statusChanged := existing.update.notif.statusChanged || merged.notif.statusChanged),
          merged.dmEmail.Or(existing.update.dmEmail),
          merged.actorId.Or(existing.update.actorId));
      }
      cancelRx := new Oneshot();
      pending := pending[key := Pending(merged, cancelRx)];
    }

    /** Takes the entry of `key` out of the map; the entry still owns its cancel channel. */
    method Take(key: string) returns (taken: Option<Pending>)
      modifies this
      ensures Contents() == old(Contents()) - {key}
      ensures pending == old(pending) - {key}
      ensures taken == if key in old(pending) then Some(old(pending)[key]) else None
    {
      taken := if key in pending then Some(pending[key]) else None;
      pending := pending - {key};
    }
  }
}
