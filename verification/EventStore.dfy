/**
 The event store: rows keyed by id, trimmed to a rolling window on every insert, and the two
 backfill queries. Rows are the database table; a query sees it in one piece.
 */
module EventStore {
  import opened Integers
  import opened Sequences

  const RETENTION_CAP: nat := 10000

  // ---- finite sets of ids, and their ascending listing -------------------------------

  ghost function MaxOf(s: set<nat>): (m: nat)
    requires s != {}
    ensures m in s && forall i :: i in s ==> i <= m
  {
    var i :| i in s;
    if s == {i} then i else
      assert s == {i} + (s - {i});
      var m := MaxOf(s - {i});
      if i < m then m else i
  }

  ghost function MinOf(s: set<nat>): (m: nat)
    requires s != {}
    ensures m in s && forall i :: i in s ==> m <= i
  {
    var i :| i in s;
    if s == {i} then i else
      assert s == {i} + (s - {i});
      var m := MinOf(s - {i});
      if m < i then m else i
  }

  ghost predicate Ascending(ids: seq<nat>) {
    forall i, j :: 0 <= i < j < |ids| ==> ids[i] < ids[j]
  }

  ghost function Elements(ids: seq<nat>): set<nat> {
    set i | i in ids
  }

  lemma SmallestFirst(s: set<nat>, m: nat, rest: seq<nat>)
    requires m in s && forall i :: i in s ==> m <= i
    requires Ascending(rest) && |rest| == |s - {m}| && forall i :: i in rest <==> i in s - {m}
    ensures var ids := [m] + rest; Ascending(ids) && |ids| == |s| && forall i :: i in ids <==> i in s
  {
    assert s == {m} + (s - {m});
    forall k | 0 <= k < |rest| ensures m < rest[k] {
      assert rest[k] in rest;
    }
  }

  /** ORDER BY id ASC. */
  ghost function Sorted(s: set<nat>): (ids: seq<nat>)
    ensures Ascending(ids) && |ids| == |s|
    ensures forall i :: i in ids <==> i in s
  {
    if s == {} then []
    else
      var m := MinOf(s);
      var rest := Sorted(s - {m});
      SmallestFirst(s, m, rest);
      [m] + rest
  }

  lemma {:induction false} AscendingIsSorted(ids: seq<nat>, s: set<nat>)
    requires Ascending(ids) && forall i :: i in ids <==> i in s
    ensures ids == Sorted(s)
  {
    if ids != [] {
      assert ids[0] in s && MinOf(s) in ids;
      assert ids == [ids[0]] + ids[1..];
      assert MinOf(s) == ids[0];
      AscendingIsSorted(ids[1..], s - {ids[0]});
    } else {
      assert s == {};
    }
  }

  lemma {:induction false} WindowBound(s: set<nat>, low: int, size: nat)
    requires forall i :: i in s ==> low < i <= low + size
    ensures |s| <= size
  {
    if size == 0 {
      assert s == {};
    } else if low + size >= 0 && low + size in s {
      WindowBound(s - {low + size}, low, size - 1);
    } else {
      WindowBound(s, low, size - 1);
    }
  }

  lemma SubsetCount(a: set<nat>, b: set<nat>)
    requires a <= b
    ensures |a| <= |b|
  {
    assert b == a + (b - a);
  }

  lemma AscendingCount(ids: seq<nat>)
    requires Ascending(ids)
    ensures |Elements(ids)| == |ids|
  {
    AscendingIsSorted(ids, Elements(ids));
  }

  // ---- the table ------------------------------------------------------------------------

  /** DELETE WHERE id <= MAX(id) - cap: the rows that stay. */
  ghost function Kept(ids: set<nat>): set<nat> {
    if ids == {} then {} else set i | i in ids && i > MaxOf(ids) - RETENTION_CAP
  }

  lemma KeptAtMostCap(ids: set<nat>)
    ensures |Kept(ids)| <= RETENTION_CAP
  {
    if ids != {} {
      WindowBound(Kept(ids), MaxOf(ids) - RETENTION_CAP, RETENTION_CAP);
    }
  }

  ghost function After(ids: set<nat>, since: int): set<nat> {
    set i | i in ids && i > since
  }

  /** Events with `id > since`, oldest first, at most `limit`. */
  ghost function SinceIds(ids: set<nat>, since: int, limit: nat): (r: seq<nat>)
    ensures Ascending(r) && |r| <= limit
    ensures forall i :: i in r ==> i in ids && i > since
  {
    var all := Sorted(After(ids, since));
    assert forall i :: i in all ==> i in After(ids, since);
    assert forall i :: i in all ==> i in ids && i > since;
    if |all| <= limit then all else all[..limit]
  }

  /** The last `limit` events, oldest first. */
  ghost function RecentIds(ids: set<nat>, limit: nat): (r: seq<nat>)
    ensures Ascending(r) && |r| <= limit
    ensures forall i :: i in r ==> i in ids
  {
    var all := Sorted(ids);
    if |all| <= limit then all else all[|all| - limit..]
  }

  /** The route's query casts the 64-bit unsigned id to a signed one, as the database compares. */
  ghost function SinceQuery(ids: set<nat>, since: nat, limit: nat): seq<nat> {
    SinceIds(ids, AsI64(since), limit)
  }

  /** The query gives the events after `since` exactly if the cast keeps it, or there is no event at all. */
  lemma SinceQueryIff(ids: set<nat>, since: nat, limit: nat)
    requires since < TWO_64 && limit > 0 && forall i :: i in ids ==> i < TWO_63
    ensures SinceQuery(ids, since, limit) == SinceIds(ids, since, limit) <==> since < TWO_63 || ids == {}
  {
    if since >= TWO_63 {
      assert After(ids, since) == {} && After(ids, since - TWO_64) == ids;
      if ids != {} {
        assert |Sorted(ids)| > 0 && |SinceIds(ids, since - TWO_64, limit)| > 0;
      } else {
        assert After(ids, since - TWO_64) == After(ids, since);
      }
    }
  }

  /** What a capped query leaves out lies beyond everything it returns. */
  lemma SinceIsPrefix(ids: set<nat>, since: int, limit: nat, i: nat)
    requires i in ids && i > since && i !in SinceIds(ids, since, limit)
    ensures var r := SinceIds(ids, since, limit);
      |r| == limit && forall k :: k in r ==> k < i
  {
    var all := Sorted(After(ids, since));
    assert i in After(ids, since);
    assert i in all;
    var p :| 0 <= p < |all| && all[p] == i;
    assert forall q :: 0 <= q < |all| && q < limit ==> all[q] in SinceIds(ids, since, limit);
  }

  lemma OlderThanSuffix(all: seq<nat>, first: nat, i: nat)
    requires Ascending(all) && first <= |all| && i in all && i !in all[first..]
    ensures forall k :: k in all[first..] ==> i < k
  {
    assert all == all[..first] + all[first..];
    var p :| 0 <= p < first && all[..first][p] == i;
    forall k | k in all[first..] ensures i < k {
      var q :| 0 <= q < |all| - first && all[first..][q] == k;
      assert all[p] == i && all[first + q] == k;
    }
  }

  /** What it leaves out is older than everything it returns, and only a full answer leaves anything out. */
  lemma RecentIsNewest(ids: set<nat>, limit: nat, i: nat)
    requires i in ids && i !in RecentIds(ids, limit)
    ensures var r := RecentIds(ids, limit);
      |r| == limit && forall k :: k in r ==> i < k
  {
    var all := Sorted(ids);
    assert i in all && |all| > limit;
    OlderThanSuffix(all, |all| - limit, i);
  }

  /** The last `limit` rows are all rows from the first of them on. */
  lemma RecentIsSuffix(ids: set<nat>, limit: nat, r: seq<nat>, i: nat)
    requires r == RecentIds(ids, limit) && r != [] && i in ids && i >= r[0]
    ensures i in r
  {
    assert r[0] in r;
    if i !in r {
      RecentIsNewest(ids, limit, i);
    }
  }

  lemma RecentIsSince(ids: set<nat>, limit: nat, r: seq<nat>)
    requires r == RecentIds(ids, limit) && r != [] && r[0] > 0
    ensures r == SinceIds(ids, r[0] - 1, limit)
  {
    var suffix := After(ids, r[0] - 1);
    forall i | i in suffix ensures i in r {
      RecentIsSuffix(ids, limit, r, i);
    }
    forall i | i in r ensures i in suffix {
      assert r[0] <= i;
    }
    AscendingIsSorted(r, suffix);
  }

  /** The stored ids after inserting one and trimming, for each outcome of the two statements. */
  ghost function Inserted(ids: set<nat>, id: nat, insertOk: bool, trimOk: bool): set<nat> {
    if !insertOk || id in ids then ids else if trimOk then Kept(ids + {id}) else ids + {id}
  }

  /** The highest id; none for an empty table, and none if the query fails. */
  ghost function MaxId(ids: set<nat>, readOk: bool): Option<nat> {
    if !readOk || ids == {} then None else Some(MaxOf(ids))
  }

  datatype Event = Event(id: nat, message: string)

  class Store {
    var rows: map<nat, Event>

    constructor ()
      ensures rows == map[]
    {
      rows := map[];
    }

    /**
     Appends one event, then drops rows outside the window. The id is the primary key, so a row
     with the same id makes the insert fail; `insertOk` and `trimOk` say whether the database
     accepts the two statements otherwise.
     */
    method Persist(event: Event, insertOk: bool, trimOk: bool) returns (ok: bool)
      modifies this
      ensures ok == (insertOk && event.id !in old(rows) && trimOk)
      ensures rows.Keys == Inserted(old(rows).Keys, event.id, insertOk, trimOk)
      ensures forall i :: i in rows ==> rows[i] == if i in old(rows) then old(rows)[i] else event
    {
      if !insertOk || event.id in rows {
        return false;
      }
      rows := rows[event.id := event];
      if !trimOk {
        return false;
      }
      ghost var all := rows.Keys;
      assert all == old(rows).Keys + {event.id} && MaxOf(all) in rows;
      rows := map i | i in rows && (forall k :: k in rows ==> k < i + RETENTION_CAP) :: rows[i];
      assert rows.Keys == Kept(all);
      return true;
    }
  }
}
