/**
 The outbox's round-robin order: `pending_outbox_items` lists the ids after the cursor first,
 and `run_once` moves the cursor to each item it visits.
 */
module RetryOrder {
  import opened Prelude

  /** The `CASE WHEN id > ? THEN 0 ELSE 1 END, id` order; cursor -1 stands for none. */
  predicate Earlier(cursor: int, a: int, b: int) {
    if (a > cursor) == (b > cursor) then a < b else a > cursor
  }

  ghost predicate Ascending(ids: seq<int>) {
    forall i, j :: 0 <= i < j < |ids| ==> ids[i] < ids[j]
  }

  ghost predicate InOrder(cursor: int, ids: seq<int>) {
    forall i, j :: 0 <= i < j < |ids| ==> Earlier(cursor, ids[i], ids[j])
  }

  /** How many of the ascending `ids` are at most `cursor`. */
  function Below(ids: seq<int>, cursor: int): (n: nat)
    ensures n <= |ids|
  {
    if ids == [] || ids[0] > cursor then 0 else 1 + Below(ids[1..], cursor)
  }

  lemma BelowSplits(ids: seq<int>, cursor: int)
    requires Ascending(ids)
    ensures var n := Below(ids, cursor);
            (forall i :: 0 <= i < n ==> ids[i] <= cursor) && (forall i :: n <= i < |ids| ==> ids[i] > cursor)
  {
    if ids != [] && ids[0] <= cursor {
      BelowSplits(ids[1..], cursor);
    }
  }

  /** The pending ids in the order in which the query returns them. */
  function Rotated(ids: seq<int>, cursor: int): (r: seq<int>)
    ensures |r| == |ids|
  {
    var n := Below(ids, cursor);
    ids[n..] + ids[..n]
  }

  /** The query's order is the one its ORDER BY clause asks for, and it loses and repeats nothing. */
  lemma {:induction false} RotatedIsOrdered(ids: seq<int>, cursor: int)
    requires Ascending(ids)
    ensures InOrder(cursor, Rotated(ids, cursor)) && multiset(Rotated(ids, cursor)) == multiset(ids)
    ensures forall x :: x in Rotated(ids, cursor) <==> x in ids
  {
    var n := Below(ids, cursor);
    BelowSplits(ids, cursor);
    SwapHalves(ids, n);
    HalvesInOrder(ids, n, cursor);
  }

  lemma {:induction false} HalvesInOrder(ids: seq<int>, n: nat, cursor: int)
    requires Ascending(ids) && n <= |ids|
    requires (forall i :: 0 <= i < n ==> ids[i] <= cursor) && forall i :: n <= i < |ids| ==> ids[i] > cursor
    ensures InOrder(cursor, ids[n..] + ids[..n])
  {
    var from := |ids| - n;
    forall i, j | 0 <= i < j < |ids|
      ensures Earlier(cursor, (ids[n..] + ids[..n])[i], (ids[n..] + ids[..n])[j])
    {
      var a, b := if i < from then n + i else i - from, if j < from then n + j else j - from;
      assert (ids[n..] + ids[..n])[i] == ids[a] && (ids[n..] + ids[..n])[j] == ids[b];
    }
  }

  lemma SwapHalves(ids: seq<int>, n: nat)
    requires n <= |ids|
    ensures multiset(ids[n..] + ids[..n]) == multiset(ids)
    ensures forall x :: x in ids[n..] + ids[..n] <==> x in ids
  {
    assert ids == ids[..n] + ids[n..];
    forall x ensures x in ids[n..] + ids[..n] <==> x in ids {
      assert x in ids[..n] + ids[n..] <==> x in ids[..n] || x in ids[n..];
    }
  }

  function Batch(ids: seq<int>, cursor: int, limit: nat): (b: seq<int>)
    ensures |b| <= limit && |b| <= |ids|
  {
    Take(Rotated(ids, cursor), limit)
  }

  /** The cursor after a call that visited the batch. */
  function NextCursor(cursor: int, batch: seq<int>): int {
    if batch == [] then cursor else batch[|batch| - 1]
  }

  /** No id twice in one call. */
  lemma BatchIsDistinct(ids: seq<int>, cursor: int, limit: nat)
    requires Ascending(ids)
    ensures var b := Batch(ids, cursor, limit); forall i, j :: 0 <= i < j < |b| ==> b[i] != b[j]
    ensures forall x :: x in Batch(ids, cursor, limit) ==> x in ids
  {
    RotatedIsOrdered(ids, cursor);
  }

  // ---- Fairness -------------------------------------------------------------------------------

  /** Where `x` stands in the order of the next call. */
  ghost predicate StandsAt(ids: seq<int>, cursor: int, x: int, i: nat) {
    i < |ids| && Rotated(ids, cursor)[i] == x
  }

  lemma ElementsOf(s: seq<int>) returns (e: set<int>)
    ensures e == (set x | x in s) && |e| <= |s|
  {
    e := set x | x in s;
    if s != [] {
      var rest := ElementsOf(s[1..]);
      assert e == {s[0]} + rest;
    } else {
      assert e == {};
    }
  }

  lemma DistinctCount(s: seq<int>, e: set<int>)
    requires forall i, j :: 0 <= i < j < |s| ==> s[i] != s[j]
    requires forall i :: 0 <= i < |s| ==> s[i] in e
    ensures |s| <= |e|
  {
    if s != [] {
      var rest := e - {s[0]};
      assert e == rest + {s[0]};
      DistinctCount(s[1..], rest);
    }
  }

  /** Seen from a later start `last`, what comes before `x` lies between `last` and `x`. */
  lemma StartingLater(cursor: int, last: int, x: int, y: int)
    requires Earlier(cursor, last, x) && Earlier(last, y, x)
    ensures Earlier(cursor, last, y) && Earlier(cursor, y, x)
  {
  }

  lemma PositionBetween(r: seq<int>, cursor: int, a: nat, b: nat, y: int)
    requires InOrder(cursor, r) && a < b < |r| && y in r && Earlier(cursor, r[a], y) && Earlier(cursor, y, r[b])
    ensures y in r[a + 1..b]
  {
    var j :| 0 <= j < |r| && r[j] == y;
    assert a < j < b;
    assert r[a + 1..b][j - a - 1] == y;
  }

  /** Whoever still comes before `x` in the next call came between the batch and `x` in this one. */
  lemma {:induction false} StillAhead(ids: seq<int>, cursor: int, limit: nat, i: nat, y: int)
    requires Ascending(ids) && 0 < limit <= i < |ids| && y in ids
    requires Earlier(NextCursor(cursor, Batch(ids, cursor, limit)), y, Rotated(ids, cursor)[i])
    ensures y in Rotated(ids, cursor)[limit..i]
  {
    var r := Rotated(ids, cursor);
    RotatedIsOrdered(ids, cursor);
    assert Earlier(cursor, r[limit - 1], r[i]);
    StartingLater(cursor, r[limit - 1], r[i], y);
    PositionBetween(r, cursor, limit - 1, i, y);
  }

  lemma StandsInBatch(ids: seq<int>, cursor: int, limit: nat, x: int, i: nat)
    requires StandsAt(ids, cursor, x, i) && i < limit
    ensures x in Batch(ids, cursor, limit)
  {
    assert Batch(ids, cursor, limit)[i] == x;
  }

  /** A call that does not visit `x` moves it forward by the whole batch. */
  lemma MovesForward(ids: seq<int>, cursor: int, limit: nat, x: int, i: nat, later: seq<int>) returns (k: nat)
    requires Ascending(ids) && Ascending(later) && limit > 0 && (forall y :: y in later ==> y in ids)
    requires StandsAt(ids, cursor, x, i) && i >= limit && x in later
    ensures StandsAt(later, NextCursor(cursor, Batch(ids, cursor, limit)), x, k) && k + limit <= i
  {
    var r, next := Rotated(ids, cursor), NextCursor(cursor, Batch(ids, cursor, limit));
    RotatedIsOrdered(ids, cursor);
    var s := Rotated(later, next);
    RotatedIsOrdered(later, next);
    k :| 0 <= k < |s| && s[k] == x;
    forall j | 0 <= j < k
      ensures s[j] in r[limit..i]
    {
      assert s[j] in s;
      StillAhead(ids, cursor, limit, i, s[j]);
    }
    var between := ElementsOf(r[limit..i]);
    DistinctCount(s[..k], between);
  }

  /** The pending ids and the cursor at the start of each of a number of consecutive calls. */
  datatype Call = Call(ids: seq<int>, cursor: int)

  /**
   Consecutive calls with no new rows and no restart: ids only leave, and each call moves the
   cursor over its batch.
   */
  ghost predicate Consecutive(calls: seq<Call>, limit: nat) {
    && (forall k :: 0 <= k < |calls| ==> Ascending(calls[k].ids))
    && (forall k :: 0 <= k < |calls| - 1 ==> Follows(calls[k], calls[k + 1], limit))
  }

  ghost predicate Follows(c: Call, next: Call, limit: nat) {
    && (forall y :: y in next.ids ==> y in c.ids)
    && next.cursor == NextCursor(c.cursor, Batch(c.ids, c.cursor, limit))
  }

  predicate Visits(c: Call, limit: nat, x: int) {
    x in Batch(c.ids, c.cursor, limit)
  }

  lemma {:induction false} VisitedFrom(calls: seq<Call>, limit: nat, x: int, i: nat) returns (k: nat)
    requires Consecutive(calls, limit) && limit > 0 && calls != [] && forall j :: 0 <= j < |calls| ==> x in calls[j].ids
    requires StandsAt(calls[0].ids, calls[0].cursor, x, i) && i < limit * |calls|
    ensures k < |calls| && Visits(calls[k], limit, x)
    decreases |calls|
  {
    var c := calls[0];
    if i < limit {
      StandsInBatch(c.ids, c.cursor, limit, x, i);
      k := 0;
    } else {
      assert limit * |calls| == limit + limit * |calls[1..]|;
      var next := MovesForward(c.ids, c.cursor, limit, x, i, calls[1].ids);
      ConsecutiveTail(calls, limit);
      k := VisitedFrom(calls[1..], limit, x, next);
      k := k + 1;
    }
  }

  lemma ConsecutiveTail(calls: seq<Call>, limit: nat)
    requires Consecutive(calls, limit) && calls != []
    ensures Consecutive(calls[1..], limit)
  {
  }

  /**
   Every row that stays pending is visited in any `ceil(n / limit)` consecutive calls, `n` being
   the number of pending rows at the start, whatever the sends do.
   */
  lemma EveryRowIsVisited(calls: seq<Call>, limit: nat, x: int)
    requires Consecutive(calls, limit) && limit > 0 && calls != [] && forall j :: 0 <= j < |calls| ==> x in calls[j].ids
    requires limit * |calls| >= |calls[0].ids|
    ensures exists k :: 0 <= k < |calls| && Visits(calls[k], limit, x)
  {
    var c := calls[0];
    RotatedIsOrdered(c.ids, c.cursor);
    var i :| 0 <= i < |c.ids| && Rotated(c.ids, c.cursor)[i] == x;
    var k := VisitedFrom(calls, limit, x, i);
  }

  /** The bound is tight: with one row more than the limit, one call leaves a row out. */
  lemma BoundIsTight(ids: seq<int>, limit: nat)
    requires Ascending(ids) && limit > 0 && |ids| == limit + 1 && ids[0] > -1
    ensures !Visits(Call(ids, -1), limit, ids[limit])
  {
    assert Below(ids, -1) == 0;
    assert Rotated(ids, -1) == ids;
  }
}
