/**
 The telemetry export reads the database in keyset pages. On a fixed database the
 pages join up to the full ordered scan.
 */
module TelemetryPages {
  import opened Prelude
  import opened Timestamps

  /** One joined row of `event_telemetry` and `events`; the columns not compared are `body`. */
  datatype Row = Row(received: Instant, eventId: nat, body: string)

  /** The position after which the next page starts. */
  datatype Cursor = Cursor(receivedAt: string, eventId: nat)

  const MAX_TELEMETRY_PAGE_SIZE := 100

  ghost predicate ValidRows(rows: seq<Row>) {
    && (forall r :: r in rows ==> r.received.Valid())
    && (forall i, j :: 0 <= i < j < |rows| ==> rows[i].eventId != rows[j].eventId)
  }

  /** `e.received_at > ? OR (e.received_at = ? AND e.id > ?)` */
  predicate After(r: Row, c: Cursor)
    requires r.received.Valid()
  {
    LexLess(c.receivedAt, Text(r.received))
    || (Text(r.received) == c.receivedAt && r.eventId > c.eventId)
  }

  function CursorOf(r: Row): Cursor
    requires r.received.Valid()
  {
    Cursor(Text(r.received), r.eventId)
  }

  /** `ORDER BY e.received_at, e.id` on the stored text. */
  predicate RowLess(a: Row, b: Row)
    requires a.received.Valid() && b.received.Valid()
  {
    After(b, CursorOf(a))
  }

  /** The same order, by time. */
  predicate Earlier(a: Row, b: Row) {
    Before(a.received, b.received) || (a.received == b.received && a.eventId < b.eventId)
  }

  predicate NotBefore(r: Row, since: Instant) {
    !Before(r.received, since)
  }

  function Insert(r: Row, s: seq<Row>): (t: seq<Row>)
    requires r.received.Valid() && forall x :: x in s ==> x.received.Valid()
    ensures forall x :: x in t <==> x == r || x in s
    ensures |t| == |s| + 1
  {
    if s == [] || RowLess(r, s[0]) then [r] + s else [s[0]] + Insert(r, s[1..])
  }

  function Sort(s: seq<Row>): (t: seq<Row>)
    requires forall x :: x in s ==> x.received.Valid()
    ensures forall x :: x in t <==> x in s
    ensures |t| == |s|
  {
    if s == [] then [] else Insert(s[0], Sort(s[1..]))
  }

  /** WHERE received_at >= since [AND keyset] ORDER BY received_at, id. */
  function Select(rows: seq<Row>, since: Instant, after: Option<Cursor>): (s: seq<Row>)
    requires since.Valid() && forall r :: r in rows ==> r.received.Valid()
  {
    Sort(Filter(rows, (r: Row) =>
                  && r.received.Valid() && !LexLess(Text(r.received), Text(since))
                  && (after.None? || After(r, after.value))))
  }

  /** `event_telemetry_page`, with its limit forced into 1..100. */
  function Page(rows: seq<Row>, since: Instant, after: Option<Cursor>, limit: int): (s: seq<Row>)
    requires since.Valid() && forall r :: r in rows ==> r.received.Valid()
    ensures |s| <= MAX_TELEMETRY_PAGE_SIZE
  {
    var bounded := if limit < 1 then 1 else if limit > MAX_TELEMETRY_PAGE_SIZE then MAX_TELEMETRY_PAGE_SIZE else limit;
    Take(Select(rows, since, after), bounded)
  }

  // ---- Order ----------------------------------------------------------------

  lemma RowLessIsEarlier(a: Row, b: Row)
    requires a.received.Valid() && b.received.Valid()
    ensures RowLess(a, b) <==> Earlier(a, b)
  {
    TextOrderIsTimeOrder(a.received, b.received);
    if Text(a.received) == Text(b.received) {
      TextInjective(a.received, b.received);
    }
  }

  lemma SeqLessTransitive(s: seq<nat>, t: seq<nat>, u: seq<nat>)
    requires SeqLess(s, t) && SeqLess(t, u)
    ensures SeqLess(s, u)
  {
    if s != [] && s[0] == t[0] == u[0] {
      SeqLessTransitive(s[1..], t[1..], u[1..]);
    }
  }

  lemma EarlierTransitive(a: Row, b: Row, c: Row)
    requires Earlier(a, b) && Earlier(b, c)
    ensures Earlier(a, c)
  {
    if Before(a.received, b.received) && Before(b.received, c.received) {
      SeqLessTransitive(a.received.Values(), b.received.Values(), c.received.Values());
    }
  }

  lemma SeqLessIrreflexive(s: seq<nat>)
    ensures !SeqLess(s, s)
  {
  }

  lemma SeqLessAsymmetric(s: seq<nat>, t: seq<nat>)
    requires SeqLess(s, t)
    ensures !SeqLess(t, s)
  {
    if SeqLess(t, s) {
      SeqLessTransitive(s, t, s);
      SeqLessIrreflexive(s);
    }
  }

  lemma EarlierStrict(a: Row, b: Row)
    requires Earlier(a, b)
    ensures !Earlier(b, a) && a != b
  {
    SeqLessIrreflexive(a.received.Values());
    if Before(a.received, b.received) {
      SeqLessAsymmetric(a.received.Values(), b.received.Values());
    }
  }

  lemma EarlierTotal(a: Row, b: Row)
    requires a.eventId != b.eventId
    ensures Earlier(a, b) || Earlier(b, a)
  {
    SeqLessTotal(a.received.Values(), b.received.Values());
    var v, w := a.received.Values(), b.received.Values();
    if v == w {
      assert v[0] == w[0] && v[1] == w[1] && v[2] == w[2] && v[3] == w[3]
             && v[4] == w[4] && v[5] == w[5] && v[6] == w[6];
      assert a.received == b.received;
    }
  }

  ghost predicate Ascending(s: seq<Row>) {
    forall i, j :: 0 <= i < j < |s| ==> Earlier(s[i], s[j])
  }

  lemma {:induction false} InsertAscending(r: Row, s: seq<Row>)
    requires r.received.Valid() && forall x :: x in s ==> x.received.Valid()
    requires Ascending(s) && forall x :: x in s ==> x.eventId != r.eventId
    ensures Ascending(Insert(r, s))
  {
    if s == [] {
    } else if RowLess(r, s[0]) {
      RowLessIsEarlier(r, s[0]);
      forall i | 1 <= i < |s|
        ensures Earlier(r, s[i])
      {
        EarlierTransitive(r, s[0], s[i]);
      }
    } else {
      RowLessIsEarlier(r, s[0]);
      EarlierTotal(r, s[0]);
      InsertAscending(r, s[1..]);
      var t := Insert(r, s[1..]);
      forall i | 0 <= i < |t|
        ensures Earlier(s[0], t[i])
      {
        assert t[i] in t;
        if t[i] != r {
          var k :| 0 <= k < |s[1..]| && s[1..][k] == t[i];
          assert s[k + 1] == t[i];
        }
      }
    }
  }

  lemma {:induction false} SortAscending(s: seq<Row>)
    requires ValidRows(s)
    ensures Ascending(Sort(s))
  {
    if s != [] {
      SortAscending(s[1..]);
      forall x | x in Sort(s[1..])
        ensures x.eventId != s[0].eventId
      {
        var k :| 0 <= k < |s[1..]| && s[1..][k] == x;
        assert s[k + 1] == x;
      }
      InsertAscending(s[0], Sort(s[1..]));
    }
  }

  /** Two ascending sequences with the same rows are the same sequence. */
  lemma {:induction false} AscendingUnique(s: seq<Row>, t: seq<Row>)
    requires Ascending(s) && Ascending(t)
    requires forall x :: x in s <==> x in t
    ensures s == t
  {
    assert t == [] || t[0] in t;
    if s != [] {
      assert s[0] in s && t != [] && t[0] in s;
      var i :| 0 <= i < |t| && t[i] == s[0];
      var j :| 0 <= j < |s| && s[j] == t[0];
      if s[0] != t[0] {
        EarlierStrict(t[0], s[0]);
      }
      forall x
        ensures x in s[1..] <==> x in t[1..]
      {
        if x in s[1..] {
          var k :| 0 <= k < |s[1..]| && s[1..][k] == x;
          EarlierStrict(s[0], s[k + 1]);
          assert x in s;
        }
        if x in t[1..] {
          var k :| 0 <= k < |t[1..]| && t[1..][k] == x;
          EarlierStrict(t[0], t[k + 1]);
          assert x in t;
        }
      }
      AscendingUnique(s[1..], t[1..]);
    }
  }

  lemma FilterDistinctIds(rows: seq<Row>, p: Row -> bool)
    requires ValidRows(rows)
    ensures ValidRows(Filter(rows, p))
  {
    if rows != [] {
      assert ValidRows(rows[1..]);
      FilterDistinctIds(rows[1..], p);
      var rest := Filter(rows[1..], p);
      forall x | x in rest
        ensures x.eventId != rows[0].eventId
      {
        var k :| 0 <= k < |rows[1..]| && rows[1..][k] == x;
        assert rows[k + 1] == x;
      }
    }
  }

  /** What a SELECT returns: exactly the matching rows, in time order. */
  lemma SelectMeaning(rows: seq<Row>, since: Instant, after: Option<Cursor>)
    requires since.Valid() && ValidRows(rows)
    ensures Ascending(Select(rows, since, after))
    ensures forall r :: r in Select(rows, since, after) <==>
                        r in rows && NotBefore(r, since) && (after.None? || After(r, after.value))
  {
    var p := (r: Row) =>
        r.received.Valid() && !LexLess(Text(r.received), Text(since)) && (after.None? || After(r, after.value));
    FilterDistinctIds(rows, p);
    SortAscending(Filter(rows, p));
    forall r | r in rows
      ensures !LexLess(Text(r.received), Text(since)) <==> NotBefore(r, since)
    {
      TextOrderIsTimeOrder(r.received, since);
    }
  }

  lemma RestAfter(scan: seq<Row>, n: nat, rest: seq<Row>)
    requires forall r :: r in scan ==> r.received.Valid()
    requires Ascending(scan) && Ascending(rest)
    requires 0 < n <= |scan| && scan[n - 1].received.Valid()
    requires forall r :: r in rest <==> r in scan && RowLess(scan[n - 1], r)
    ensures rest == scan[n..]
  {
    var last := scan[n - 1];
    forall r
      ensures r in rest <==> r in scan[n..]
    {
      if r in scan {
        RowLessIsEarlier(last, r);
        var k :| 0 <= k < |scan| && scan[k] == r;
        if k < n - 1 {
          EarlierStrict(r, last);
        } else if k == n - 1 {
          SeqLessIrreflexive(r.received.Values());
        } else {
          assert scan[n..][k - n] == r;
        }
        if Earlier(last, r) {
          assert k >= n;
        }
      }
      if r in scan[n..] {
        var k :| 0 <= k < |scan[n..]| && scan[n..][k] == r;
        assert r == scan[k + n];
        RowLessIsEarlier(last, r);
      }
    }
    AscendingUnique(rest, scan[n..]);
  }

  /** The page query after row `n - 1` of the scan selects the scan's rows from `n` on. */
  lemma KeysetSelectsTheRest(rows: seq<Row>, since: Instant, scan: seq<Row>, n: nat)
    requires since.Valid() && ValidRows(rows)
    requires scan == Select(rows, since, None) && 0 < n <= |scan|
    ensures scan[n - 1] in rows && Select(rows, since, Some(CursorOf(scan[n - 1]))) == scan[n..]
  {
    SelectMeaning(rows, since, None);
    assert scan[n - 1] in scan;
    var c := CursorOf(scan[n - 1]);
    SelectMeaning(rows, since, Some(c));
    RestAfter(scan, n, Select(rows, since, Some(c)));
  }

  /** The page read once `n` rows of the scan are exported is the next stretch of the scan. */
  lemma PageIsNextStretch(rows: seq<Row>, since: Instant, scan: seq<Row>, n: nat, after: Option<Cursor>)
    requires since.Valid() && ValidRows(rows)
    requires scan == Select(rows, since, None) && n <= |scan|
    requires n > 0 ==> scan[n - 1].received.Valid()
    requires after == if n == 0 then None else Some(CursorOf(scan[n - 1]))
    ensures Page(rows, since, after, MAX_TELEMETRY_PAGE_SIZE) == Take(scan[n..], MAX_TELEMETRY_PAGE_SIZE)
  {
    if n > 0 {
      KeysetSelectsTheRest(rows, since, scan, n);
    }
  }

  /** `event_telemetry_rows`: read pages until one is empty. */
  method EventTelemetryRows(rows: seq<Row>, since: Instant) returns (exported: seq<Row>)
    requires since.Valid() && ValidRows(rows)
    ensures exported == Select(rows, since, None)
  {
    ghost var scan := Select(rows, since, None);
    SelectIsValid(rows, since);
    exported := [];
    ghost var n := 0;
    var last: Option<Row> := None;
    while true
      invariant Exported(scan, n, exported, last)
      decreases |scan| - n
    {
      var page := Page(rows, since, CursorAfter(last), MAX_TELEMETRY_PAGE_SIZE);
      var more := exported + page;
      n := PageStep(rows, since, scan, n, exported, last, page, more);
      if |page| == 0 {
        return;
      }
      exported, last := more, Some(page[|page| - 1]);
    }
  }

  /** The cursor after the last row read. */
  function CursorAfter(last: Option<Row>): Option<Cursor>
    requires last.Some? ==> last.value.received.Valid()
  {
    if last.None? then None else Some(CursorOf(last.value))
  }

  /** The first `n` rows of the scan are exported, and `last` is the last of them. */
  ghost predicate Exported(scan: seq<Row>, n: nat, exported: seq<Row>, last: Option<Row>) {
    && (forall i :: 0 <= i < |scan| ==> scan[i].received.Valid())
    && n <= |scan| && exported == scan[..n] && last == if n == 0 then None else Some(scan[n - 1])
  }

  lemma PageStep(rows: seq<Row>, since: Instant, scan: seq<Row>, n: nat, exported: seq<Row>, last: Option<Row>,
                 page: seq<Row>, more: seq<Row>) returns (next: nat)
    requires since.Valid() && ValidRows(rows) && scan == Select(rows, since, None) && Exported(scan, n, exported, last)
    requires page == Page(rows, since, CursorAfter(last), MAX_TELEMETRY_PAGE_SIZE) && more == exported + page
    ensures |page| == 0 ==> exported == scan
    ensures |page| > 0 ==> n < next <= |scan| && Exported(scan, next, more, Some(page[|page| - 1]))
  {
    PageIsNextStretch(rows, since, scan, n, CursorAfter(last));
    NextStretch(scan, n, MAX_TELEMETRY_PAGE_SIZE, page);
    next := n + |page|;
  }

  lemma SelectIsValid(rows: seq<Row>, since: Instant)
    requires since.Valid() && ValidRows(rows)
    ensures var scan := Select(rows, since, None); forall i :: 0 <= i < |scan| ==> scan[i].received.Valid()
  {
    var scan := Select(rows, since, None);
    SelectMeaning(rows, since, None);
    forall i | 0 <= i < |scan|
      ensures scan[i].received.Valid()
    {
      assert scan[i] in scan;
    }
  }

  /** The export: exactly the rows at or after `since`, once each, in order of time and id. */
  lemma ExportMeaning(rows: seq<Row>, since: Instant, exported: seq<Row>)
    requires since.Valid() && ValidRows(rows)
    requires exported == Select(rows, since, None)
    ensures Ascending(exported)
    ensures forall r :: r in exported <==> r in rows && NotBefore(r, since)
  {
    SelectMeaning(rows, since, None);
  }
}
