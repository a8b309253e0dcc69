/** `OutboxWorker.run_once`, as a loop over the store's rows; each call is a run of the delivery machine. */
module OutboxWorker {
  import opened Prelude
  import opened Traces
  import opened RetryOrder
  import opened Delivery
  import opened DeliveryMeaning

  const LIMIT: nat := 20

  /** `timedelta(hours=1)` in microseconds. */
  const HOUR := 3_600_000_000

  /** What the visit of one item meets. */
  datatype Visit = Visit(how: Preparing, startedAt: string, lag: int, answered: bool,
                         finish: Fault, rewrites: bool, at: string, interval: Option<int>)

  /** What one call meets: the clock, the events whose traces are past retention, the purge's fault, and the visits. */
  datatype Round = Round(now: int, expired: set<nat>, purge: Fault, visits: seq<Visit>)

  /** A row that retention may have stripped of its telemetry. */
  predicate Kept(before: Row, after: Row) {
    after == before || (before.completed && after == before.(payload := Fallback(before.payload)))
  }

  /** The visit sends the item and the answer comes. */
  predicate Answers(v: Visit) {
    !v.how.Raising? && v.answered
  }

  /** ... and completing it commits. */
  predicate Completes(v: Visit) {
    Answers(v) && v.finish != RaisesBefore
  }

  /** The visits whose items count as completed: answered, and completed without an exception. */
  function Successes(visits: seq<Visit>): (n: nat)
    ensures n <= |visits|
  {
    if visits == [] then 0
    else Successes(visits[..|visits| - 1])
         + (if Answers(visits[|visits| - 1]) && visits[|visits| - 1].finish == Fine then 1 else 0)
  }

  lemma SuccessesNext(visits: seq<Visit>, i: nat)
    requires i < |visits|
    ensures Successes(visits[..i + 1]) ==
            Successes(visits[..i]) + if Answers(visits[i]) && visits[i].finish == Fine then 1 else 0
  {
    assert visits[..i + 1][..i] == visits[..i];
  }

  /** The steps of one visit: prepare; if that worked send; then complete or mark for retry. */
  function Visited(s: State, v: Visit): State {
    var prepared := Next(s, Prepare(v.how, v.startedAt, v.lag));
    if prepared.pc.Visiting? then prepared else
    var sent := if prepared.pc.Prepared? then Next(prepared, Transmit(v.answered)) else prepared;
    if sent.pc.Acked? then Next(sent, Complete(v.finish, v.rewrites, v.at, v.interval))
    else Next(sent, Retry(v.finish, v.rewrites))
  }

  ghost predicate Takes(s: State, v: Visit, u: State) {
    u == Visited(s, v)
  }

  /** The states between consecutive visits, one entry of `visits` each. */
  ghost predicate Chained(states: seq<State>, visits: seq<Visit>) {
    states != [] && |states| <= |visits| + 1 && forall k :: 0 <= k < |states| - 1 ==>
                                                              Takes(states[k], visits[k], states[k + 1])
  }

  /** `n` visits led from `first` to `last`. */
  ghost predicate Logged(states: seq<State>, visits: seq<Visit>, n: nat, first: State, last: State) {
    |states| == n + 1 && states[0] == first && states[n] == last && Chained(states, visits)
  }

  lemma LoggedLonger(states: seq<State>, visits: seq<Visit>, n: nat, first: State, last: State, next: State)
    requires n < |visits| && Logged(states, visits, n, first, last) && Takes(last, visits[n], next)
    ensures Logged(states + [next], visits, n + 1, first, next)
  {
    var longer := states + [next];
    forall k | 0 <= k < |longer| - 1
      ensures Takes(longer[k], visits[k], longer[k + 1])
    {
      assert k < |states| - 1 ==> Takes(states[k], visits[k], states[k + 1]);
    }
  }

  lemma {:induction false} RunAppend(s: State, cs: seq<Choice>, c: Choice)
    ensures Run(s, cs + [c]) == Next(Run(s, cs), c)
    decreases |cs|
  {
    if cs == [] {
      assert cs + [c] == [c] && [c][1..] == [];
    } else {
      assert (cs + [c])[1..] == cs[1..] + [c];
      RunAppend(Next(s, cs[0]), cs[1..], c);
    }
  }

  /** Rows that were only completed or left sendable as they were make the pending ones fewer. */
  lemma PendingShrinks(before: seq<Row>, after: seq<Row>)
    requires |before| == |after|
    requires forall j :: 0 <= j < |after| ==> after[j].completed || Sendable(after[j]) == Sendable(before[j])
    ensures forall i :: i in Pending(after) ==> i in Pending(before)
    ensures forall i :: i in Pending(before) && i !in Pending(after) ==> 0 <= i < |after| && after[i].completed
  {
    PendingMeaning(before);
    PendingMeaning(after);
  }

  /** The first `n` items are completed exactly where their visits complete them; all other rows are as before. */
  ghost predicate Progress(items: seq<int>, visits: seq<Visit>, n: nat, before: seq<Row>, rows: seq<Row>) {
    && |rows| == |before| && n <= |items| <= |visits|
    && (forall k :: 0 <= k < |items| ==> 0 <= items[k] < |rows|)
    && (forall k :: 0 <= k < n ==> rows[items[k]].completed == Completes(visits[k]))
    && (forall k :: n <= k < |items| ==> rows[items[k]] == before[items[k]])
    && (forall j :: 0 <= j < |rows| && j !in items ==> rows[j] == before[j])
    && (forall j :: 0 <= j < |rows| ==> rows[j].completed || Sendable(rows[j]) == Sendable(before[j]))
  }

  lemma ProgressStep(items: seq<int>, visits: seq<Visit>, n: nat, before: seq<Row>, rows: seq<Row>, after: seq<Row>)
    requires Progress(items, visits, n, before, rows) && n < |items| && |after| == |rows|
    requires forall i, j :: 0 <= i < j < |items| ==> items[i] != items[j]
    requires forall j :: 0 <= j < |rows| && j != items[n] ==> after[j] == rows[j]
    requires var row := after[items[n]];
             row.completed == Completes(visits[n]) && (row.completed || Sendable(row) == Sendable(rows[items[n]]))
    ensures Progress(items, visits, n + 1, before, after)
  {
    assert items[n] in items;
    forall k | 0 <= k < n
      ensures after[items[k]].completed == Completes(visits[k])
    {
      assert items[k] != items[n];
    }
  }

  class OutboxWorker {
    const controllerId: string
    var rows: seq<Row>
    var traces: map<nat, Telemetry>
    var lastItemId: int                  // -1 before the first visit
    var lastRetentionAt: Option<int>
    ghost const start: State
    ghost var machine: State
    ghost var choices: seq<Choice>

    ghost predicate Valid()
      reads this
    {
      && machine == Run(start, choices) && machine.rows == rows && machine.traces == traces
      && machine.cursor == lastItemId && machine.config == controllerId
    }

    constructor (s: State)
      ensures Valid() && start == s && choices == []
    {
      controllerId, rows, traces, lastItemId, lastRetentionAt := s.config, s.rows, s.traces, s.cursor, None;
      start, machine, choices := s, s, [];
    }

    ghost method Step(c: Choice)
      requires machine == Run(start, choices)
      modifies this`machine, this`choices
      ensures machine == Next(old(machine), c) && machine == Run(start, choices)
    {
      RunAppend(start, choices, c);
      machine, choices := Next(machine, c), choices + [c];
    }

    /** Only row `item` may have changed, and it stays sendable unless it is completed. */
    twostate predicate OnlyTouched(item: nat)
      reads this
    {
      && |rows| == |old(rows)|
      && (forall i :: 0 <= i < |rows| && i != item ==> rows[i] == old(rows[i]))
      && (item < |rows| ==> rows[item].completed
                            || (Sendable(rows[item]) == Sendable(old(rows[item])) && !old(rows[item].completed)))
    }

    /** Version 3 with the trace that is stored now. */
    ghost predicate HandsOver(p: Payload, event: nat)
      reads this
    {
      p.version == 3 && event in traces && p.telemetry == Some(traces[event])
    }

    method PrepareOutboxAttempt(item: nat, ghost rest: seq<int>, v: Visit) returns (r: Result<Option<Payload>, ()>)
      requires Valid() && machine.pc == Visiting([item] + rest) && item < |rows|
      modifies this
      ensures Valid() && lastItemId == item && OnlyTouched(item)
              && machine == Next(old(machine), Prepare(v.how, v.startedAt, v.lag))
      ensures if v.how.Raising? then r.Err? && machine.pc == Broken(item, rest)
              else if !Sendable(old(rows[item])) then r == Ok(None) && machine.pc == Visiting(rest)
              else && r.Ok? && r.value.Some? && machine.pc == Prepared(item, r.value.value, rest)
                   && r.value.value.base == old(rows[item].payload.base)
                   && if v.how.Good? && old(rows[item].event in traces)
                      then HandsOver(r.value.value, old(rows[item].event))
                      else r.value.value.version == 2 && r.value.value.telemetry == None
      ensures rows[item].completed == old(rows[item].completed)
    {
      assert ([item] + rest)[1..] == rest;
      Step(Prepare(v.how, v.startedAt, v.lag));
      lastItemId := item;
      var row := rows[item];
      if v.how.Raising? { return Err(()); }
      if !Sendable(row) { return Ok(None); }
      var fallback := Fallback(row.payload);
      if row.event !in traces { return Ok(Some(fallback)); }
      var telemetry := Sending(traces[row.event], row.createdAt, v.startedAt, v.lag);
      var payload := fallback.(version := 3, telemetry := Some(telemetry));
      if v.how.Good? || v.how.committed {
        traces := traces[row.event := telemetry];
        rows := rows[item := row.(payload := payload)];
      }
      r := Ok(Some(if v.how.Good? then payload else fallback));
    }

    method CompleteOutboxItem(item: nat, payload: Payload, ghost rest: seq<int>, v: Visit) returns (ok: bool)
      requires Valid() && machine.pc == Acked(item, payload, rest) && item < |rows|
      modifies this`rows, this`traces, this`machine, this`choices
      ensures Valid() && machine.pc == Visiting(rest) && OnlyTouched(item)
      ensures machine == Next(old(machine), Complete(v.finish, v.rewrites, v.at, v.interval))
      ensures ok == (v.finish == Fine) && rows[item].completed == (old(rows[item].completed)
                                                                   || v.finish != RaisesBefore)
    {
      Step(Complete(v.finish, v.rewrites, v.at, v.interval));
      var row := rows[item];
      if v.finish != RaisesBefore && !row.completed {
        if row.event in traces && payload.telemetry.Some? && v.rewrites {
          traces := traces[row.event := Delivered(payload.telemetry.value, v.at, v.interval)];
        }
        rows := rows[item := row.(payload := payload, completed := true)];
      }
      ok := v.finish == Fine;
    }

    method MarkOutboxRetry(item: nat, ghost rest: seq<int>, v: Visit)
      requires Valid() && machine.pc == Broken(item, rest) && item < |rows|
      modifies this`rows, this`traces, this`machine, this`choices
      ensures Valid() && machine.pc == Visiting(rest) && OnlyTouched(item)
              && machine == Next(old(machine), Retry(v.finish, v.rewrites))
      ensures rows[item].completed == old(rows[item].completed)
    {
      Step(Retry(v.finish, v.rewrites));
      var row := rows[item];
      if v.finish == RaisesBefore || row.completed { return; }
      if row.event !in traces || !v.rewrites {
        rows := rows[item := row.(payload := Fallback(row.payload))];
        return;
      }
      var telemetry := Retrying(traces[row.event]);
      traces := traces[row.event := telemetry];
      rows := rows[item := row.(payload := Fallback(row.payload).(version := 3, telemetry := Some(telemetry)))];
    }

    /** The body of the loop in `run_once`; the result tells whether the item counts as completed. */
    method VisitItem(item: nat, ghost rest: seq<int>, v: Visit) returns (done: bool)
      requires Valid() && machine.pc == Visiting([item] + rest) && item < |rows|
      modifies this
      ensures Valid() && Takes(old(machine), v, machine) && machine.pc == Visiting(rest) && lastItemId == item
              && OnlyTouched(item)
      ensures Sendable(old(rows[item])) ==>
                done == (Answers(v) && v.finish == Fine) && rows[item].completed == Completes(v)
      ensures !Sendable(old(rows[item])) ==> !done && rows[item].completed == old(rows[item].completed)
    {
      var prepared := PrepareOutboxAttempt(item, rest, v);
      if prepared == Ok(None) { return false; }
      if prepared.Ok? {
        Step(Transmit(v.answered));
        if v.answered {
          done := CompleteOutboxItem(item, prepared.value.value, rest, v);
          return;
        }
      }
      MarkOutboxRetry(item, rest, v);
      done := false;
    }

    predicate RetentionDue(now: int)
      reads this
    {
      lastRetentionAt.None? || now - lastRetentionAt.value >= HOUR
    }

    /** `_run_retention`: at most once an hour, purge the old traces of completed rows; an exception is swallowed. */
    method RunRetention(now: int, expired: set<nat>, fault: Fault)
      requires Valid() && machine.pc == Idle
      modifies this
      ensures Valid() && machine.pc == Idle && lastItemId == old(lastItemId)
      ensures machine == if old(RetentionDue(now))
                            && fault != RaisesBefore then Next(old(machine), PurgeDelivered(expired)) else old(machine)
      ensures lastRetentionAt == if old(RetentionDue(now)) then Some(now) else old(lastRetentionAt)
      ensures |rows| == |old(rows)| && forall i :: 0 <= i < |rows| ==> Kept(old(rows[i]), rows[i])
    {
      if !RetentionDue(now) { return; }
      lastRetentionAt := Some(now);
      if fault == RaisesBefore { return; }
      PurgeDeliveredTelemetry(expired);
    }

    /** The loop over the purged rows. */
    method PurgeDeliveredTelemetry(expired: set<nat>)
      requires Valid()
      modifies this
      ensures Valid() && machine == Next(old(machine), PurgeDelivered(expired))
      ensures lastItemId == old(lastItemId) && lastRetentionAt == old(lastRetentionAt)
      ensures |rows| == |old(rows)| && forall i :: 0 <= i < |rows| ==> Kept(old(rows[i]), rows[i])
    {
      var gone := set e | e in expired && RowOf(rows, e) >= 0 && rows[RowOf(rows, e)].completed && e in traces;
      Step(PurgeDelivered(expired));
      for i := 0 to |rows|
        invariant |rows| == |old(rows)|
        invariant forall j :: i <= j < |rows| ==> rows[j] == old(rows[j])
        invariant forall j :: 0 <= j < i ==> rows[j] == Stripped(old(rows[j]), gone)
        invariant lastItemId == old(lastItemId) && lastRetentionAt == old(lastRetentionAt) && traces == old(traces)
        invariant machine == Next(old(machine), PurgeDelivered(expired)) && machine == Run(start, choices)
      {
        rows := rows[i := Stripped(rows[i], gone)];
      }
      assert rows == machine.rows;
      traces := traces - gone;
    }

    /** `pending_outbox_items` after the cursor. */
    method PendingOutboxItems() returns (items: seq<int>)
      requires Valid() && machine.pc == Idle
      modifies this`machine, this`choices
      ensures Valid() && machine == Next(old(machine), BeginCall(LIMIT))
      ensures machine.pc == Visiting(items) && items == Batch(Pending(rows), lastItemId, LIMIT)
      ensures forall i :: 0 <= i < |items| ==> 0 <= items[i] < |rows| && Sendable(rows[items[i]])
      ensures forall i, j :: 0 <= i < j < |items| ==> items[i] != items[j]
    {
      PendingMeaning(rows);
      BatchIsDistinct(Pending(rows), lastItemId, LIMIT);
      items := Batch(Pending(rows), lastItemId, LIMIT);
      assert forall i :: 0 <= i < |items| ==> items[i] in items;
      Step(BeginCall(LIMIT));
    }

    ghost method End()
      requires Valid() && machine.pc == Visiting([])
      modifies this`machine, this`choices
      ensures Valid() && machine.pc == Idle && machine == Next(old(machine), EndCall)
    {
      Step(EndCall);
    }

    method VisitNth(items: seq<int>, i: nat, visits: seq<Visit>, ghost before: seq<Row>) returns (done: bool)
      requires Valid() && i < |items| && machine.pc == Visiting(items[i..])
      requires Progress(items, visits, i, before, rows) && Sendable(before[items[i]])
      requires forall j, k :: 0 <= j < k < |items| ==> items[j] != items[k]
      modifies this
      ensures Valid() && Takes(old(machine), visits[i], machine) && machine.pc == Visiting(items[i + 1..])
      ensures lastItemId == items[i] && Progress(items, visits, i + 1, before, rows)
      ensures done == (Answers(visits[i]) && visits[i].finish == Fine)
    {
      assert items[i..] == [items[i]] + items[i + 1..];
      ghost var reached := rows;
      done := VisitItem(items[i], items[i + 1..], visits[i]);
      ProgressStep(items, visits, i, before, reached, rows);
    }

    /** The loop of `run_once` over the listed items. */
    method VisitAll(items: seq<int>, visits: seq<Visit>) returns (completed: nat, ghost states: seq<State>)
      requires Valid() && machine.pc == Visiting(items) && |items| <= |visits|
      requires forall i :: 0 <= i < |items| ==> 0 <= items[i] < |rows| && Sendable(rows[items[i]])
      requires forall i, j :: 0 <= i < j < |items| ==> items[i] != items[j]
      modifies this
      ensures Valid() && Logged(states, visits, |items|, old(machine), machine)
      ensures machine.pc == Visiting([]) && lastItemId == NextCursor(old(lastItemId), items)
      ensures completed == Successes(visits[..|items|]) && Progress(items, visits, |items|, old(rows), rows)
    {
      completed, states := 0, [machine];
      var i := 0;
      while i < |items|
        invariant 0 <= i <= |items| && Valid() && Logged(states, visits, i, old(machine), machine)
        invariant machine.pc == Visiting(items[i..]) && completed == Successes(visits[..i])
        invariant Progress(items, visits, i, old(rows), rows)
        invariant lastItemId == if i == 0 then old(lastItemId) else items[i - 1]
      {
        SuccessesNext(visits, i);
        ghost var reached := machine;
        var done := VisitNth(items, i, visits, old(rows));
        LoggedLonger(states, visits, i, old(machine), reached, machine);
        states := states + [machine];
        if done {
          completed := completed + 1;
        }
        i := i + 1;
      }
    }

    /**
     One call runs retention and takes each listed item through the steps of its visit, in the
     machine's order. It visits exactly the first `LIMIT` pending rows in the round-robin order,
     leaves the cursor on the last of them, and changes no other row, except that retention may
     strip completed ones of their telemetry.
     */
    method RunOnce(m: Round) returns (completed: nat, ghost states: seq<State>)
      requires Valid() && machine.pc == Idle && |m.visits| == LIMIT
      modifies this
      ensures Valid() && machine.pc == Idle && |rows| == |old(rows)|
      ensures Chained(states, m.visits) && |states| == |Batch(Pending(old(rows)), old(lastItemId), LIMIT)| + 1
      ensures machine == Next(states[|states| - 1], EndCall)
      ensures states[0] == Next(if old(RetentionDue(m.now))
                                   && m.purge != RaisesBefore then Next(old(machine), PurgeDelivered(m.expired))
                                else old(machine), BeginCall(LIMIT))
      ensures var batch := Batch(Pending(old(rows)), old(lastItemId), LIMIT);
              && lastItemId == NextCursor(old(lastItemId), batch) && |batch| <= LIMIT
              && completed == Successes(m.visits[..|batch|])
              && (forall k :: 0 <= k < |batch| ==> 0 <= batch[k] < |rows|
                                                   && rows[batch[k]].completed == Completes(m.visits[k]))
              && (forall i :: 0 <= i < |rows| && i !in batch ==> Kept(old(rows[i]), rows[i]))
      ensures forall i :: i in Pending(rows) ==> i in Pending(old(rows))
      ensures forall i :: i in Pending(old(rows)) && i !in Pending(rows) ==> 0 <= i < |rows| && rows[i].completed
    {
      RunRetention(m.now, m.expired, m.purge);
      PendingSame(old(rows), rows);
      completed, states := ServeOnce(m.visits);
    }

    /** `run_once` after retention. */
    method ServeOnce(visits: seq<Visit>) returns (completed: nat, ghost states: seq<State>)
      requires Valid() && machine.pc == Idle && |visits| == LIMIT
      modifies this
      ensures Valid() && machine.pc == Idle && |rows| == |old(rows)|
      ensures Chained(states, visits) && |states| == |Batch(Pending(old(rows)), old(lastItemId), LIMIT)| + 1
      ensures states[0] == Next(old(machine), BeginCall(LIMIT)) && machine == Next(states[|states| - 1], EndCall)
      ensures var batch := Batch(Pending(old(rows)), old(lastItemId), LIMIT);
              && lastItemId == NextCursor(old(lastItemId), batch) && |batch| <= LIMIT
              && completed == Successes(visits[..|batch|])
              && (forall k :: 0 <= k < |batch| ==> 0 <= batch[k] < |rows|
                                                   && rows[batch[k]].completed == Completes(visits[k]))
              && (forall i :: 0 <= i < |rows| && i !in batch ==> rows[i] == old(rows[i]))
      ensures forall i :: i in Pending(rows) ==> i in Pending(old(rows))
      ensures forall i :: i in Pending(old(rows)) && i !in Pending(rows) ==> 0 <= i < |rows| && rows[i].completed
    {
      var items := PendingOutboxItems();
      completed, states := VisitAll(items, visits);
      End();
      PendingShrinks(old(rows), rows);
    }

    /**
     Retry fairness: with no new rows and no restart, after `ceil(n / LIMIT)` calls, `n` being the
     number of pending rows at the start, every row that is still pending has been visited.
     */
    method RunRepeatedly(rounds: seq<Round>) returns (ghost calls: seq<Call>)
      requires Valid() && machine.pc == Idle && rounds != [] && forall k :: 0 <= k < |rounds| ==>
                                                                              |rounds[k].visits| == LIMIT
      requires LIMIT * |rounds| >= |Pending(rows)|
      modifies this
      ensures Valid() && |calls| == |rounds| && Consecutive(calls, LIMIT)
              && calls[0] == Call(Pending(old(rows)), old(lastItemId))
      ensures forall x :: x in Pending(rows) ==> exists k :: 0 <= k < |calls| && Visits(calls[k], LIMIT, x)
    {
      calls := [];
      PendingMeaning(rows);
      for i := 0 to |rounds|
        invariant Valid() && machine.pc == Idle && |calls| == i && Ascending(Pending(rows))
        invariant Consecutive(calls + [Call(Pending(rows), lastItemId)], LIMIT)
        invariant (calls + [Call(Pending(rows), lastItemId)])[0] == Call(Pending(old(rows)), old(lastItemId))
        invariant forall k, x :: 0 <= k < |calls| && x in Pending(rows) ==> x in calls[k].ids
      {
        ghost var here := Call(Pending(rows), lastItemId);
        var _, _ := RunOnce(rounds[i]);
        PendingMeaning(rows);
        ConsecutiveLonger(calls + [here], Call(Pending(rows), lastItemId), LIMIT);
        calls := calls + [here];
      }
      ConsecutiveFront(calls, Call(Pending(rows), lastItemId), LIMIT);
      forall x | x in Pending(rows)
        ensures exists k :: 0 <= k < |calls| && Visits(calls[k], LIMIT, x)
      {
        EveryRowIsVisited(calls, LIMIT, x);
      }
    }
  }

  function Stripped(r: Row, gone: set<nat>): Row {
    if r.completed && r.event in gone then r.(payload := Fallback(r.payload)) else r
  }

  lemma PendingSame(before: seq<Row>, after: seq<Row>)
    requires |before| == |after| && forall i :: 0 <= i < |after| ==> Sendable(before[i]) == Sendable(after[i])
    ensures Pending(before) == Pending(after)
  {
    if before != [] {
      PendingSame(before[..|before| - 1], after[..|after| - 1]);
    }
  }

  lemma {:induction false} ConsecutiveLonger(calls: seq<Call>, next: Call, limit: nat)
    requires Consecutive(calls, limit) && calls != [] && Ascending(next.ids) && Follows(calls[|calls| - 1], next, limit)
    ensures Consecutive(calls + [next], limit)
  {
    var longer := calls + [next];
    forall k | 0 <= k < |longer| - 1
      ensures Follows(longer[k], longer[k + 1], limit)
    {
      assert k < |calls| - 1 ==> Follows(calls[k], calls[k + 1], limit);
    }
  }

  lemma ConsecutiveFront(calls: seq<Call>, next: Call, limit: nat)
    requires Consecutive(calls + [next], limit)
    ensures Consecutive(calls, limit)
  {
    var all := calls + [next];
    assert forall k :: 0 <= k < |calls| ==> all[k] == calls[k];
  }
}
