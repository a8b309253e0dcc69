/** What outbox delivery guarantees over every run. */
module DeliverySafety {
  import opened Prelude
  import opened Traces
  import opened Delivery
  import opened RetryOrder
  import Store

  /** The tables before anything was sent. */
  ghost predicate Opened(s: State) {
    && s.pc.Idle? && s.sends == [] && (forall i, j :: 0 <= i < j < |s.rows| ==> s.rows[i].event != s.rows[j].event)
    && (forall i :: 0 <= i < |s.rows| ==> !s.rows[i].completed)
  }

  lemma OpenedInv(s: State)
    requires Opened(s)
    ensures Inv(s)
  {
  }

  lemma OneRowPerEvent(s: State, choices: seq<Choice>, i: nat, j: nat)
    requires Opened(s) && i < j < |Run(s, choices).rows|
    ensures Run(s, choices).rows[i].event != Run(s, choices).rows[j].event
  {
    OpenedInv(s);
    RunKeeps(s, choices);
  }

  /** Nothing is sent while it waits for its telemetry, once it is completed, or when it is for local use only. */
  lemma SentOnlyWhenSendable(s: State, choices: seq<Choice>, k: nat)
    requires Opened(s) && k < |Run(s, choices).sends|
    ensures var x := Run(s, choices).sends[k]; !x.row.completed
                                               && (x.row.state == Store.Ready || x.row.state == Store.TelemetryReady)
  {
    OpenedInv(s);
    RunKeeps(s, choices);
  }

  lemma CompletedOnlyAfterASend(s: State, choices: seq<Choice>, i: nat)
    requires Opened(s) && i < |Run(s, choices).rows| && Run(s, choices).rows[i].completed
    ensures Answered(Run(s, choices).sends, i)
  {
    OpenedInv(s);
    RunKeeps(s, choices);
  }

  /** How often a row was sent. */
  function Sendings(sends: seq<Send>, item: nat): nat {
    if sends == [] then 0 else Sendings(sends[..|sends| - 1], item) + (if sends[|sends| - 1].item == item then 1 else 0)
  }

  lemma StepSends(s: State, c: Choice)
    requires Inv(s)
    ensures var u := Next(s, c);
            u.sends == s.sends || (s.pc.Prepared? && |u.sends| == |s.sends| + 1 && u.sends[..|s.sends|] == s.sends
                                   && u.sends[|s.sends|].item == s.pc.item)
  {
  }

  /** Rows are never deleted, keep their event, and stay completed. */
  lemma StepRows(s: State, c: Choice, i: nat)
    requires Inv(s) && i < |s.rows|
    ensures var u := Next(s, c);
            i < |u.rows| && u.rows[i].event == s.rows[i].event && (s.rows[i].completed ==> u.rows[i].completed)
  {
  }

  lemma StepSendings(s: State, c: Choice, i: nat)
    requires Inv(s) && i < |s.rows| && s.rows[i].completed
    ensures Sendings(Next(s, c).sends, i) == Sendings(s.sends, i)
  {
    StepSends(s, c);
  }

  /** A completed row is never sent again. */
  lemma {:induction false} NoSendAfterCompletion(s: State, more: seq<Choice>, i: nat)
    requires Inv(s) && i < |s.rows| && s.rows[i].completed
    ensures Sendings(Run(s, more).sends, i) == Sendings(s.sends, i)
    decreases |more|
  {
    if more != [] {
      NextKeeps(s, more[0]);
      StepRows(s, more[0], i);
      StepSendings(s, more[0], i);
      NoSendAfterCompletion(Next(s, more[0]), more[1..], i);
    }
  }

  /** A row that waits for its telemetry was already waiting, or is new. */
  lemma StepWaits(s: State, c: Choice, i: nat)
    requires Inv(s) && i < |s.rows|
    ensures var u := Next(s, c);
            i < |u.rows| && (u.rows[i].state.AwaitingTelemetry? && !u.rows[i].completed ==>
                               s.rows[i].state.AwaitingTelemetry? && !s.rows[i].completed)
  {
  }

  lemma {:induction false} WaitsNoMore(s: State, more: seq<Choice>, i: nat)
    requires Inv(s) && i < |s.rows| && (s.rows[i].completed || !s.rows[i].state.AwaitingTelemetry?)
    ensures var u := Run(s, more); i < |u.rows| && (u.rows[i].completed || !u.rows[i].state.AwaitingTelemetry?)
    decreases |more|
  {
    if more != [] {
      StepWaits(s, more[0], i);
      NextKeeps(s, more[0]);
      WaitsNoMore(Next(s, more[0]), more[1..], i);
    }
  }

  /** After recovery no row of an earlier process ever waits for telemetry again: only rows queued since can. */
  lemma RestartWakesEveryRow(s: State, config: string, binds: bool, more: seq<Choice>, i: nat)
    requires Inv(s) && i < |s.rows|
    ensures var u := Run(RestartStep(s, config, binds), more);
            i < |u.rows| && (u.rows[i].completed || !u.rows[i].state.AwaitingTelemetry?)
  {
    RestartKeeps(s, config, binds);
    WaitsNoMore(RestartStep(s, config, binds), more, i);
  }

  // ---- Idempotency keys ---------------------------------------------------------------------

  /** The row names its controller, as every payload the worker itself queued or bound does. */
  predicate Named(r: Row) {
    r.payload.base.controller.Some? && r.payload.base.controller.value != ""
  }

  lemma StepKeepsName(s: State, c: Choice, i: nat)
    requires Inv(s) && i < |s.rows|
    requires Named(s.rows[i])
    ensures var u := Next(s, c);
            i < |u.rows| && u.rows[i].payload.base.controller == s.rows[i].payload.base.controller
            && u.rows[i].payload.base.eventId == s.rows[i].payload.base.eventId
  {
  }

  /** Every send of row `i` from position `from` on carries `key`. */
  ghost predicate SentUnder(sends: seq<Send>, from: nat, i: nat, key: Key) {
    forall k :: from <= k < |sends| && sends[k].item == i ==> sends[k].key == key
  }

  lemma StepSendsUnder(s: State, c: Choice, i: nat, from: nat, key: Key)
    requires Inv(s) && i < |s.rows| && Named(s.rows[i]) && key == KeyOf(s.rows[i].payload, s.config)
    requires from <= |s.sends| && SentUnder(s.sends, from, i, key)
    ensures SentUnder(Next(s, c).sends, from, i, key) && from <= |Next(s, c).sends|
  {
  }

  /** All sends of a named row carry one key, across failures, restarts and changes of the configured id. */
  lemma {:induction false} ResendsKeepTheKey(s: State, more: seq<Choice>, i: nat, from: nat, key: Key)
    requires Inv(s) && i < |s.rows| && Named(s.rows[i]) && key == KeyOf(s.rows[i].payload, s.config)
    requires from <= |s.sends| && SentUnder(s.sends, from, i, key)
    ensures SentUnder(Run(s, more).sends, from, i, key)
    decreases |more|
  {
    if more != [] {
      NextKeeps(s, more[0]);
      StepKeepsName(s, more[0], i);
      StepSendsUnder(s, more[0], i, from, key);
      ResendsKeepTheKey(Next(s, more[0]), more[1..], i, from, key);
    }
  }

  /**
   Exactly when a restart keeps an unfinished row's key: always when the row is named. A row with
   no controller keeps it when the id stays, bound or not; a row with the empty controller when it
   is not bound or the id is empty. Binding can fail, and then nothing is bound.
   */
  lemma KeyAcrossARestart(s: State, config: string, binds: bool, i: nat)
    requires i < |s.rows| && !s.rows[i].completed
    ensures var u := RestartStep(s, config, binds);
            var controller := s.rows[i].payload.base.controller;
            KeyOf(u.rows[i].payload, u.config) == KeyOf(s.rows[i].payload, s.config) <==>
            || Named(s.rows[i])
            || (controller.None? && config == s.config)
            || (controller == Some("") && (!binds || config == ""))
  {
  }

  /** Visits that fail before they write anything. */
  function Skips(n: nat): seq<Choice> {
    if n == 0 then [] else [Prepare(Raising, "", 0), Retry(RaisesBefore, false)] + Skips(n - 1)
  }

  lemma {:induction false} SkipsPass(s: State, todo: seq<int>, n: nat)
    requires s.pc == Visiting(todo) && n < |todo| && forall j :: 0 <= j < |todo| ==> 0 <= todo[j] < |s.rows|
    ensures Run(s, Skips(n)) == s.(pc := Visiting(todo[n..]), cursor := if n == 0 then s.cursor else todo[n - 1])
    decreases n
  {
    if n == 0 {
      assert todo[0..] == todo;
    } else {
      var first, second := Prepare(Raising, "", 0), Retry(RaisesBefore, false);
      assert Skips(n)[0] == first && Skips(n)[1..] == [second] + Skips(n - 1);
      assert ([second] + Skips(n - 1))[1..] == Skips(n - 1);
      var u := Next(Next(s, first), second);
      assert u == s.(pc := Visiting(todo[1..]), cursor := todo[0]);
      SkipsPass(u, todo[1..], n - 1);
      assert todo[1..][n - 1..] == todo[n..];
    }
  }

  lemma RunSplit(s: State, cs: seq<Choice>, ds: seq<Choice>)
    ensures Run(s, cs + ds) == Run(Run(s, cs), ds)
    decreases |cs|
  {
    if cs == [] {
      assert cs + ds == ds;
    } else {
      assert (cs + ds)[0] == cs[0] && (cs + ds)[1..] == cs[1..] + ds;
      RunSplit(Next(s, cs[0]), cs[1..], ds);
    }
  }

  lemma RestartMakesSendable(s: State, config: string, binds: bool, i: nat)
    requires i < |s.rows| && !s.rows[i].completed && !s.rows[i].state.LocalOnly?
    ensures Sendable(RestartStep(s, config, binds).rows[i])
  {
  }

  /** The item that is next can be sent, with no change to the rows. */
  lemma SendsNext(s: State, i: nat)
    requires s.pc.Visiting? && s.pc.todo != [] && s.pc.todo[0] == i && i < |s.rows| && Sendable(s.rows[i])
    ensures var u := Next(Next(s, Prepare(FallsBack(false), "", 0)), Transmit(false));
            && u.rows == s.rows && u.config == s.config && |u.sends| == |s.sends| + 1 && u.sends[..|s.sends|] == s.sends
            && u.sends[|s.sends|].item == i && u.sends[|s.sends|].key == KeyOf(s.rows[i].payload, s.config)
  {
  }

  /** A fresh process can come to any sendable item without writing anything. */
  lemma ReachesItem(s: State, i: nat) returns (choices: seq<Choice>)
    requires s.pc == Idle && s.cursor == -1 && i < |s.rows| && Sendable(s.rows[i])
    ensures var u := Run(s, choices);
            u == s.(pc := u.pc, cursor := u.cursor) && u.pc.Visiting? && u.pc.todo != [] && u.pc.todo[0] == i
  {
    var ids := Pending(s.rows);
    var n := PendingAt(s.rows, i);
    StartsVisiting(s, ids);
    SkipsPass(s.(pc := Visiting(ids)), ids, n);
    choices := [BeginCall(|s.rows|)] + Skips(n);
    RunCons(s, BeginCall(|s.rows|), Skips(n));
    assert ids[n..][0] == i;
  }

  lemma PendingAt(rows: seq<Row>, i: nat) returns (n: nat)
    requires i < |rows| && Sendable(rows[i])
    ensures n < |Pending(rows)| && Pending(rows)[n] == i
    ensures forall j :: 0 <= j < |Pending(rows)| ==> 0 <= Pending(rows)[j] < |rows|
  {
    var ids := Pending(rows);
    PendingMeaning(rows);
    assert i in ids;
    assert forall j :: 0 <= j < |ids| ==> ids[j] in ids;
    n :| 0 <= n < |ids| && ids[n] == i;
  }

  lemma StartsVisiting(s: State, ids: seq<int>)
    requires s.pc == Idle && s.cursor == -1 && ids == Pending(s.rows)
    ensures Next(s, BeginCall(|s.rows|)) == s.(pc := Visiting(ids))
  {
    FirstBatch(ids, |s.rows|);
  }

  /** A row that the restart leaves sendable can be sent by the new process, with no other change to the rows. */
  lemma SentAfterRestart(s: State, config: string, binds: bool, i: nat) returns (choices: seq<Choice>)
    requires i < |s.rows| && !s.rows[i].completed && !s.rows[i].state.LocalOnly?
    ensures var r := RestartStep(s, config, binds);
            var u := Run(s, choices);
            && u.rows == r.rows && u.config == config && |u.sends| == |s.sends| + 1 && u.sends[..|s.sends|] == s.sends
            && u.sends[|s.sends|].item == i && u.sends[|s.sends|].key == KeyOf(r.rows[i].payload, config)
  {
    var r := RestartStep(s, config, binds);
    RestartMakesSendable(s, config, binds, i);
    var approach := ReachesItem(r, i);
    var reached := Run(r, approach);
    SendsNext(reached, i);
    var prepare, transmit := Prepare(FallsBack(false), "", 0), Transmit(false);
    choices := [Restart(config, binds)] + (approach + [prepare, transmit]);
    RunCons(s, Restart(config, binds), approach + [prepare, transmit]);
    RunSplit(r, approach, [prepare, transmit]);
    RunTwo(reached, prepare, transmit);
  }

  lemma RunCons(s: State, c: Choice, rest: seq<Choice>)
    ensures Run(s, [c] + rest) == Run(Next(s, c), rest)
  {
    assert ([c] + rest)[1..] == rest;
  }

  lemma RunTwo(s: State, c: Choice, d: Choice)
    ensures Run(s, [c, d]) == Next(Next(s, c), d)
  {
    assert [c, d] == [c] + [d] && [d] == [d] + [];
    RunCons(s, c, [d]);
    RunCons(Next(s, c), d, []);
  }

  /** A call of a fresh process lists the pending ids from the start. */
  lemma FirstBatch(ids: seq<int>, limit: nat)
    requires |ids| <= limit && forall i :: i in ids ==> i >= 0
    ensures Batch(ids, -1, limit) == ids
  {
    if ids != [] {
      assert ids[0] in ids;
    }
    assert ids[0..] + ids[..0] == ids;
  }

  ghost predicate SameKeys(sends: seq<Send>, from: nat, i: nat) {
    forall j, k :: from <= j < k < |sends| && sends[j].item == i && sends[k].item == i ==> sends[j].key == sends[k].key
  }

  /** In every run from here on, all sends of row `i` carry one key. */
  ghost predicate OneKey(s: State, i: nat) {
    forall choices :: SameKeys(Run(s, choices).sends, |s.sends|, i)
  }

  /** An unnamed row can be sent under two keys: by two processes with different ids, bound by the second. */
  lemma TwoKeys(s: State, i: nat) returns (choices: seq<Choice>)
    requires i < |s.rows| && !s.rows[i].completed && !s.rows[i].state.LocalOnly? && !Named(s.rows[i])
    ensures !SameKeys(Run(s, choices).sends, |s.sends|, i)
  {
    var first := SentAfterRestart(s, "a", false, i);
    var t := Run(s, first);
    var second := SentAfterRestart(t, "b", true, i);
    choices := first + second;
    RunSplit(s, first, second);
    var u := Run(t, second);
    assert u.sends[|s.sends|] == t.sends[|s.sends|];
    assert u.sends[|s.sends|].key != u.sends[|s.sends| + 1].key;
  }

  /** An unfinished row that can be sent keeps one key in every run exactly when it names its controller. */
  lemma OneKeyIffNamed(s: State, i: nat)
    requires Inv(s) && i < |s.rows| && !s.rows[i].completed && !s.rows[i].state.LocalOnly?
    ensures OneKey(s, i) <==> Named(s.rows[i])
  {
    if Named(s.rows[i]) {
      forall choices
        ensures SameKeys(Run(s, choices).sends, |s.sends|, i)
      {
        ResendsKeepTheKey(s, choices, i, |s.sends|, KeyOf(s.rows[i].payload, s.config));
      }
    } else {
      var choices := TwoKeys(s, i);
    }
  }

  function Decimal(n: nat): (d: string)
    ensures |d| > 0
  {
    var last := ['0' + (n % 10) as char];
    if n < 10 then last else Decimal(n / 10) + last
  }

  /** The text that is hashed into the idempotency key. */
  function KeyText(key: Key): string {
    key.0 + ":" + Decimal(key.1)
  }

  lemma NoColon(n: nat)
    ensures forall i :: 0 <= i < |Decimal(n)| ==> Decimal(n)[i] != ':'
  {
  }

  lemma DecimalInjective(m: nat, n: nat)
    requires Decimal(m) == Decimal(n)
    ensures m == n
  {
    var d := Decimal(m);
    assert d[|d| - 1] == '0' + (m % 10) as char && d[|d| - 1] == '0' + (n % 10) as char;
    if m >= 10 && n >= 10 {
      assert d[..|d| - 1] == Decimal(m / 10) == Decimal(n / 10);
      DecimalInjective(m / 10, n / 10);
    }
  }

  /** Different keys are hashed from different texts, whatever the controller's name contains. */
  lemma KeyTextInjective(a: Key, b: Key)
    requires KeyText(a) == KeyText(b)
    ensures a == b
  {
    var x, y := Decimal(a.1), Decimal(b.1);
    NoColon(a.1);
    NoColon(b.1);
    var t := KeyText(a);
    assert t[|a.0|] == ':' && t[|b.0|] == ':';
    assert forall i :: |a.0| < i < |t| ==> t[i] == x[i - |a.0| - 1];
    assert forall i :: |b.0| < i < |t| ==> t[i] == y[i - |b.0| - 1];
    assert |a.0| == |b.0|;
    assert a.0 == t[..|a.0|] && b.0 == t[..|b.0|];
    assert x == t[|a.0| + 1..] && y == t[|b.0| + 1..];
    DecimalInjective(a.1, b.1);
  }

  // ---- Trace identity -----------------------------------------------------------------------

  /** This step is the preparation of a send of event `e`'s row. */
  predicate Prepares(s: State, c: Choice, e: nat) {
    c.Prepare? && s.pc.Visiting? && s.pc.todo != [] && 0 <= s.pc.todo[0] < |s.rows| && s.rows[s.pc.todo[0]].event == e
  }

  function Raised(attempt: int): int {
    if attempt + 1 > MAX_ATTEMPT then MAX_ATTEMPT else attempt + 1
  }

  lemma PrepareSameTrace(s: State, how: Preparing, startedAt: string, lag: int, e: nat)
    requires Inv(s) && e in s.traces
    ensures var c := Prepare(how, startedAt, lag);
            var before, after := s.traces[e], Next(s, c).traces;
            && e in after && SameTrace(before, after[e])
            && (Attempt(after[e]) == Attempt(before)
                || (Prepares(s, c, e) && Attempt(after[e]) == Raised(Attempt(before))))
  {
    if Prepares(s, Prepare(how, startedAt, lag), e) {
      SendingSameTrace(s.traces[e], s.rows[s.pc.todo[0]].createdAt, startedAt, lag);
    }
  }

  lemma CompleteSameTrace(s: State, fault: Fault, rewrites: bool, at: string, interval: Option<int>, e: nat)
    requires Inv(s) && e in s.traces
    ensures var after := Next(s, Complete(fault, rewrites, at, interval)).traces;
            e in after && SameTrace(s.traces[e], after[e]) && Attempt(after[e]) == Attempt(s.traces[e])
  {
    if s.pc.Acked? && s.pc.payload.telemetry.Some? {
      DeliveredSameTrace(s.pc.payload.telemetry.value, at, interval);
    }
  }

  /** A stored trace stays the same trace; only preparing a send moves its counter, by one up to the bound. */
  lemma StepSameTrace(s: State, c: Choice, e: nat)
    requires Inv(s) && e in s.traces && e in Next(s, c).traces
    ensures SameTrace(s.traces[e], Next(s, c).traces[e])
    ensures var before, after := Attempt(s.traces[e]), Attempt(Next(s, c).traces[e]);
            after == before || (Prepares(s, c, e) && after == Raised(before))
  {
    match c
    case Prepare(how, startedAt, lag) => PrepareSameTrace(s, how, startedAt, lag, e);
    case Complete(fault, rewrites, at, interval) => CompleteSameTrace(s, fault, rewrites, at, interval, e);
    case Retry(fault, rewrites) => RetryingSameTrace(s.traces[e]);
    case _ =>
  }

  /** A successful preparation of a sendable row with a stored trace sets the counter to one more, up to the bound. */
  lemma PreparationCounts(s: State, startedAt: string, lag: int)
    requires s.pc.Visiting? && s.pc.todo != [] && 0 <= s.pc.todo[0] < |s.rows|
    requires Sendable(s.rows[s.pc.todo[0]]) && s.rows[s.pc.todo[0]].event in s.traces
    ensures var e := s.rows[s.pc.todo[0]].event;
            var after := Next(s, Prepare(Good, startedAt, lag)).traces;
            e in after && SameTrace(s.traces[e], after[e]) && Attempt(after[e]) == Raised(Attempt(s.traces[e]))
  {
    var row := s.rows[s.pc.todo[0]];
    SendingSameTrace(s.traces[row.event], row.createdAt, startedAt, lag);
  }

  /** The trace of event `e` is stored throughout the run. */
  predicate StoredThroughout(s: State, choices: seq<Choice>, e: nat)
    decreases |choices|
  {
    e in s.traces && (choices == [] || StoredThroughout(Next(s, choices[0]), choices[1..], e))
  }

  lemma {:induction false} RunSameTrace(s: State, choices: seq<Choice>, e: nat)
    requires Inv(s) && StoredThroughout(s, choices, e)
    ensures var u := Run(s, choices); e in u.traces && SameTrace(s.traces[e], u.traces[e])
                                      && Attempt(s.traces[e]) <= Attempt(u.traces[e])
    decreases |choices|
  {
    if choices != [] {
      NextKeeps(s, choices[0]);
      StepSameTrace(s, choices[0], e);
      RunSameTrace(Next(s, choices[0]), choices[1..], e);
    }
  }

  /**
   Attaching a trace again after any run of prepare, retry and complete steps is accepted and
   leaves the stored trace as it is.
   */
  lemma {:induction false} AttachingAgainIsAccepted(s: State, event: nat, t: Telemetry, choices: seq<Choice>)
    requires Inv(s) && AttachResult(s, event, t).1 && StoredThroughout(Next(s, Attach(event, t)), choices, event)
    ensures var u := Run(Next(s, Attach(event, t)), choices);
            AttachResult(u, event, t).1 && AttachResult(u, event, t).0.traces == u.traces
  {
    var first := Next(s, Attach(event, t));
    NextKeeps(s, Attach(event, t));
    AttachedIsSame(s, event, t);
    RunSameTrace(first, choices, event);
    SameTraceIsAccepted(Run(first, choices), event, t);
  }

  lemma AttachedIsSame(s: State, event: nat, t: Telemetry)
    requires AttachResult(s, event, t).1
    ensures var u := AttachResult(s, event, t).0; event in u.traces && SameTrace(u.traces[event], t)
  {
    var i := RowOf(s.rows, event);
    EnrichedSameTrace(t, if i < 0 then None else Some(s.rows[i].createdAt));
  }

  lemma SameTraceIsAccepted(s: State, event: nat, t: Telemetry)
    requires event in s.traces && SameTrace(s.traces[event], t)
    ensures AttachResult(s, event, t).1 && AttachResult(s, event, t).0.traces == s.traces
  {
    var i := RowOf(s.rows, event);
    EnrichedSameTrace(t, if i < 0 then None else Some(s.rows[i].createdAt));
  }

  /** A different trace is refused as long as the first one is stored, and changes nothing. */
  lemma OtherTracesAreRefused(s: State, event: nat, t: Telemetry)
    requires event in s.traces && !SameTrace(s.traces[event], t)
    ensures AttachResult(s, event, t) == (s, false)
  {
    var i := RowOf(s.rows, event);
    EnrichedSameTrace(t, if i < 0 then None else Some(s.rows[i].createdAt));
  }
}
