/** What each step of outbox delivery writes, field by field, and what a row's payload keeps over every run. */
module DeliveryMeaning {
  import opened Prelude
  import opened Traces
  import opened Delivery
  import Store

  /** Only row `i` differs, and there only in the fields of `row`. */
  ghost predicate OnlyRow(before: seq<Row>, after: seq<Row>, i: nat, row: Row) {
    i < |before| && after == before[i := row]
  }

  // ---- Queueing and attaching ---------------------------------------------------------------

  /** An event is queued once, as version 2 without telemetry; a second enqueue changes nothing. */
  lemma EnqueueMeaning(s: State, event: nat, base: Base, awaits: bool, at: string)
    ensures var u := Next(s, Enqueue(event, base, awaits, at));
            if exists i :: 0 <= i < |s.rows| && s.rows[i].event == event then u == s
            else && u == s.(rows := u.rows) && |u.rows| == |s.rows| + 1 && u.rows[..|s.rows|] == s.rows
                 && var row := u.rows[|s.rows|];
                 && row.event == event && row.payload == Payload(base, 2, None) && !row.completed && row.createdAt == at
                 && row.state == if awaits then Store.AwaitingTelemetry else Store.Ready
  {
  }

  /** Releasing wakes the event's row if it still waits, and nothing else. */
  lemma ReleaseMeaning(s: State, event: nat, i: nat)
    requires Inv(s) && i < |s.rows|
    ensures var u := Next(s, Release(event));
            && u == s.(rows := u.rows) && |u.rows| == |s.rows|
            && u.rows[i] == if s.rows[i].event == event && !s.rows[i].completed
                               && s.rows[i].state == Store.AwaitingTelemetry
                            then s.rows[i].(state := Store.Ready) else s.rows[i]
  {
  }

  /** The trace may be attached: the event has the same one, or has none and no other event owns its id. */
  ghost predicate MayAttach(s: State, event: nat, t: Telemetry) {
    if event in s.traces then SameTrace(s.traces[event], t)
    else forall e :: e in s.traces ==> s.traces[e].traceId != t.traceId
  }

  /** An unfinished row is promoted: version 3 with the trace, and sendable. */
  ghost predicate PromotedTo(before: Row, after: Row, t: Telemetry) {
    after == if before.completed then before
    else Row(before.event, Payload(before.payload.base, 3, Some(t)), Store.TelemetryReady, false,
             before.createdAt)
  }

  /** Attaching stores the first trace, keeps a stored one, and promotes the event's row with the stored trace. */
  lemma AttachMeaning(s: State, event: nat, t: Telemetry)
    requires Inv(s)
    ensures var (u, accepted) := AttachResult(s, event, t);
            && (accepted <==> MayAttach(s, event, t))
            && (!accepted ==> u == s)
            && (accepted ==>
                  && u == s.(rows := u.rows, traces := u.traces) && event in u.traces
                  && u.traces == s.traces[event := u.traces[event]]
                  && (event in s.traces ==> u.traces == s.traces)
                  && (event !in s.traces ==> SameTrace(u.traces[event], t) && u.traces[event].attempt == t.attempt
                                             && u.traces[event].state == t.state)
                  && |u.rows| == |s.rows|
                  && forall i :: 0 <= i < |s.rows| ==>
                                   if s.rows[i].event == event then PromotedTo(s.rows[i], u.rows[i], u.traces[event])
                                   else u.rows[i] == s.rows[i])
  {
    var i := RowOf(s.rows, event);
    var createdAt := if i < 0 then None else Some(s.rows[i].createdAt);
    EnrichedSameTrace(t, createdAt);
    EnrichedMeaning(t, createdAt);
  }

  // ---- One attempt ------------------------------------------------------------------------

  /** The item that the call visits next is row `i`, and it can be sent. */
  ghost predicate AtRow(s: State, i: nat) {
    s.pc.Visiting? && s.pc.todo != [] && s.pc.todo[0] == i && i < |s.rows| && !s.rows[i].completed
    && (s.rows[i].state == Store.Ready || s.rows[i].state == Store.TelemetryReady)
  }

  /**
   Preparing a row that can be sent leaves its payload in hand: with a stored trace and no failure
   as version 3 with exactly the trace that is now stored, which is marked as being sent; in every
   other case as version 2 without telemetry. An exception leaves the tables as they were.
   */
  lemma PreparationMeaning(s: State, i: nat, how: Preparing, startedAt: string, lag: int)
    requires AtRow(s, i)
    ensures var u := Next(s, Prepare(how, startedAt, lag));
            var row := s.rows[i];
            && u == s.(pc := u.pc, cursor := i, rows := u.rows, traces := u.traces)
            && (how.Raising? ==> u.pc == Broken(i, s.pc.todo[1..]) && u.rows == s.rows && u.traces == s.traces)
            && (!how.Raising? ==>
                  && u.pc.Prepared? && u.pc.item == i && u.pc.todo == s.pc.todo[1..]
                  && u.pc.payload.base == row.payload.base
                  && (how.Good? && row.event in s.traces ==>
                        && row.event in u.traces && u.pc.payload.version == 3
                        && u.pc.payload.telemetry == Some(u.traces[row.event])
                        && u.traces[row.event].state == "sending")
                  && (!how.Good? || row.event !in s.traces ==>
                        u.pc.payload.version == 2 && u.pc.payload.telemetry == None))
            && OnlyRow(s.rows, u.rows, i, row.(payload := u.rows[i].payload))
            && u.rows[i].payload.base == row.payload.base
            && (forall e :: e != row.event ==> (e in u.traces <==> e in s.traces)
                                               && (e in u.traces ==> u.traces[e] == s.traces[e]))
  {
  }

  /** One send: the payload in hand, under the key of the controller and the event. */
  lemma TransmissionMeaning(s: State, answered: bool)
    requires Inv(s) && s.pc.Prepared?
    ensures var u := Next(s, Transmit(answered));
            && u == s.(pc := u.pc, sends := u.sends) && |u.sends| == |s.sends| + 1 && u.sends[..|s.sends|] == s.sends
            && var x := u.sends[|s.sends|];
            && x.item == s.pc.item && x.row == s.rows[s.pc.item] && x.returned == answered && x.config == s.config
            && x.payload.version == s.pc.payload.version && x.payload.telemetry == s.pc.payload.telemetry
            && SendMeans(x)
            && u.pc == if answered then Acked(s.pc.item, s.pc.payload, s.pc.todo) else Broken(s.pc.item, s.pc.todo)
  {
    TransmitKeeps(s, answered);
  }

  /** Completing closes the row with the payload that was sent; the trace becomes delivered unless its rewrite fails. */
  lemma CompletionMeaning(s: State, fault: Fault, rewrites: bool, at: string, interval: Option<int>)
    requires Inv(s) && s.pc.Acked?
    ensures var u := Next(s, Complete(fault, rewrites, at, interval));
            var row := s.rows[s.pc.item];
            && u == s.(pc := Visiting(s.pc.todo), rows := u.rows, traces := u.traces)
            && (fault == RaisesBefore ==> u.rows == s.rows && u.traces == s.traces)
            && (fault != RaisesBefore ==>
                  && OnlyRow(s.rows, u.rows, s.pc.item, row.(payload := s.pc.payload, completed := true))
                  && (if row.event in s.traces && s.pc.payload.telemetry.Some? && rewrites
                      then u.traces == s.traces[row.event := u.traces[row.event]]
                           && u.traces[row.event].state == "delivered"
                      else u.traces == s.traces))
  {
  }

  /** A failed attempt leaves the row unfinished in its state: with the stored trace, marked for retry, or with none. */
  lemma RetryMeaning(s: State, fault: Fault, rewrites: bool)
    requires Inv(s) && s.pc.Broken?
    ensures var u := Next(s, Retry(fault, rewrites));
            var row := s.rows[s.pc.item];
            && u == s.(pc := Visiting(s.pc.todo), rows := u.rows, traces := u.traces)
            && (fault == RaisesBefore || row.completed ==> u.rows == s.rows && u.traces == s.traces)
            && (fault != RaisesBefore && !row.completed ==>
                  && OnlyRow(s.rows, u.rows, s.pc.item, row.(payload := u.rows[s.pc.item].payload))
                  && u.rows[s.pc.item].payload.base == row.payload.base
                  && var p := u.rows[s.pc.item].payload;
                  if row.event in s.traces && rewrites
                  then && u.traces == s.traces[row.event := u.traces[row.event]]
                       && u.traces[row.event].state == "retry_pending"
                       && p.version == 3 && p.telemetry == Some(u.traces[row.event])
                  else u.traces == s.traces && p.version == 2 && p.telemetry == None)
  {
  }

  /** Retention deletes the traces of completed rows only, and strips those rows of theirs; every base stays. */
  lemma PurgeMeaning(s: State, events: set<nat>)
    requires Inv(s)
    ensures var u := Next(s, PurgeDelivered(events));
            && u == s.(rows := u.rows, traces := u.traces) && |u.rows| == |s.rows|
            && (forall e :: e in u.traces ==> e in s.traces && u.traces[e] == s.traces[e])
            && (forall e :: e in s.traces && e !in u.traces ==>
                              e in events && exists i :: 0 <= i < |s.rows| && s.rows[i].event == e
                                                         && s.rows[i].completed)
            && (forall i :: 0 <= i < |s.rows| ==>
                              var row := s.rows[i];
                              if row.completed && row.event in events && row.event in s.traces
                              then row.event !in u.traces
                                   && u.rows[i] == row.(payload := Payload(row.payload.base, 2, None))
                              else u.rows[i] == row)
  {
    forall i | 0 <= i < |s.rows|
      ensures RowOf(s.rows, s.rows[i].event) == i
    {
      assert HasRow(s.rows, s.rows[i].event);
    }
  }

  /** The other retention deletes traces of events without a row only. */
  lemma UnqueuedMeaning(s: State, events: set<nat>)
    ensures var u := Next(s, PurgeUnqueued(events));
            && u == s.(traces := u.traces)
            && forall e :: (e in u.traces <==> e in s.traces && (e !in events || HasRow(s.rows, e)))
                           && (e in u.traces ==> u.traces[e] == s.traces[e])
  {
  }

  /**
   A start wakes every unfinished waiting row, forgets the worker's place, and may bind bases
   (`StepBase`); nothing else.
   */
  lemma RestartMeaning(s: State, config: string, binds: bool)
    ensures var u := Next(s, Restart(config, binds));
            && u == s.(rows := u.rows, config := config, pc := Idle, cursor := -1) && |u.rows| == |s.rows|
            && forall i :: 0 <= i < |s.rows| ==>
                             var row, b := s.rows[i], u.rows[i].payload.base;
                             var waits := !row.completed && row.state == Store.AwaitingTelemetry;
                             var woken := if waits then row.(state := Store.Ready) else row;
                             u.rows[i] == woken.(payload := row.payload.(base := b))
  {
  }

  // ---- One event per trace ------------------------------------------------------------------

  ghost predicate TracesApart(traces: map<nat, Telemetry>) {
    forall d, e :: d in traces && e in traces && d != e ==> traces[d].traceId != traces[e].traceId
  }

  /** No two events ever share a trace id. */
  lemma StepTracesApart(s: State, c: Choice)
    requires Inv(s) && TracesApart(s.traces)
    ensures TracesApart(Next(s, c).traces)
  {
    match c
    case Attach(event, t) =>
      AttachMeaning(s, event, t);
    case _ =>
  }

  lemma {:induction false} OneEventPerTrace(s: State, choices: seq<Choice>)
    requires Inv(s) && TracesApart(s.traces)
    ensures TracesApart(Run(s, choices).traces)
    decreases |choices|
  {
    if choices != [] {
      NextKeeps(s, choices[0]);
      StepTracesApart(s, choices[0]);
      OneEventPerTrace(Next(s, choices[0]), choices[1..]);
    }
  }

  // ---- What a row's payload keeps --------------------------------------------------------------

  predicate NamesController(b: Base) {
    b.controller.Some? && b.controller.value != ""
  }

  /**
   `b` comes from the queued `a`: event, image digest and the rest as queued, a named controller too;
   only a missing controller is named, and only a path to legacy evidence is dropped, which marks an
   event without an image.
   */
  ghost predicate Descends(a: Base, b: Base) {
    && b.eventId == a.eventId && b.image == a.image && b.other == a.other
    && (NamesController(a) ==> b.controller == a.controller) && (b.legacyPath ==> a.legacyPath)
    && (b.imageStatus == a.imageStatus
        || (a.legacyPath && a.image.None? && b.imageStatus == Some("legacy_evidence_unavailable")))
  }

  predicate Binding(c: Choice) {
    c.Restart? && c.binds
  }

  /** No step changes a row's base, except that a start that binds the unfinished rows names their controller. */
  lemma StepBase(s: State, c: Choice, i: nat)
    requires Inv(s) && i < |s.rows|
    ensures i < |Next(s, c).rows|
    ensures var a, b := s.rows[i].payload.base, Next(s, c).rows[i].payload.base;
            if !Binding(c) || s.rows[i].completed then b == a
            else && Descends(a, b) && !b.legacyPath
                 && b.controller == (if NamesController(a) then a.controller else Some(c.config))
                 && (a.legacyPath && a.image.None? ==> b.imageStatus == Some("legacy_evidence_unavailable"))
                 && (!(a.legacyPath && a.image.None?) ==> b.imageStatus == a.imageStatus)
  {
  }

  ghost predicate SentFrom(sends: seq<Send>, first: nat, i: nat, base: Base) {
    forall k :: first <= k < |sends| && sends[k].item == i ==> Descends(base, sends[k].payload.base)
  }

  lemma StepSentFrom(s: State, c: Choice, first: nat, i: nat, base: Base)
    requires Inv(s) && i < |s.rows| && Descends(base, s.rows[i].payload.base) && SentFrom(s.sends, first, i, base)
    ensures SentFrom(Next(s, c).sends, first, i, base)
  {
    if c.Transmit? && s.pc.Prepared? {
      TransmissionMeaning(s, c.answered);
    }
  }

  /**
   Over every run, every send of a row carries what was queued: through all failures, retries,
   rewrites of the trace, purges, restarts and bindings. Without a binding start the row itself
   keeps exactly what was queued.
   */
  lemma {:induction false} SendsCarryTheQueued(s: State, choices: seq<Choice>, i: nat, first: nat, base: Base)
    requires Inv(s) && i < |s.rows| && Descends(base, s.rows[i].payload.base) && SentFrom(s.sends, first, i, base)
    ensures var u := Run(s, choices);
            && i < |u.rows| && SentFrom(u.sends, first, i, base) && Descends(base, u.rows[i].payload.base)
            && ((forall k :: 0 <= k < |choices| ==> !Binding(choices[k])) ==>
                  u.rows[i].payload.base == s.rows[i].payload.base)
    decreases |choices|
  {
    if choices != [] {
      NextKeeps(s, choices[0]);
      StepBase(s, choices[0], i);
      StepSentFrom(s, choices[0], first, i, base);
      SendsCarryTheQueued(Next(s, choices[0]), choices[1..], i, first, base);
    }
  }

  /** Every transmission of every run: the row as it stood, field by field, and the stored trace or none. */
  lemma SendsMean(s: State, choices: seq<Choice>, k: nat)
    requires s.sends == [] && Inv(s) && k < |Run(s, choices).sends|
    ensures SendMeans(Run(s, choices).sends[k])
  {
    RunKeeps(s, choices);
  }
}
