/**
 The outbox delivery machine: rows and stored traces, one worker that sends, and the other
 writers of the same tables. A row's id is its index. Every transaction may raise before or
 after its commit; a restart keeps the tables and may come with another controller id.
 */
module Delivery {
  import opened Prelude
  import opened Traces
  import opened RetryOrder
  import Store

  type SendState = Store.SendState

  /** The payload without its telemetry; `controller` is None when the key is absent. */
  datatype Base = Base(eventId: nat, controller: Option<string>, image: Option<string>, imageStatus: Option<string>,
                       legacyPath: bool, other: string)

  datatype Payload = Payload(base: Base, version: nat, telemetry: Option<Telemetry>)

  datatype Row = Row(event: nat, payload: Payload, state: SendState, completed: bool, createdAt: string)

  datatype Pc =
    | Idle
    | Visiting(todo: seq<int>)
    | Prepared(item: nat, payload: Payload, todo: seq<int>)   // about to send
    | Acked(item: nat, payload: Payload, todo: seq<int>)      // the send returned
    | Broken(item: nat, todo: seq<int>)                       // preparing or sending raised

  /** What a transmitted payload is deduplicated by: `controller_id` and `event_id`. */
  type Key = (string, nat)

  /** One call of `send`: what it transmitted under which key, the configured id, the row and its stored trace then. */
  datatype Send = Send(item: nat, payload: Payload, key: Key, config: string, row: Row, stored: Option<Telemetry>,
                       returned: bool)

  datatype State = State(rows: seq<Row>, traces: map<nat, Telemetry>, config: string, pc: Pc, cursor: int,
                         sends: seq<Send>)

  /** How `prepare_outbox_attempt` ends; after a failed rewrite it falls back, perhaps with the rewrite committed. */
  datatype Preparing = Good | FallsBack(committed: bool) | Raising

  datatype Choice =
    | Enqueue(event: nat, base: Base, awaits: bool, at: string)
    | Release(event: nat)
    | Attach(event: nat, telemetry: Telemetry)
    | PurgeDelivered(events: set<nat>)
    | PurgeUnqueued(events: set<nat>)
    | Restart(config: string, binds: bool)
    | BeginCall(limit: nat)
    | Prepare(how: Preparing, startedAt: string, lag: int)
    | Transmit(answered: bool)
    | Complete(fault: Fault, rewrites: bool, at: string, interval: Option<int>)
    | Retry(fault: Fault, rewrites: bool)
    | EndCall

  predicate Sendable(r: Row) {
    !r.completed && (r.state.Ready? || r.state.TelemetryReady?)
  }

  /** The ids of the sendable rows, ascending. */
  function Pending(rows: seq<Row>): (ids: seq<int>)
    ensures |ids| <= |rows| && forall i :: i in ids ==> 0 <= i < |rows|
  {
    if rows == [] then []
    else Pending(rows[..|rows| - 1]) + (if Sendable(rows[|rows| - 1]) then [|rows| - 1] else [])
  }

  lemma {:induction false} PendingMeaning(rows: seq<Row>)
    ensures Ascending(Pending(rows))
    ensures forall i :: i in Pending(rows) <==> 0 <= i < |rows| && Sendable(rows[i])
    ensures forall i :: i in Pending(rows) <==>
                        && 0 <= i < |rows| && !rows[i].completed
                        && (rows[i].state == Store.Ready || rows[i].state == Store.TelemetryReady)
  {
    if rows != [] {
      var front := rows[..|rows| - 1];
      PendingMeaning(front);
      var ids := Pending(front);
      forall i | 0 <= i < |ids|
        ensures ids[i] < |rows| - 1
      {
        assert ids[i] in ids;
      }
      forall i ensures i in Pending(rows) <==> 0 <= i < |rows| && Sendable(rows[i]) {
        assert 0 <= i < |rows| - 1 ==> rows[i] == front[i];
      }
    }
  }

  predicate HasRow(rows: seq<Row>, event: nat) {
    exists i :: 0 <= i < |rows| && rows[i].event == event
  }

  function RowOf(rows: seq<Row>, event: nat): (i: int)
    ensures -1 <= i < |rows|
    ensures i >= 0 ==> rows[i].event == event
    ensures i < 0 <==> !HasRow(rows, event)
  {
    if rows == [] then -1
    else if rows[|rows| - 1].event == event then |rows| - 1
    else RowOf(rows[..|rows| - 1], event)
  }

  /** `_v2_outbox_payload` */
  function Fallback(p: Payload): Payload {
    p.(version := 2, telemetry := None)
  }

  /** `_prepare_outbox_payload` without the image bytes */
  function Transmitted(p: Payload, config: string): Payload {
    var b := p.base;
    var status := if b.legacyPath && b.image.None? && b.imageStatus.None? then Some("legacy_evidence_unavailable")
                  else b.imageStatus;
    p.(base := b.(legacyPath := false, imageStatus := status, controller := Some(KeyOf(p, config).0)))
  }

  function StoredTrace(s: State, event: nat): Option<Telemetry> {
    if event in s.traces then Some(s.traces[event]) else None
  }

  /** The controller id that `_prepare_outbox_payload` leaves, and the event id: the key before hashing. */
  function KeyOf(p: Payload, config: string): Key {
    (if p.base.controller.Some? then p.base.controller.value else config, p.base.eventId)
  }

  /** `bind_pending_outbox_controller` on one row. */
  function Bound(r: Row, config: string): Row {
    if r.completed then r else
    var b := r.payload.base;
    var imaged := if b.legacyPath && b.image.None?
                  then b.(legacyPath := false, imageStatus := Some("legacy_evidence_unavailable"))
                  else b.(legacyPath := false);
    var named := b.controller.Some? && b.controller.value != "";
    r.(payload := r.payload.(base := if named then imaged else imaged.(controller := Some(config))))
  }

  function Awoken(r: Row): Row {
    if !r.completed && r.state.AwaitingTelemetry? then r.(state := Store.Ready) else r
  }

  function EnqueueStep(s: State, event: nat, base: Base, awaits: bool, at: string): State {
    if HasRow(s.rows, event) then s
    else s.(rows := s.rows + [Row(event, Payload(base, 2, None), if awaits then Store.AwaitingTelemetry
                                  else Store.Ready, false, at)])
  }

  function ReleaseStep(s: State, event: nat): State {
    var i := RowOf(s.rows, event);
    if i < 0 then s else s.(rows := s.rows[i := Awoken(s.rows[i])])
  }

  /** `_promote_outbox` */
  function Promoted(rows: seq<Row>, event: nat, t: Telemetry): (r: seq<Row>)
    ensures |r| == |rows|
  {
    var i := RowOf(rows, event);
    if i < 0 || rows[i].completed then rows
    else rows[i := rows[i].(payload := rows[i].payload.(version := 3, telemetry := Some(t)),
         state := Store.TelemetryReady)]
  }

  /** `attach_event_telemetry`; the flag tells a rejected trace from an accepted one. */
  function AttachResult(s: State, event: nat, t: Telemetry): (r: (State, bool)) {
    var i := RowOf(s.rows, event);
    var enriched := Enriched(t, if i < 0 then None else Some(s.rows[i].createdAt));
    if event in s.traces then
      if s.traces[event].traceId != enriched.traceId || !SameTrace(s.traces[event], enriched) then (s, false)
      else (s.(rows := Promoted(s.rows, event, s.traces[event])), true)
    else if exists e :: e in s.traces && s.traces[e].traceId == t.traceId then (s, false)
    else (s.(traces := s.traces[event := enriched], rows := Promoted(s.rows, event, enriched)), true)
  }

  function PrepareStep(s: State, how: Preparing, startedAt: string, lag: int): State
    requires s.pc.Visiting? && s.pc.todo != []
  {
    var item, rest := s.pc.todo[0], s.pc.todo[1..];
    var moved := s.(cursor := item);
    if item < 0 || item >= |s.rows| then moved.(pc := Visiting(rest)) else
    var row := s.rows[item];
    if how.Raising? then moved.(pc := Broken(item, rest))
    else if !Sendable(row) then moved.(pc := Visiting(rest))
    else if row.event !in s.traces then moved.(pc := Prepared(item, Fallback(row.payload), rest))
    else
      var t := Sending(s.traces[row.event], row.createdAt, startedAt, lag);
      var payload := Fallback(row.payload).(version := 3, telemetry := Some(t));
      var written := moved.(traces := s.traces[row.event := t], rows := s.rows[item := row.(payload := payload)]);
      match how
      case FallsBack(committed) => (if committed then written
                                    else moved).(pc := Prepared(item, Fallback(row.payload), rest))
      case _ => written.(pc := Prepared(item, payload, rest))
  }

  function TransmitStep(s: State, answered: bool): State
    requires s.pc.Prepared? && s.pc.item < |s.rows|
  {
    var Prepared(item, payload, todo) := s.pc;
    var row := s.rows[item];
    s.(sends := s.sends + [Send(item, Transmitted(payload, s.config), KeyOf(payload, s.config), s.config, row,
                                StoredTrace(s, row.event), answered)],
    pc := if answered then Acked(item, payload, todo) else Broken(item, todo))
  }

  function CompleteStep(s: State, fault: Fault, rewrites: bool, at: string, interval: Option<int>): State
    requires s.pc.Acked? && s.pc.item < |s.rows|
  {
    var Acked(item, payload, todo) := s.pc;
    var row := s.rows[item];
    var next := s.(pc := Visiting(todo));
    if fault == RaisesBefore || row.completed then next
    else
      var traces := if row.event in s.traces && payload.telemetry.Some? && rewrites
                    then s.traces[row.event := Delivered(payload.telemetry.value, at, interval)] else s.traces;
      next.(traces := traces, rows := s.rows[item := row.(payload := payload, completed := true)])
  }

  function RetryStep(s: State, fault: Fault, rewrites: bool): State
    requires s.pc.Broken? && s.pc.item < |s.rows|
  {
    var Broken(item, todo) := s.pc;
    var row := s.rows[item];
    var next := s.(pc := Visiting(todo));
    if fault == RaisesBefore || row.completed then next
    else if row.event !in s.traces || !rewrites
    then next.(rows := s.rows[item := row.(payload := Fallback(row.payload))])
    else
      var t := Retrying(s.traces[row.event]);
      next.(traces := s.traces[row.event := t],
      rows := s.rows[item := row.(payload := Fallback(row.payload).(version := 3, telemetry := Some(t)))])
  }

  /** Deletes the traces of these events' completed rows, after stripping the rows of theirs. */
  function PurgeStep(s: State, events: set<nat>): State {
    var gone := set e | e in events && RowOf(s.rows, e) >= 0 && s.rows[RowOf(s.rows, e)].completed && e in s.traces;
    s.(traces := s.traces - gone,
    rows := seq(|s.rows|, i requires 0 <= i < |s.rows| =>
      if s.rows[i].completed
         && s.rows[i].event in gone then s.rows[i].(payload := Fallback(s.rows[i].payload))
      else s.rows[i]))
  }

  /** Start-up: recovery wakes every waiting row, and the new worker binds the pending ones. */
  function RestartStep(s: State, config: string, binds: bool): State {
    s.(config := config, pc := Idle, cursor := -1,
    rows := seq(|s.rows|, i requires 0 <= i < |s.rows| =>
      if binds then Bound(Awoken(s.rows[i]), config) else Awoken(s.rows[i])))
  }

  function Next(s: State, c: Choice): State {
    match c
    case Enqueue(event, base, awaits, at) => EnqueueStep(s, event, base, awaits, at)
    case Release(event) => ReleaseStep(s, event)
    case Attach(event, t) => AttachResult(s, event, t).0
    case PurgeDelivered(events) => PurgeStep(s, events)
    case PurgeUnqueued(events) => s.(traces := s.traces - (set e | e in events && !HasRow(s.rows, e)))
    case Restart(config, binds) => RestartStep(s, config, binds)
    case BeginCall(limit) => if s.pc.Idle? then s.(pc := Visiting(Batch(Pending(s.rows), s.cursor, limit))) else s
    case Prepare(how, startedAt, lag) => if s.pc.Visiting? && s.pc.todo != [] then PrepareStep(s, how, startedAt, lag)
    else s
    case Transmit(answered) => if s.pc.Prepared? && s.pc.item < |s.rows| then TransmitStep(s, answered) else s
    case Complete(fault, rewrites, at, interval) =>
      if s.pc.Acked? && s.pc.item < |s.rows| then CompleteStep(s, fault, rewrites, at, interval) else s
    case Retry(fault, rewrites) => if s.pc.Broken? && s.pc.item < |s.rows| then RetryStep(s, fault, rewrites) else s
    case EndCall => if s.pc.Visiting? && s.pc.todo == [] then s.(pc := Idle) else s
  }

  function Run(s: State, choices: seq<Choice>): State
    decreases |choices|
  {
    if choices == [] then s else Run(Next(s, choices[0]), choices[1..])
  }

  // ---- Invariants -------------------------------------------------------------------------

  ghost predicate Answered(sends: seq<Send>, item: nat) {
    exists k :: 0 <= k < |sends| && sends[k].item == item && sends[k].returned
  }

  ghost predicate RowsOk(s: State) {
    && (forall i, j :: 0 <= i < j < |s.rows| ==> s.rows[i].event != s.rows[j].event)
    && (forall i :: 0 <= i < |s.rows| && s.rows[i].completed ==> Answered(s.sends, i))
  }

  ghost predicate SendsOk(s: State) {
    forall k :: 0 <= k < |s.sends| ==> s.sends[k].item < |s.rows| && SendMeans(s.sends[k])
  }

  /** Version 3 with the stored trace, or version 2 without one. */
  ghost predicate CarriesTrace(p: Payload, stored: Option<Telemetry>) {
    (p.version == 3 && p.telemetry.Some? && p.telemetry == stored) || (p.version == 2 && p.telemetry.None?)
  }

  /**
   What was transmitted, from the row as it stood: an unfinished row, not waiting and not for local
   use only; every field of its payload, except that the configured id stands in for a missing
   controller and a path to legacy evidence is dropped; and the stored trace or none.
   */
  ghost predicate SendMeans(x: Send) {
    var sent, queued := x.payload.base, x.row.payload.base;
    && !x.row.completed && (x.row.state.Ready? || x.row.state.TelemetryReady?)
    && sent.eventId == queued.eventId && sent.image == queued.image && sent.other == queued.other && !sent.legacyPath
    && sent.controller == Some(if queued.controller.Some? then queued.controller.value else x.config)
    && sent.imageStatus == (if queued.legacyPath && queued.image.None? && queued.imageStatus.None?
                            then Some("legacy_evidence_unavailable") else queued.imageStatus)
    && x.key == (sent.controller.value, queued.eventId) && CarriesTrace(x.payload, x.stored)
  }

  /** The payload in hand is the row's, with the stored trace or none. */
  ghost predicate InHand(s: State, item: nat, p: Payload) {
    && item < |s.rows| && Sendable(s.rows[item])
    && p.base == s.rows[item].payload.base && CarriesTrace(p, StoredTrace(s, s.rows[item].event))
  }

  ghost predicate PcOk(s: State) {
    match s.pc
    case Prepared(item, p, _) => InHand(s, item, p)
    case Acked(item, p, _) => InHand(s, item, p) && Answered(s.sends, item)
    case Broken(item, _) => item < |s.rows|
    case _ => true
  }

  ghost predicate Inv(s: State) {
    RowsOk(s) && SendsOk(s) && PcOk(s)
  }

  // ---- Every step keeps the invariant -----------------------------------------------------

  lemma EnqueueKeeps(s: State, event: nat, base: Base, awaits: bool, at: string)
    requires Inv(s)
    ensures Inv(EnqueueStep(s, event, base, awaits, at))
  {
  }

  lemma ReleaseKeeps(s: State, event: nat)
    requires Inv(s)
    ensures Inv(ReleaseStep(s, event))
  {
  }

  lemma AttachKeeps(s: State, event: nat, t: Telemetry)
    requires Inv(s)
    ensures Inv(AttachResult(s, event, t).0)
  {
    if event in s.traces {
      PromotedKeeps(s, event, s.traces[event]);
    } else {
      var i := RowOf(s.rows, event);
      FirstAttachKeeps(s, event, Enriched(t, if i < 0 then None else Some(s.rows[i].createdAt)));
    }
  }

  lemma PromotedKeeps(s: State, event: nat, t: Telemetry)
    requires Inv(s)
    ensures Inv(s.(rows := Promoted(s.rows, event, t)))
  {
  }

  lemma FirstAttachKeeps(s: State, event: nat, t: Telemetry)
    requires Inv(s) && event !in s.traces
    ensures Inv(s.(traces := s.traces[event := t], rows := Promoted(s.rows, event, t)))
  {
  }

  lemma PrepareKeeps(s: State, how: Preparing, startedAt: string, lag: int)
    requires Inv(s) && s.pc.Visiting? && s.pc.todo != []
    ensures Inv(PrepareStep(s, how, startedAt, lag))
  {
  }

  lemma AnsweredStays(sends: seq<Send>, x: Send)
    ensures forall item :: Answered(sends, item) ==> Answered(sends + [x], item)
    ensures x.returned ==> Answered(sends + [x], x.item)
  {
    var more := sends + [x];
    assert more[|sends|] == x;
    forall item | Answered(sends, item)
      ensures Answered(more, item)
    {
      var k :| 0 <= k < |sends| && sends[k].item == item && sends[k].returned;
      assert more[k] == sends[k];
    }
  }

  lemma TransmitKeeps(s: State, answered: bool)
    requires Inv(s) && s.pc.Prepared?
    ensures Inv(TransmitStep(s, answered))
  {
    var item := s.pc.item;
    AnsweredStays(s.sends, TransmitStep(s, answered).sends[|s.sends|]);
  }

  lemma CompleteKeeps(s: State, fault: Fault, rewrites: bool, at: string, interval: Option<int>)
    requires Inv(s) && s.pc.Acked?
    ensures Inv(CompleteStep(s, fault, rewrites, at, interval))
  {
  }

  lemma RetryKeeps(s: State, fault: Fault, rewrites: bool)
    requires Inv(s) && s.pc.Broken?
    ensures Inv(RetryStep(s, fault, rewrites))
  {
  }

  lemma PurgeKeeps(s: State, events: set<nat>)
    requires Inv(s)
    ensures Inv(PurgeStep(s, events)) && Inv(Next(s, PurgeUnqueued(events)))
  {
  }

  lemma RestartKeeps(s: State, config: string, binds: bool)
    requires Inv(s)
    ensures Inv(RestartStep(s, config, binds))
  {
  }

  lemma NextKeeps(s: State, c: Choice)
    requires Inv(s)
    ensures Inv(Next(s, c))
  {
    match c
    case Enqueue(event, base, awaits, at) => EnqueueKeeps(s, event, base, awaits, at);
    case Release(event) => ReleaseKeeps(s, event);
    case Attach(event, t) => AttachKeeps(s, event, t);
    case PurgeDelivered(events) => PurgeKeeps(s, events);
    case PurgeUnqueued(events) => PurgeKeeps(s, events);
    case Restart(config, binds) => RestartKeeps(s, config, binds);
    case BeginCall(_) =>
    case Prepare(how, startedAt, lag) =>
      if s.pc.Visiting? && s.pc.todo != [] {
        PrepareKeeps(s, how, startedAt, lag);
      }
    case Transmit(answered) =>
      if s.pc.Prepared? {
        TransmitKeeps(s, answered);
      }
    case Complete(fault, rewrites, at, interval) =>
      if s.pc.Acked? {
        CompleteKeeps(s, fault, rewrites, at, interval);
      }
    case Retry(fault, rewrites) =>
      if s.pc.Broken? {
        RetryKeeps(s, fault, rewrites);
      }
    case EndCall =>
  }

  lemma {:induction false} RunKeeps(s: State, choices: seq<Choice>)
    requires Inv(s)
    ensures Inv(Run(s, choices))
    decreases |choices|
  {
    if choices != [] {
      NextKeeps(s, choices[0]);
      RunKeeps(Next(s, choices[0]), choices[1..]);
    }
  }
}
