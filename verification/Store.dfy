/**
 The controller's tables and their transactions. Claims, events and outbox are sequences of rows
 whose row id is the index: no row of these is ever deleted. Acknowledgements are a map; the
 worker that sends them deletes them. Times are UTC microseconds; the text
 the database holds orders them the same way (`Timestamps.TextOrderIsTimeOrder`).
 Each transaction is one function from tables to tables; None means that it raised and rolled back.
 */
module Store {
  import opened Prelude

  /** `activation_attempt_at`, `activation_monotonic` and `boot_id`: set together, cleared together. */
  datatype Marker = Marker(at: int, mono: real, boot: Option<nat>)

  datatype Recognition = Recognition(authorised: Option<string>, observed: Option<string>, confidence: real)

  datatype GateEvent = GateEvent(source: string, reason: string, gateOpened: bool, key: Option<string>,
                                 receivedAt: int, decisionAt: Option<int>, relayActivatedAt: Option<int>,
                                 recognition: Recognition)

  datatype Payload = Payload(imageDigest: Option<string>, awaitTelemetry: bool)

  /** A command id and the time it was received. */
  type CommandAck = (string, int)

  /** `pending_*` columns of a claim; foreign text may not decode. */
  datatype Pending = Undecodable | Decodable(event: GateEvent, payload: Option<Payload>, ack: Option<CommandAck>)

  datatype ClaimRow = ClaimRow(key: string, claimedAt: int, finalized: bool, eventId: Option<nat>,
                               status: string, detail: Option<string>, marker: Option<Marker>, pending: Option<Pending>)

  datatype SendState = Ready | AwaitingTelemetry | TelemetryReady | LocalOnly

  datatype OutboxRow = OutboxRow(eventId: nat, payload: Payload, state: SendState, completed: bool)

  datatype Ack = Ack(status: string, detail: Option<string>, createdAt: int)

  datatype Db = Db(claims: seq<ClaimRow>, events: seq<GateEvent>, outbox: seq<OutboxRow>, acks: map<string, Ack>)

  const EXPIRED := "expired"
  const FAILED := "failed"
  const COMPLETED := "completed"
  const COOLDOWN := "cooldown"
  const INDETERMINATE := "indeterminate_claim"
  const INTERRUPTED := "interrupted_before_activation"

  // ---- Queries ------------------------------------------------------------------

  /** The row with this key, or -1. */
  function FindClaim(claims: seq<ClaimRow>, key: string): (i: int)
    ensures -1 <= i < |claims|
    ensures i >= 0 ==> claims[i].key == key
    ensures i < 0 ==> forall j :: 0 <= j < |claims| ==> claims[j].key != key
  {
    if claims == [] then -1
    else if claims[|claims| - 1].key == key then |claims| - 1
    else FindClaim(claims[..|claims| - 1], key)
  }

  function FindEvent(events: seq<GateEvent>, key: string): (i: int)
    ensures -1 <= i < |events|
    ensures i >= 0 ==> events[i].key == Some(key)
    ensures i < 0 ==> forall j :: 0 <= j < |events| ==> events[j].key != Some(key)
  {
    if events == [] then -1
    else if events[|events| - 1].key == Some(key) then |events| - 1
    else FindEvent(events[..|events| - 1], key)
  }

  predicate HasOutbox(outbox: seq<OutboxRow>, eventId: nat) {
    exists i :: 0 <= i < |outbox| && outbox[i].eventId == eventId
  }

  /** A retained marker of a known boot. */
  predicate KnownMarker(r: ClaimRow) {
    r.marker.Some? && r.marker.value.boot.Some?
  }

  /** `ORDER BY activation_attempt_at DESC LIMIT 1` over the markers of known boots, or -1. */
  function LatestKnown(claims: seq<ClaimRow>): (i: int)
    ensures -1 <= i < |claims|
    ensures i < 0 ==> forall j :: 0 <= j < |claims| ==> !KnownMarker(claims[j])
    ensures i >= 0 ==> KnownMarker(claims[i])
    ensures i >= 0 ==> forall j :: 0 <= j < |claims| && KnownMarker(claims[j]) ==>
                                     claims[j].marker.value.at <= claims[i].marker.value.at
  {
    if claims == [] then -1 else
    var i := LatestKnown(claims[..|claims| - 1]);
    var last := claims[|claims| - 1];
    if KnownMarker(last) && (i < 0 || claims[i].marker.value.at <= last.marker.value.at) then |claims| - 1 else i
  }

  predicate OpenedAtOrAfter(e: GateEvent, cutoff: int) {
    (e.relayActivatedAt.Some? && e.relayActivatedAt.value >= cutoff)
    || (e.gateOpened && e.relayActivatedAt.None? && e.receivedAt >= cutoff)
  }

  predicate SameBootAttempt(r: ClaimRow, boot: nat, monoCutoff: real) {
    r.marker.Some? && r.marker.value.boot == Some(boot) && r.marker.value.mono >= monoCutoff
  }

  predicate AttemptAtOrAfter(r: ClaimRow, cutoff: int) {
    r.marker.Some? && r.marker.value.at >= cutoff
  }

  /** `_was_opened_since` */
  predicate WasOpenedSince(db: Db, cutoff: int, monoCutoff: Option<real>, boot: Option<nat>) {
    (monoCutoff.Some? && boot.Some?
     && ((exists i :: 0 <= i < |db.claims| && SameBootAttempt(db.claims[i], boot.value, monoCutoff.value))
         || var latest := LatestKnown(db.claims);
            latest >= 0 && db.claims[latest].marker.value.boot != boot && monoCutoff.value < 0.0))
    || (exists i :: 0 <= i < |db.events| && OpenedAtOrAfter(db.events[i], cutoff))
    || (exists i :: 0 <= i < |db.claims| && AttemptAtOrAfter(db.claims[i], cutoff))
  }

  /** A terminal outcome: status, detail and event id of a finalized claim. */
  datatype Terminal = Terminal(status: string, detail: Option<string>, eventId: Option<nat>)

  function TerminalOutcome(db: Db, key: string): Option<Terminal> {
    var i := FindClaim(db.claims, key);
    if i < 0 || !db.claims[i].finalized then None
    else Some(Terminal(db.claims[i].status, db.claims[i].detail, db.claims[i].eventId))
  }

  // ---- Transactions -----------------------------------------------------------------

  function InsertEvent(db: Db, e: GateEvent): Option<(Db, nat)> {
    if e.key.Some? && FindEvent(db.events, e.key.value) >= 0 then None
    else Some((db.(events := db.events + [e]), |db.events|))
  }

  /** INSERT OR IGNORE under the one-row-per-event index. */
  function EnsureOutbox(db: Db, eventId: nat, payload: Option<Payload>): Db {
    if payload.None? || HasOutbox(db.outbox, eventId) then db
    else db.(outbox := db.outbox + [OutboxRow(eventId, payload.value,
                                              if payload.value.awaitTelemetry then AwaitingTelemetry
                                              else Ready, false)])
  }

  /** On conflict the creation time stays and the outcome is replaced. */
  function EnsureAck(db: Db, ack: Option<CommandAck>, status: string, detail: Option<string>): Db {
    if ack.None? then db else
    var created := if ack.value.0 in db.acks then db.acks[ack.value.0].createdAt else ack.value.1;
    db.(acks := db.acks[ack.value.0 := Ack(status, detail, created)])
  }

  function PendingOf(e: GateEvent, payload: Option<Payload>, ack: Option<CommandAck>): Pending {
    Decodable(e.(gateOpened := false, relayActivatedAt := None), payload, ack)
  }

  datatype Cutoff = Cutoff(wall: int, mono: real, boot: Option<nat>)

  datatype ClaimResult = Claimed(id: nat) | InCooldown | Indeterminate | DuplicateEvent

  function ClaimTx(db: Db, key: string, at: int, cutoff: Option<Cutoff>,
                   pending: Option<Pending>): (r: (Db, ClaimResult))
    ensures r.1.Claimed? ==>
              && r.1.id == |db.claims|
              && r.0 == db.(claims := db.claims + [ClaimRow(key, at, false, None, "", None, None, pending)])
    ensures !r.1.Claimed? ==> r.0 == db
  {
    var i := FindClaim(db.claims, key);
    if i >= 0 then (db, if db.claims[i].finalized then DuplicateEvent else Indeterminate)
    else if cutoff.Some? && WasOpenedSince(db, cutoff.value.wall, Some(cutoff.value.mono), cutoff.value.boot)
    then (db, InCooldown)
    else (db.(claims := db.claims + [ClaimRow(key, at, false, None, "", None, None, pending)]), Claimed(|db.claims|))
  }

  function MarkTx(db: Db, id: nat, m: Marker, pending: Pending): Option<Db> {
    if id < |db.claims| && !db.claims[id].finalized && db.claims[id].marker.None?
    then Some(db.(claims := db.claims[id := db.claims[id].(marker := Some(m), pending := Some(pending))]))
    else None
  }

  function FinalRow(r: ClaimRow, eventId: nat, status: string, detail: Option<string>, keepAttempt: bool): ClaimRow {
    r.(finalized := true, eventId := Some(eventId), status := status, detail := detail,
    marker := if keepAttempt then r.marker else None, pending := None)
  }

  function FinalizeTx(db: Db, id: nat, e: GateEvent, status: string, detail: Option<string>,
                      payload: Option<Payload>, ack: Option<CommandAck>, retain: bool): Option<(Db, nat)> {
    if id >= |db.claims| || db.claims[id].finalized || e.key != Some(db.claims[id].key) then None else
    match InsertEvent(db, e)
    case None => None
    case Some((db1, eventId)) =>
      var db2 := EnsureAck(EnsureOutbox(db1, eventId, payload), ack, status, detail);
      var row := FinalRow(db2.claims[id], eventId, status, detail, retain && status != EXPIRED);
      Some((db2.(claims := db2.claims[id := row]), eventId))
  }

  /** `record_terminal_outcome` for an event with a key. */
  function RecordTerminalTx(db: Db, e: GateEvent, key: string, status: string, detail: Option<string>,
                            payload: Option<Payload>, ack: Option<CommandAck>): Option<(Db, Option<nat>)> {
    var i := FindClaim(db.claims, key);
    if i >= 0 then
      var eventId := db.claims[i].eventId;
      Some((EnsureAck(if eventId.Some? then EnsureOutbox(db, eventId.value, payload) else db, ack, status, detail),
            eventId))
    else match InsertEvent(db, e)
         case None => None
         case Some((db1, eventId)) =>
           var db2 := EnsureAck(EnsureOutbox(db1, eventId, payload), ack, status, detail);
           var at := if e.decisionAt.Some? then e.decisionAt.value else e.receivedAt;
           Some((db2.(claims := db2.claims + [ClaimRow(key, at, true, Some(eventId), status, detail, None, None)]),
                 Some(eventId)))
  }

  /** `record_event_with_outbox`: an event whose key is already known keeps its first row. */
  function RecordEventTx(db: Db, e: GateEvent, payload: Option<Payload>): (Db, nat) {
    match InsertEvent(db, e)
    case Some((db1, eventId)) => (EnsureOutbox(db1, eventId, payload), eventId)
    case None => (EnsureOutbox(db, FindEvent(db.events, e.key.value), payload), FindEvent(db.events, e.key.value))
  }

  // ---- Recovery -----------------------------------------------------------------------

  predicate Recoverable(r: ClaimRow) {
    !r.finalized && r.pending.Some? && r.pending.value.Decodable?
  }

  function RecoveryReason(r: ClaimRow): string {
    if r.marker.Some? then INDETERMINATE else INTERRUPTED
  }

  function RecoveredEvent(r: ClaimRow): GateEvent
    requires Recoverable(r)
  {
    r.pending.value.event.(reason := RecoveryReason(r), gateOpened := false, relayActivatedAt := None)
  }

  function RecoverRow(db: Db, i: nat): (r: Db)
    requires i < |db.claims|
    ensures |r.claims| == |db.claims|
  {
    var row := db.claims[i];
    if !Recoverable(row) then db else
    var (db1, eventId) := RecordEventTx(db, RecoveredEvent(row), row.pending.value.payload);
    var db2 := EnsureAck(db1, row.pending.value.ack, FAILED, Some(RecoveryReason(row)));
    db2.(claims := db2.claims[i := FinalRow(row, eventId, FAILED, Some(RecoveryReason(row)), true)])
  }

  function RecoverFrom(db: Db, i: nat): (r: Db)
    requires i <= |db.claims|
    ensures |r.claims| == |db.claims|
    decreases |db.claims| - i
  {
    if i == |db.claims| then db else RecoverFrom(RecoverRow(db, i), i + 1)
  }

  function ReleaseAwaiting(outbox: seq<OutboxRow>): seq<OutboxRow> {
    seq(|outbox|, i requires 0 <= i < |outbox| =>
      if !outbox[i].completed && outbox[i].state == AwaitingTelemetry then outbox[i].(state := Ready) else outbox[i])
  }

  /** `_recover_interrupted_actuations` */
  function RecoverTx(db: Db): Db {
    var r := RecoverFrom(db, 0);
    r.(outbox := ReleaseAwaiting(r.outbox))
  }

  // ---- The store ------------------------------------------------------------------------

  class LocalStore {
    var claims: seq<ClaimRow>
    var events: seq<GateEvent>
    var outbox: seq<OutboxRow>
    var acks: map<string, Ack>

    function Tables(): Db
      reads this
    {
      Db(claims, events, outbox, acks)
    }

    constructor (db: Db)
      ensures Tables() == db
    {
      claims, events, outbox, acks := db.claims, db.events, db.outbox, db.acks;
    }

    method EnsureOutboxRow(eventId: nat, payload: Option<Payload>)
      modifies this
      ensures Tables() == EnsureOutbox(old(Tables()), eventId, payload)
    {
      if payload.Some? && !HasOutbox(outbox, eventId) {
        var state := if payload.value.awaitTelemetry then AwaitingTelemetry else Ready;
        outbox := outbox + [OutboxRow(eventId, payload.value, state, false)];
      }
    }

    method EnsureCommandAck(ack: Option<CommandAck>, status: string, detail: Option<string>)
      modifies this
      ensures Tables() == EnsureAck(old(Tables()), ack, status, detail)
    {
      if ack.Some? {
        var created := if ack.value.0 in acks then acks[ack.value.0].createdAt else ack.value.1;
        acks := acks[ack.value.0 := Ack(status, detail, created)];
      }
    }

    method ClaimActuation(key: string, at: int, cutoff: Option<Cutoff>, pending: Option<Pending>, fault: Fault)
      returns (r: Result<ClaimResult, ()>)
      modifies this
      ensures Tables() == if fault == RaisesBefore then old(Tables())
                          else ClaimTx(old(Tables()), key, at, cutoff, pending).0
      ensures r == if fault == Fine then Ok(ClaimTx(old(Tables()), key, at, cutoff, pending).1) else Err(())
    {
      if fault == RaisesBefore { return Err(()); }
      var existing := FindClaim(claims, key);
      var answer;
      if existing >= 0 {
        answer := if claims[existing].finalized then DuplicateEvent else Indeterminate;
      } else if cutoff.Some? && WasOpenedSince(Tables(), cutoff.value.wall, Some(cutoff.value.mono),
                                               cutoff.value.boot) {
        answer := InCooldown;
      } else {
        answer := Claimed(|claims|);
        claims := claims + [ClaimRow(key, at, false, None, "", None, None, pending)];
      }
      r := if fault == Fine then Ok(answer) else Err(());
    }

    method MarkActuationAttempt(id: nat, m: Marker, pending: Pending, fault: Fault) returns (r: Result<(), ()>)
      modifies this
      ensures var done := MarkTx(old(Tables()), id, m, pending);
              && Tables() == (if fault == RaisesBefore || done.None? then old(Tables()) else done.value)
              && r.Ok? == (fault == Fine && done.Some?)
    {
      if fault == RaisesBefore || id >= |claims| || claims[id].finalized || claims[id].marker.Some? {
        return Err(());
      }
      claims := claims[id := claims[id].(marker := Some(m), pending := Some(pending))];
      r := if fault == Fine then Ok(()) else Err(());
    }

    /** The event row with its outbox row and acknowledgement. */
    method InsertTerminalEvent(e: GateEvent, status: string, detail: Option<string>, payload: Option<Payload>,
                               ack: Option<CommandAck>)
      returns (eventId: nat)
      modifies this
      ensures eventId == |old(events)|
      ensures Tables() == EnsureAck(EnsureOutbox(old(Tables()).(events := old(events) + [e]), eventId, payload), ack,
                                    status, detail)
    {
      eventId := |events|;
      events := events + [e];
      EnsureOutboxRow(eventId, payload);
      EnsureCommandAck(ack, status, detail);
    }

    method FinalizeActuation(id: nat, e: GateEvent, status: string, detail: Option<string>,
                             payload: Option<Payload>, ack: Option<CommandAck>, retain: bool, fault: Fault)
      returns (r: Result<nat, ()>)
      modifies this
      ensures var done := FinalizeTx(old(Tables()), id, e, status, detail, payload, ack, retain);
              && Tables() == (if fault == RaisesBefore || done.None? then old(Tables()) else done.value.0)
              && r == (if fault == Fine && done.Some? then Ok(done.value.1) else Err(()))
    {
      if fault == RaisesBefore || id >= |claims| || claims[id].finalized || e.key != Some(claims[id].key)
         || (e.key.Some? && FindEvent(events, e.key.value) >= 0) {
        return Err(());
      }
      var eventId := InsertTerminalEvent(e, status, detail, payload, ack);
      claims := claims[id := FinalRow(claims[id], eventId, status, detail, retain && status != EXPIRED)];
      r := if fault == Fine then Ok(eventId) else Err(());
    }

    method RecordTerminalOutcome(e: GateEvent, key: string, status: string, detail: Option<string>,
                                 payload: Option<Payload>, ack: Option<CommandAck>, fault: Fault)
      returns (r: Result<Option<nat>, ()>)
      modifies this
      ensures var done := RecordTerminalTx(old(Tables()), e, key, status, detail, payload, ack);
              && Tables() == (if fault == RaisesBefore || done.None? then old(Tables()) else done.value.0)
              && r == (if fault == Fine && done.Some? then Ok(done.value.1) else Err(()))
    {
      if fault == RaisesBefore { return Err(()); }
      var i := FindClaim(claims, key);
      var eventId: Option<nat> := None;
      if i >= 0 {
        eventId := claims[i].eventId;
        if eventId.Some? { EnsureOutboxRow(eventId.value, payload); }
        EnsureCommandAck(ack, status, detail);
      } else {
        if e.key.Some? && FindEvent(events, e.key.value) >= 0 { return Err(()); }
        var inserted := InsertTerminalEvent(e, status, detail, payload, ack);
        eventId := Some(inserted);
        var at := if e.decisionAt.Some? then e.decisionAt.value else e.receivedAt;
        claims := claims + [ClaimRow(key, at, true, eventId, status, detail, None, None)];
      }
      r := if fault == Fine then Ok(eventId) else Err(());
    }

    method RecordEventWithOutbox(e: GateEvent, payload: Option<Payload>) returns (eventId: nat)
      modifies this
      ensures (Tables(), eventId) == RecordEventTx(old(Tables()), e, payload)
    {
      var known := if e.key.Some? then FindEvent(events, e.key.value) else -1;
      if known >= 0 {
        eventId := known;
      } else {
        eventId := |events|;
        events := events + [e];
      }
      EnsureOutboxRow(eventId, payload);
    }

    /** Recovery of one claim row. */
    method RecoverClaim(i: nat)
      requires i < |claims|
      modifies this
      ensures Tables() == RecoverRow(old(Tables()), i)
    {
      var row := claims[i];
      if Recoverable(row) {
        var eventId := RecordEventWithOutbox(RecoveredEvent(row), row.pending.value.payload);
        EnsureCommandAck(row.pending.value.ack, FAILED, Some(RecoveryReason(row)));
        claims := claims[i := FinalRow(row, eventId, FAILED, Some(RecoveryReason(row)), true)];
      }
    }

    /** Startup recovery: the loop over interrupted claims, then the release of awaiting rows. */
    method RecoverInterruptedActuations() returns (recovered: nat)
      modifies this
      ensures Tables() == RecoverTx(old(Tables()))
      ensures recovered == RecoverableCount(old(claims))
    {
      recovered := 0;
      var rows := claims;
      for i := 0 to |rows|
        invariant |claims| == |rows| && forall j :: i <= j < |rows| ==> claims[j] == rows[j]
        invariant RecoverFrom(old(Tables()), 0) == RecoverFrom(Tables(), i)
        invariant recovered == RecoverableCount(rows[..i])
      {
        assert rows[..i + 1][..i] == rows[..i];
        RecoverClaim(i);
        if Recoverable(rows[i]) {
          recovered := recovered + 1;
        }
      }
      assert rows[..|rows|] == rows;
      outbox := ReleaseAwaiting(outbox);
    }
  }

  function RecoverableCount(rows: seq<ClaimRow>): nat {
    if rows == [] then 0 else RecoverableCount(rows[..|rows| - 1]) + if Recoverable(rows[|rows| - 1]) then 1 else 0
  }

  // ---- What recovery leaves ---------------------------------------------------------------

  /** Rows are kept in place; a finalized row does not change and a marker is not touched. */
  ghost predicate Settles(db: Db, r: Db) {
    && |r.claims| == |db.claims| && |db.events| <= |r.events| && r.events[..|db.events|] == db.events
    && (forall j :: 0 <= j < |db.claims| ==> r.claims[j].key == db.claims[j].key
                                             && r.claims[j].marker == db.claims[j].marker)
    && (forall j :: 0 <= j < |db.claims| && db.claims[j].finalized ==> r.claims[j] == db.claims[j])
    && (forall e :: |db.events| <= e < |r.events| ==> !r.events[e].gateOpened && r.events[e].relayActivatedAt.None?)
  }

  lemma RecoverRowSettles(db: Db, i: nat)
    requires i < |db.claims|
    ensures Settles(db, RecoverRow(db, i))
    ensures !Recoverable(RecoverRow(db, i).claims[i])
    ensures forall j :: 0 <= j < |db.claims| && j != i ==> RecoverRow(db, i).claims[j] == db.claims[j]
    ensures Recoverable(db.claims[i]) ==> RecoverRow(db, i).claims[i].finalized
    ensures !Recoverable(db.claims[i]) ==> RecoverRow(db, i).claims[i] == db.claims[i]
  {
  }

  lemma {:induction false} RecoverFromSettles(db: Db, i: nat)
    requires i <= |db.claims|
    ensures Settles(db, RecoverFrom(db, i))
    ensures forall j :: 0 <= j < i ==> RecoverFrom(db, i).claims[j] == db.claims[j]
    ensures forall j :: i <= j < |db.claims| ==>
                          !Recoverable(RecoverFrom(db, i).claims[j])
                          && (if Recoverable(db.claims[j]) then RecoverFrom(db, i).claims[j].finalized
                              else RecoverFrom(db, i).claims[j] == db.claims[j])
    decreases |db.claims| - i
  {
    if i < |db.claims| {
      RecoverRowSettles(db, i);
      var next := RecoverRow(db, i);
      RecoverFromSettles(next, i + 1);
      var r := RecoverFrom(next, i + 1);
      assert r.events[..|db.events|] == r.events[..|next.events|][..|db.events|];
    }
  }

  /**
   Recovery finalizes every decodable pending claim and nothing else, keeps every marker and every
   finalized row, records only events that did not open the gate, and leaves no row awaiting telemetry.
   */
  lemma RecoverySettles(db: Db)
    ensures Settles(db, RecoverTx(db))
    ensures forall j :: 0 <= j < |db.claims| ==>
                          !Recoverable(RecoverTx(db).claims[j])
                          && (Recoverable(db.claims[j]) ==> RecoverTx(db).claims[j].finalized)
                          && (!Recoverable(db.claims[j]) ==> RecoverTx(db).claims[j] == db.claims[j])
    ensures forall k :: 0 <= k < |RecoverTx(db).outbox| ==>
                          RecoverTx(db).outbox[k].completed || RecoverTx(db).outbox[k].state != AwaitingTelemetry
  {
    RecoverFromSettles(db, 0);
  }

  lemma {:induction false} NothingToRecover(db: Db, i: nat)
    requires i <= |db.claims| && forall j :: 0 <= j < |db.claims| ==> !Recoverable(db.claims[j])
    ensures RecoverFrom(db, i) == db
    decreases |db.claims| - i
  {
    if i < |db.claims| {
      NothingToRecover(db, i + 1);
    }
  }

  /** Recovering twice is recovering once. */
  lemma RecoverTwice(db: Db)
    ensures RecoverTx(RecoverTx(db)) == RecoverTx(db)
  {
    RecoverySettles(db);
    var r := RecoverTx(db);
    NothingToRecover(r, 0);
    assert ReleaseAwaiting(r.outbox) == r.outbox;
  }
}
