/** What the transactions write, field by field: the event, the outbox row, the acknowledgement and the claim row. */
module StoreMeaning {
  import opened Prelude
  import opened Store

  /** No outbox row is lost or given to another event; payloads and completions stay. */
  ghost predicate OutboxKept(before: seq<OutboxRow>, after: seq<OutboxRow>) {
    && |before| <= |after|
    && forall k :: 0 <= k < |before| ==>
                     && after[k].eventId == before[k].eventId && after[k].payload == before[k].payload
                     && after[k].completed == before[k].completed
  }

  ghost predicate QueuedAt(before: seq<OutboxRow>, after: seq<OutboxRow>, k: nat, id: nat, payload: Payload) {
    && k < |after| && after[k].eventId == id
    && (k >= |before| ==> after[k].payload == payload && !after[k].completed)
  }

  /** With a payload, the event has an outbox row: the one it had, or a new one that holds the payload. */
  ghost predicate Queued(before: seq<OutboxRow>, after: seq<OutboxRow>, id: nat, payload: Option<Payload>) {
    payload.Some? ==> exists k: nat :: QueuedAt(before, after, k, id, payload.value)
  }

  ghost predicate Acknowledged(acks: map<string, Ack>, ack: Option<CommandAck>, status: string,
                               detail: Option<string>) {
    ack.Some? ==> ack.value.0 in acks && acks[ack.value.0].status == status && acks[ack.value.0].detail == detail
  }

  ghost predicate HasKey(events: seq<GateEvent>, key: Option<string>) {
    key.Some? && exists k :: 0 <= k < |events| && events[k].key == key
  }

  lemma OutboxMeaning(db: Db, id: nat, payload: Option<Payload>)
    ensures var after := EnsureOutbox(db, id, payload);
            && after == db.(outbox := after.outbox) && OutboxKept(db.outbox, after.outbox)
            && Queued(db.outbox, after.outbox, id, payload)
            && (payload.None? ==> after.outbox == db.outbox)
            && forall k :: |db.outbox| <= k < |after.outbox| ==>
                             (after.outbox[k].state == AwaitingTelemetry <==> payload.value.awaitTelemetry)
                             && (after.outbox[k].state == Ready <==> !payload.value.awaitTelemetry)
  {
    var after := EnsureOutbox(db, id, payload).outbox;
    if payload.Some? {
      if HasOutbox(db.outbox, id) {
        var k :| 0 <= k < |db.outbox| && db.outbox[k].eventId == id;
        assert QueuedAt(db.outbox, after, k, id, payload.value);
      } else {
        assert QueuedAt(db.outbox, after, |db.outbox|, id, payload.value);
      }
    }
  }

  lemma AckMeaning(db: Db, ack: Option<CommandAck>, status: string, detail: Option<string>)
    ensures var after := EnsureAck(db, ack, status, detail);
            && after == db.(acks := after.acks) && Acknowledged(after.acks, ack, status, detail)
            && (forall id :: id in after.acks && (ack.None? || id != ack.value.0) ==>
                               id in db.acks && after.acks[id] == db.acks[id])
            && (forall id :: id in db.acks ==> id in after.acks && after.acks[id].createdAt == db.acks[id].createdAt)
  {
  }

  /** An event with a known key keeps its first row; another one is stored as it is. */
  lemma RecordEventMeaning(db: Db, e: GateEvent, payload: Option<Payload>)
    ensures var (after, id) := RecordEventTx(db, e, payload);
            && id < |after.events| && after.events[id].key == e.key && after.claims == db.claims
            && after.acks == db.acks
            && (if HasKey(db.events, e.key) then after.events == db.events
                else id == |db.events| && after.events == db.events + [e])
            && OutboxKept(db.outbox, after.outbox) && Queued(db.outbox, after.outbox, id, payload)
  {
    if InsertEvent(db, e).Some? {
      OutboxMeaning(InsertEvent(db, e).value.0, |db.events|, payload);
    } else {
      OutboxMeaning(db, FindEvent(db.events, e.key.value), payload);
    }
  }

  /** A refusal is recorded with its event, its outbox row, its acknowledgement and a finalized claim. */
  lemma RecordTerminalMeaning(db: Db, e: GateEvent, key: string, status: string, detail: Option<string>,
                              payload: Option<Payload>, ack: Option<CommandAck>)
    requires forall i :: 0 <= i < |db.claims| ==> db.claims[i].key != key
    ensures var done := RecordTerminalTx(db, e, key, status, detail, payload, ack);
            && (done.None? <==> HasKey(db.events, e.key))
            && (done.Some? ==>
                  var after := done.value.0;
                  && done.value.1 == Some(|db.events|) && after.events == db.events + [e]
                  && OutboxKept(db.outbox, after.outbox) && Queued(db.outbox, after.outbox, |db.events|, payload)
                  && Acknowledged(after.acks, ack, status, detail)
                  && |after.claims| == |db.claims| + 1 && after.claims[..|db.claims|] == db.claims
                  && var row := after.claims[|db.claims|];
                  && row.key == key && row.finalized && row.eventId == Some(|db.events|)
                  && row.status == status && row.detail == detail && row.marker.None?)
  {
    if InsertEvent(db, e).Some? {
      var db1 := InsertEvent(db, e).value.0;
      OutboxMeaning(db1, |db.events|, payload);
      AckMeaning(EnsureOutbox(db1, |db.events|, payload), ack, status, detail);
    }
  }

  /** A refusal of a key that has a claim keeps claim and events; it queues the claim's event and acknowledges. */
  lemma RecordTerminalAgain(db: Db, e: GateEvent, i: nat, status: string, detail: Option<string>,
                            payload: Option<Payload>, ack: Option<CommandAck>)
    requires i < |db.claims| && forall j :: 0 <= j < |db.claims| && j != i ==> db.claims[j].key != db.claims[i].key
    ensures var done := RecordTerminalTx(db, e, db.claims[i].key, status, detail, payload, ack);
            && done.Some? && done.value.1 == db.claims[i].eventId
            && var after := done.value.0;
            && after.claims == db.claims && after.events == db.events && OutboxKept(db.outbox, after.outbox)
            && (db.claims[i].eventId.Some? ==> Queued(db.outbox, after.outbox, db.claims[i].eventId.value, payload))
            && (db.claims[i].eventId.None? ==> after.outbox == db.outbox)
            && Acknowledged(after.acks, ack, status, detail)
  {
    var eventId := db.claims[i].eventId;
    var queued := if eventId.Some? then EnsureOutbox(db, eventId.value, payload) else db;
    if eventId.Some? {
      OutboxMeaning(db, eventId.value, payload);
    }
    AckMeaning(queued, ack, status, detail);
  }

  /** Finalizing an open claim stores the event as given, queues it, acknowledges the command and closes the row. */
  lemma FinalizeMeaning(db: Db, id: nat, e: GateEvent, status: string, detail: Option<string>,
                        payload: Option<Payload>, ack: Option<CommandAck>, retain: bool)
    ensures var done := FinalizeTx(db, id, e, status, detail, payload, ack, retain);
            && (done.Some? <==>
                && id < |db.claims| && !db.claims[id].finalized && e.key == Some(db.claims[id].key)
                && !HasKey(db.events, e.key))
            && (done.Some? ==>
                  var after := done.value.0;
                  && done.value.1 == |db.events| && after.events == db.events + [e]
                  && OutboxKept(db.outbox, after.outbox) && Queued(db.outbox, after.outbox, |db.events|, payload)
                  && Acknowledged(after.acks, ack, status, detail)
                  && |after.claims| == |db.claims|
                  && (forall j :: 0 <= j < |db.claims| && j != id ==> after.claims[j] == db.claims[j])
                  && var row := after.claims[id];
                  && row.key == db.claims[id].key && row.finalized && row.eventId == Some(|db.events|)
                  && row.status == status && row.detail == detail
                  && row.marker == if retain && status != "expired" then db.claims[id].marker else None)
  {
    if FinalizeTx(db, id, e, status, detail, payload, ack, retain).Some? {
      var db1 := InsertEvent(db, e).value.0;
      OutboxMeaning(db1, |db.events|, payload);
      AckMeaning(EnsureOutbox(db1, |db.events|, payload), ack, status, detail);
    }
  }

  // ---- Recovery ---------------------------------------------------------------------------

  /** `indeterminate_claim` when the marker says that the relay may have been energised. */
  function ReasonFor(row: ClaimRow): string {
    if row.marker.Some? then "indeterminate_claim" else "interrupted_before_activation"
  }

  predicate SameCommand(a: ClaimRow, b: ClaimRow) {
    && a.pending.Some? && a.pending.value.Decodable? && b.pending.Some? && b.pending.value.Decodable?
    && a.pending.value.ack.Some? && b.pending.value.ack.Some?
    && a.pending.value.ack.value.0 == b.pending.value.ack.value.0
  }

  /** The event that recovery records for the pending event `p`. */
  ghost predicate AuditEvent(p: GateEvent, e: GateEvent, reason: string) {
    && e.reason == reason && !e.gateOpened && e.relayActivatedAt.None? && e.source == p.source && e.key == p.key
    && e.receivedAt == p.receivedAt && e.decisionAt == p.decisionAt && e.recognition == p.recognition
  }

  /** Claim `i` was recovered from `db` into `r`: its row, its event, its outbox row. */
  ghost predicate RecoveredAs(db: Db, r: Db, i: nat)
    requires i < |db.claims| && Recoverable(db.claims[i])
  {
    var row := db.claims[i];
    var p := row.pending.value;
    && i < |r.claims| && r.claims[i].key == row.key && r.claims[i].marker == row.marker
    && r.claims[i].finalized && r.claims[i].status == "failed" && r.claims[i].detail == Some(ReasonFor(row))
    && r.claims[i].eventId.Some? && r.claims[i].eventId.value < |r.events|
    && var id := r.claims[i].eventId.value;
    && r.events[id].key == p.event.key && (id < |db.events| <==> HasKey(db.events, p.event.key))
    && (id >= |db.events| ==> AuditEvent(p.event, r.events[id], ReasonFor(row)))
    && Queued(db.outbox, r.outbox, id, p.payload)
  }

  /** The command of claim `i` is acknowledged as failed, with the reason of the last claim recovered for it. */
  ghost predicate CommandFailed(db: Db, r: Db, i: nat)
    requires i < |db.claims| && Recoverable(db.claims[i])
  {
    var ack := db.claims[i].pending.value.ack;
    ack.Some? ==>
      && ack.value.0 in r.acks && r.acks[ack.value.0].status == "failed"
      && ((forall j :: i < j < |db.claims| && Recoverable(db.claims[j]) ==>
                         !SameCommand(db.claims[i], db.claims[j])) ==>
            r.acks[ack.value.0].detail == Some(ReasonFor(db.claims[i])))
  }

  /** No two recoverable claims wait for the same event. */
  ghost predicate PendingDistinct(claims: seq<ClaimRow>) {
    forall i, j :: 0 <= i < j < |claims| && Recoverable(claims[i]) && Recoverable(claims[j])
                   && claims[i].pending.value.event.key.Some? ==>
                     claims[i].pending.value.event.key != claims[j].pending.value.event.key
  }

  ghost predicate IsPendingKey(r: ClaimRow, key: Option<string>) {
    Recoverable(r) && r.pending.value.event.key == key
  }

  /** An event that recovery of the first `i` claims may have recorded or queued. */
  ghost predicate OfEarlier(claims: seq<ClaimRow>, i: nat, key: Option<string>) {
    key.None? || exists j :: 0 <= j < i <= |claims| && IsPendingKey(claims[j], key)
  }

  lemma NotOfEarlier(claims: seq<ClaimRow>, i: nat)
    requires i < |claims| && Recoverable(claims[i]) && PendingDistinct(claims)
             && claims[i].pending.value.event.key.Some?
    ensures !OfEarlier(claims, i, claims[i].pending.value.event.key)
  {
  }

  lemma OfEarlierGrows(claims: seq<ClaimRow>, i: nat)
    requires i < |claims|
    ensures forall key :: OfEarlier(claims, i, key) ==> OfEarlier(claims, i + 1, key)
    ensures Recoverable(claims[i]) ==> OfEarlier(claims, i + 1, claims[i].pending.value.event.key)
  {
    forall key | OfEarlier(claims, i, key)
      ensures OfEarlier(claims, i + 1, key)
    {
      if key.Some? {
        var j :| 0 <= j < i && IsPendingKey(claims[j], key);
        assert j < i + 1;
      }
    }
    if Recoverable(claims[i]) {
      assert IsPendingKey(claims[i], claims[i].pending.value.event.key);
    }
  }

  /** `db` is `origin` with its first `i` claims recovered. */
  ghost predicate Halfway(origin: Db, db: Db, i: nat) {
    && i <= |origin.claims| == |db.claims| && (forall j :: i <= j < |db.claims| ==> db.claims[j] == origin.claims[j])
    && |origin.events| <= |db.events| && db.events[..|origin.events|] == origin.events
    && (forall e :: |origin.events| <= e < |db.events| ==> OfEarlier(origin.claims, i, db.events[e].key))
    && OutboxKept(origin.outbox, db.outbox)
    && (forall k :: |origin.outbox| <= k < |db.outbox| ==>
                      db.outbox[k].eventId < |db.events|
                      && OfEarlier(origin.claims, i, db.events[db.outbox[k].eventId].key))
  }

  lemma RecoverRowMeans(db: Db, i: nat)
    requires i < |db.claims| && Recoverable(db.claims[i])
    ensures RecoveredAs(db, RecoverRow(db, i), i)
    ensures Acknowledged(RecoverRow(db, i).acks, db.claims[i].pending.value.ack, "failed",
                         Some(ReasonFor(db.claims[i])))
    ensures OutboxKept(db.outbox, RecoverRow(db, i).outbox)
    ensures forall k :: |db.outbox| <= k < |RecoverRow(db, i).outbox| ==>
                          Some(RecoverRow(db, i).outbox[k].eventId) == RecoverRow(db, i).claims[i].eventId
  {
    var row := db.claims[i];
    var e, p := RecoveredEvent(row), row.pending.value;
    RecordEventMeaning(db, e, p.payload);
    AckMeaning(RecordEventTx(db, e, p.payload).0, p.ack, FAILED, Some(RecoveryReason(row)));
  }

  lemma HalfwayStep(origin: Db, db: Db, i: nat)
    requires Halfway(origin, db, i) && i < |origin.claims|
    ensures Halfway(origin, RecoverRow(db, i), i + 1)
  {
    RecoverRowSettles(db, i);
    OfEarlierGrows(origin.claims, i);
    var after := RecoverRow(db, i);
    if Recoverable(db.claims[i]) {
      RecoverRowMeans(db, i);
      RecordEventMeaning(db, RecoveredEvent(db.claims[i]), db.claims[i].pending.value.payload);
    }
    assert after.events[..|origin.events|] == after.events[..|db.events|][..|origin.events|];
    assert forall e :: 0 <= e < |db.events| ==> after.events[e] == after.events[..|db.events|][e];
  }

  /** What recovering row `i` of the halfway tables does is what the statement says of the first tables. */
  lemma RecoveredFromOrigin(origin: Db, db: Db, i: nat)
    requires Halfway(origin, db, i) && i < |origin.claims| && Recoverable(origin.claims[i])
             && PendingDistinct(origin.claims)
    ensures RecoveredAs(origin, RecoverRow(db, i), i)
  {
    RecoverRowMeans(db, i);
    var after, row := RecoverRow(db, i), origin.claims[i];
    var id := after.claims[i].eventId.value;
    RecordEventMeaning(db, RecoveredEvent(row), row.pending.value.payload);
    KnownKeys(origin, db, i);
    QueuedFromOrigin(origin, db, i);
  }

  /** The key of a claim not yet recovered has an event exactly when it had one at first, and it is that one. */
  lemma KnownKeys(origin: Db, db: Db, i: nat)
    requires Halfway(origin, db, i) && i < |origin.claims| && Recoverable(origin.claims[i])
             && PendingDistinct(origin.claims)
    ensures var key := origin.claims[i].pending.value.event.key;
            && (HasKey(origin.events, key) <==> HasKey(db.events, key))
            && forall k :: 0 <= k < |db.events| && key.Some? && db.events[k].key == key ==> k < |origin.events|
  {
    var key := origin.claims[i].pending.value.event.key;
    if key.Some? {
      NotOfEarlier(origin.claims, i);
    }
    assert forall k :: 0 <= k < |origin.events| ==> db.events[k] == db.events[..|origin.events|][k];
  }

  lemma QueuedFromOrigin(origin: Db, db: Db, i: nat)
    requires Halfway(origin, db, i) && i < |origin.claims| && Recoverable(origin.claims[i])
             && PendingDistinct(origin.claims)
    ensures var after := RecoverRow(db, i);
            after.claims[i].eventId.Some?
            && Queued(origin.outbox, after.outbox, after.claims[i].eventId.value,
                      origin.claims[i].pending.value.payload)
  {
    RecoverRowMeans(db, i);
    var after, p := RecoverRow(db, i), origin.claims[i].pending.value;
    var id := after.claims[i].eventId.value;
    RecordEventMeaning(db, RecoveredEvent(origin.claims[i]), p.payload);
    if p.event.key.Some? {
      NotOfEarlier(origin.claims, i);
    }
    if p.payload.Some? {
      var k: nat :| QueuedAt(db.outbox, after.outbox, k, id, p.payload.value);
      assert QueuedAt(origin.outbox, after.outbox, k, id, p.payload.value);
    }
  }

  /** A recovered claim stays so while later rows are recovered. */
  lemma RecoveredStays(origin: Db, db: Db, i: nat, j: nat)
    requires i < j < |db.claims| == |origin.claims| && Recoverable(origin.claims[i]) && RecoveredAs(origin, db, i)
    ensures RecoveredAs(origin, RecoverRow(db, j), i)
  {
    RecoverRowSettles(db, j);
    var after, p := RecoverRow(db, j), origin.claims[i].pending.value;
    var id := db.claims[i].eventId.value;
    if Recoverable(db.claims[j]) {
      RecoverRowMeans(db, j);
    }
    assert after.events[id] == after.events[..|db.events|][id];
    if p.payload.Some? {
      var k: nat :| QueuedAt(origin.outbox, db.outbox, k, id, p.payload.value);
      assert QueuedAt(origin.outbox, after.outbox, k, id, p.payload.value);
    }
  }

  lemma {:induction false} RecoveredStaysToEnd(origin: Db, db: Db, i: nat, j: nat)
    requires i < j <= |db.claims| == |origin.claims| && Recoverable(origin.claims[i]) && RecoveredAs(origin, db, i)
    ensures RecoveredAs(origin, RecoverFrom(db, j), i)
    decreases |db.claims| - j
  {
    if j < |db.claims| {
      RecoveredStays(origin, db, i, j);
      RecoveredStaysToEnd(origin, RecoverRow(db, j), i, j + 1);
    }
  }

  lemma {:induction false} RecoverFromMeans(origin: Db, db: Db, i: nat, k: nat)
    requires Halfway(origin, db, i) && PendingDistinct(origin.claims)
    requires i <= k < |origin.claims| && Recoverable(origin.claims[k])
    ensures RecoveredAs(origin, RecoverFrom(db, i), k)
    decreases |origin.claims| - i
  {
    HalfwayStep(origin, db, i);
    if i == k {
      RecoveredFromOrigin(origin, db, i);
      RecoveredStaysToEnd(origin, RecoverRow(db, i), i, i + 1);
    } else {
      RecoverFromMeans(origin, RecoverRow(db, i), i + 1, k);
    }
  }

  // ---- The acknowledgements of recovery -------------------------------------------------------

  /** Recovering a row changes only its own command's acknowledgement, to failed with its reason. */
  lemma RecoverRowAcks(db: Db, i: nat)
    requires i < |db.claims|
    ensures var after := RecoverRow(db, i).acks;
            && (!Recoverable(db.claims[i]) || db.claims[i].pending.value.ack.None? ==> after == db.acks)
            && (Recoverable(db.claims[i]) && db.claims[i].pending.value.ack.Some? ==>
                  var id := db.claims[i].pending.value.ack.value.0;
                  && Acknowledged(after, db.claims[i].pending.value.ack, "failed", Some(ReasonFor(db.claims[i])))
                  && forall other :: other in db.acks && other != id ==>
                                       other in after && after[other] == db.acks[other])
  {
    var row := db.claims[i];
    if Recoverable(row) {
      var recorded := RecordEventTx(db, RecoveredEvent(row), row.pending.value.payload).0;
      RecordEventMeaning(db, RecoveredEvent(row), row.pending.value.payload);
      AckMeaning(recorded, row.pending.value.ack, FAILED, Some(RecoveryReason(row)));
    }
  }

  ghost predicate IsFailed(acks: map<string, Ack>, id: string) {
    id in acks && acks[id].status == "failed"
  }

  predicate ForCommand(row: ClaimRow, id: string) {
    Recoverable(row) && row.pending.value.ack.Some? && row.pending.value.ack.value.0 == id
  }

  /** A failed command stays failed; its detail stays unless a later row is for the same command. */
  lemma {:induction false} AckStays(db: Db, j: nat, id: string)
    requires j <= |db.claims| && IsFailed(db.acks, id)
    ensures IsFailed(RecoverFrom(db, j).acks, id)
    ensures (forall k :: j <= k < |db.claims| ==> !ForCommand(db.claims[k], id)) ==>
              RecoverFrom(db, j).acks[id].detail == db.acks[id].detail
    decreases |db.claims| - j
  {
    if j < |db.claims| {
      RecoverRowAcks(db, j);
      RecoverRowSettles(db, j);
      AckStays(RecoverRow(db, j), j + 1, id);
    }
  }

  lemma {:induction false} CommandsFail(origin: Db, db: Db, i: nat, k: nat)
    requires i <= k < |origin.claims| == |db.claims| && Recoverable(origin.claims[k])
    requires forall j :: i <= j < |db.claims| ==> db.claims[j] == origin.claims[j]
    ensures CommandFailed(origin, RecoverFrom(db, i), k)
    decreases |origin.claims| - i
  {
    RecoverRowSettles(db, i);
    RecoverRowAcks(db, i);
    var after := RecoverRow(db, i);
    if i < k {
      CommandsFail(origin, after, i + 1, k);
    } else if origin.claims[k].pending.value.ack.Some? {
      AckStays(after, i + 1, origin.claims[k].pending.value.ack.value.0);
    }
  }

  /**
   Every recoverable claim: its row is failed with the reason that its marker calls for and names
   an event with the pending event's key, the one that existed or one that records the pending
   event under that reason; the event is queued when there was a payload; and the command is failed.
   */
  lemma RecoveryMeaning(db: Db, i: nat)
    requires i < |db.claims| && Recoverable(db.claims[i]) && PendingDistinct(db.claims)
    ensures RecoveredAs(db, RecoverTx(db), i) && CommandFailed(db, RecoverTx(db), i)
  {
    RecoverFromMeans(db, db, 0, i);
    CommandsFail(db, db, 0, i);
    var r, p := RecoverFrom(db, 0), db.claims[i].pending.value;
    if p.payload.Some? {
      var k: nat :| QueuedAt(db.outbox, r.outbox, k, r.claims[i].eventId.value, p.payload.value);
      assert QueuedAt(db.outbox, RecoverTx(db).outbox, k, r.claims[i].eventId.value, p.payload.value);
    }
  }

  // ---- The outbox of recovery -----------------------------------------------------------------

  /** `after` holds the rows of `before` unchanged, and then unfinished ones that are ready or wait. */
  ghost predicate Lengthened(before: seq<OutboxRow>, after: seq<OutboxRow>) {
    && |before| <= |after| && after[..|before|] == before
    && forall k :: |before| <= k < |after| ==> !after[k].completed
                                               && (after[k].state == Ready || after[k].state == AwaitingTelemetry)
  }

  lemma RecoverRowLengthens(before: seq<OutboxRow>, db: Db, i: nat)
    requires i < |db.claims| && Lengthened(before, db.outbox)
    ensures Lengthened(before, RecoverRow(db, i).outbox)
  {
    if Recoverable(db.claims[i]) {
      var (db1, id) := RecordEventTx(db, RecoveredEvent(db.claims[i]), db.claims[i].pending.value.payload);
      assert RecoverRow(db, i).outbox == db1.outbox;
      assert db1.outbox[..|before|] == db.outbox[..|before|];
    }
  }

  lemma {:induction false} RecoverFromLengthens(before: seq<OutboxRow>, db: Db, i: nat)
    requires i <= |db.claims| && Lengthened(before, db.outbox)
    ensures Lengthened(before, RecoverFrom(db, i).outbox)
    decreases |db.claims| - i
  {
    if i < |db.claims| {
      RecoverRowLengthens(before, db, i);
      RecoverFromLengthens(before, RecoverRow(db, i), i + 1);
    }
  }

  /** Recovery makes every unfinished row that waited for telemetry ready, leaves the others, and queues ready ones. */
  lemma RecoveredOutbox(db: Db)
    ensures var after := RecoverTx(db).outbox;
            && |db.outbox| <= |after|
            && (forall k :: 0 <= k < |db.outbox| ==>
                              after[k] == if !db.outbox[k].completed && db.outbox[k].state == AwaitingTelemetry
                              then db.outbox[k].(state := Ready) else db.outbox[k])
            && forall k :: |db.outbox| <= k < |after| ==> !after[k].completed && after[k].state == Ready
  {
    RecoverFromLengthens(db.outbox, db, 0);
    var r := RecoverFrom(db, 0).outbox;
    assert forall k :: 0 <= k < |db.outbox| ==> r[k] == r[..|db.outbox|][k];
  }
}
