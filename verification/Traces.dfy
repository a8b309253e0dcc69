/** What a stored trace keeps through every delivery rewrite, and how its attempt counter moves. */
module Traces {
  import opened Prelude

  /**
   A telemetry payload. `core` stands for the fields no rewrite touches: taxonomy, frames, OCR
   attempts, decision, actuation and trigger. `stamps` is None when the key is absent.
   */
  datatype Telemetry = Telemetry(traceId: string, core: string, durations: map<string, int>,
                                 stamps: Option<map<string, string>>, attempt: int, state: string)

  const MAX_ATTEMPT := 1000
  const MAX_DURATION := 600000
  const LAG := "delivery_lag_ms"
  const SEND_TO_ACK := "cloud_send_to_ack_ms"
  const ENQUEUED := "cloud_enqueued_at"
  const SEND_STARTED := "cloud_send_started_at"
  const ACKNOWLEDGED := "cloud_acknowledged_at"

  predicate IsCloud(key: string) {
    |key| >= 6 && key[..6] == "cloud_"
  }

  predicate IsDeliveryDuration(key: string) {
    key == LAG || key == SEND_TO_ACK
  }

  function Without<V>(m: map<string, V>, dropped: string -> bool): map<string, V> {
    map key | key in m && !dropped(key) :: m[key]
  }

  function StampsOf(t: Telemetry): map<string, string> {
    if t.stamps.Some? then t.stamps.value else map[]
  }

  /** What `_same_trace` compares: the payload without its delivery fields, and no empty stamps. */
  function Immutable(t: Telemetry): (string, string, map<string, int>, Option<map<string, string>>) {
    var stamps := Without(StampsOf(t), IsCloud);
    (t.traceId, t.core, Without(t.durations, IsDeliveryDuration), if stamps == map[] then None else Some(stamps))
  }

  predicate SameTrace(left: Telemetry, right: Telemetry) {
    Immutable(left) == Immutable(right)
  }

  /** The same entry under `key`, or none in both. */
  ghost predicate Agree<V>(a: map<string, V>, b: map<string, V>, key: string) {
    (key in a <==> key in b) && (key in a && key in b ==> a[key] == b[key])
  }

  lemma WithoutAgree<V>(a: map<string, V>, b: map<string, V>, dropped: string -> bool)
    ensures Without(a, dropped) == Without(b, dropped) <==> forall key :: !dropped(key) ==> Agree(a, b, key)
  {
    var c, d := Without(a, dropped), Without(b, dropped);
    if c == d {
      forall key | !dropped(key)
        ensures Agree(a, b, key)
      {
        assert (key in a <==> key in c) && (key in b <==> key in d);
      }
    }
    if forall key :: !dropped(key) ==> Agree(a, b, key) {
      assert forall key :: !dropped(key) ==> (key in c <==> key in a) && (key in d <==> key in b);
      assert c == d;
    }
  }

  /** Same trace: same id and content, and every duration and stamp agrees except the delivery ones. */
  lemma SameTraceMeaning(left: Telemetry, right: Telemetry)
    ensures SameTrace(left, right) <==>
            && left.traceId == right.traceId && left.core == right.core
            && (forall key :: key != "delivery_lag_ms" && key != "cloud_send_to_ack_ms" ==>
                                Agree(left.durations, right.durations, key))
            && (forall key :: !("cloud_" <= key) ==> Agree(StampsOf(left), StampsOf(right), key))
  {
    WithoutAgree(left.durations, right.durations, IsDeliveryDuration);
    WithoutAgree(StampsOf(left), StampsOf(right), IsCloud);
  }

  // ---- Rewrites -----------------------------------------------------------------------------

  /** `_telemetry_attempt` */
  function Attempt(t: Telemetry): (n: int)
    ensures 0 <= n <= MAX_ATTEMPT
  {
    if t.attempt < 0 then 0 else if t.attempt > MAX_ATTEMPT then MAX_ATTEMPT else t.attempt
  }

  function Put<V>(m: map<string, V>, key: string, value: V): map<string, V> {
    m[key := value]
  }

  /** `setdefault` */
  function PutNew<V>(m: map<string, V>, key: string, value: V): map<string, V> {
    if key in m then m else m[key := value]
  }

  /** `_enrich_outbox_delivery`, when the event has an outbox row. */
  function Enriched(t: Telemetry, createdAt: Option<string>): Telemetry {
    if createdAt.None? then t else t.(stamps := Some(PutNew(StampsOf(t), ENQUEUED, createdAt.value)))
  }

  function Bounded(ms: int): int {
    if ms < 0 then 0 else if ms > MAX_DURATION then MAX_DURATION else ms
  }

  /** The rewrite of `prepare_outbox_attempt`. */
  function Sending(t: Telemetry, queuedAt: string, startedAt: string, lag: int): Telemetry {
    var next := Attempt(t) + 1;
    var stamps := Put(PutNew(StampsOf(t), ENQUEUED, queuedAt), SEND_STARTED, startedAt) - {ACKNOWLEDGED};
    t.(attempt := if next > MAX_ATTEMPT then MAX_ATTEMPT else next, state := "sending",
    stamps := Some(stamps), durations := Put(t.durations, LAG, Bounded(lag)))
  }

  /** The rewrite of `mark_outbox_retry`. */
  function Retrying(t: Telemetry): Telemetry {
    t.(attempt := Attempt(t), state := "retry_pending")
  }

  /** The rewrite of `complete_outbox_item`; `interval` is None when it cannot be computed. */
  function Delivered(t: Telemetry, acknowledgedAt: string, interval: Option<int>): Telemetry {
    t.(attempt := Attempt(t), state := "delivered",
    stamps := Some(Put(StampsOf(t), ACKNOWLEDGED, acknowledgedAt)),
    durations := if interval.None? || interval.value < 0 then t.durations
    else Put(t.durations, SEND_TO_ACK, Bounded(interval.value)))
  }

  lemma PutAgrees<V>(m: map<string, V>, key: string, value: V)
    ensures forall other :: other != key ==> Agree(m, Put(m, key, value), other)
                                             && Agree(m, PutNew(m, key, value), other)
  {
  }

  lemma EnrichedSameTrace(t: Telemetry, createdAt: Option<string>)
    ensures SameTrace(t, Enriched(t, createdAt)) && Attempt(Enriched(t, createdAt)) == Attempt(t)
  {
    assert IsCloud(ENQUEUED);
    if createdAt.Some? {
      PutAgrees(StampsOf(t), ENQUEUED, createdAt.value);
    }
    SameTraceMeaning(t, Enriched(t, createdAt));
  }

  /** Preparing a send keeps the trace and raises the counter by one, up to the bound. */
  lemma SendingSameTrace(t: Telemetry, queuedAt: string, startedAt: string, lag: int)
    ensures var u := Sending(t, queuedAt, startedAt, lag);
            && SameTrace(t, u)
            && Attempt(u) == (if Attempt(t) + 1 > MAX_ATTEMPT then MAX_ATTEMPT else Attempt(t) + 1)
            && ACKNOWLEDGED !in StampsOf(u) && SEND_STARTED in StampsOf(u) && ENQUEUED in StampsOf(u)
            && (ENQUEUED in StampsOf(t) ==> StampsOf(u)[ENQUEUED] == StampsOf(t)[ENQUEUED])
  {
    var u := Sending(t, queuedAt, startedAt, lag);
    assert IsCloud(ENQUEUED) && IsCloud(SEND_STARTED) && IsCloud(ACKNOWLEDGED);
    var one := PutNew(StampsOf(t), ENQUEUED, queuedAt);
    var two := Put(one, SEND_STARTED, startedAt);
    PutAgrees(StampsOf(t), ENQUEUED, queuedAt);
    PutAgrees(one, SEND_STARTED, startedAt);
    forall key | !IsCloud(key)
      ensures Agree(StampsOf(t), StampsOf(u), key)
    {
      assert Agree(StampsOf(t), one, key) && Agree(one, two, key);
    }
    PutAgrees(t.durations, LAG, Bounded(lag));
    SameTraceMeaning(t, u);
    assert ENQUEUED[6] != ACKNOWLEDGED[6] && SEND_STARTED[6] != ACKNOWLEDGED[6] && ENQUEUED[6] != SEND_STARTED[6];
  }

  /** Every entry but the one under `key` is as it was. */
  ghost predicate AllBut<V(!new)>(a: map<string, V>, b: map<string, V>, key: string) {
    forall other :: other != key ==> Agree(a, b, other)
  }

  ghost predicate Holds<V(!new)>(m: map<string, V>, key: string, value: V) {
    key in m && m[key] == value
  }

  function Within(least: int, value: int, most: int): int {
    if value < least then least else if value > most then most else value
  }

  /** What is sent: the state, the counter, the three cloud stamps and the lag; all else is as it was stored. */
  lemma SendingMeaning(t: Telemetry, queuedAt: string, startedAt: string, lag: int)
    ensures var u := Sending(t, queuedAt, startedAt, lag);
            && u.state == "sending" && u.attempt == Within(0, Within(0, t.attempt, 1000) + 1, 1000)
            && u.traceId == t.traceId && u.core == t.core && u.stamps.Some?
            && Holds(u.stamps.value, "cloud_send_started_at", startedAt) && "cloud_acknowledged_at" !in u.stamps.value
            && (var queued := if "cloud_enqueued_at" in StampsOf(t) then StampsOf(t)["cloud_enqueued_at"] else queuedAt;
                Holds(u.stamps.value, "cloud_enqueued_at", queued))
            && (forall key :: key !in {"cloud_send_started_at", "cloud_acknowledged_at", "cloud_enqueued_at"} ==>
                                Agree(StampsOf(t), u.stamps.value, key))
            && Holds(u.durations, "delivery_lag_ms", Within(0, lag, 600000))
            && AllBut(t.durations, u.durations, "delivery_lag_ms")
  {
    assert ENQUEUED[6] != ACKNOWLEDGED[6] && SEND_STARTED[6] != ACKNOWLEDGED[6] && ENQUEUED[6] != SEND_STARTED[6];
  }

  /** What a failed attempt leaves: the counter within its bounds and the state, nothing else. */
  lemma RetryingMeaning(t: Telemetry)
    ensures Retrying(t) == t.(attempt := Within(0, t.attempt, 1000), state := "retry_pending")
  {
  }

  /** What a confirmed attempt leaves: the acknowledgement stamp and, unless it is negative, the interval. */
  lemma DeliveredMeaning(t: Telemetry, acknowledgedAt: string, interval: Option<int>)
    ensures var u := Delivered(t, acknowledgedAt, interval);
            && u.state == "delivered" && u.attempt == Within(0, t.attempt, 1000)
            && u.traceId == t.traceId && u.core == t.core && u.stamps.Some?
            && Holds(u.stamps.value, "cloud_acknowledged_at", acknowledgedAt)
            && AllBut(StampsOf(t), u.stamps.value, "cloud_acknowledged_at")
            && AllBut(t.durations, u.durations, "cloud_send_to_ack_ms")
            && (if interval.Some? && interval.value >= 0
                then Holds(u.durations, "cloud_send_to_ack_ms", Within(0, interval.value, 600000))
                else u.durations == t.durations)
  {
  }

  /** Attaching stamps the enqueue time of a queued event unless there is one, and nothing else. */
  lemma EnrichedMeaning(t: Telemetry, createdAt: Option<string>)
    ensures var u := Enriched(t, createdAt);
            if createdAt.None? then u == t else
            && u == t.(stamps := u.stamps) && u.stamps.Some? && AllBut(StampsOf(t), u.stamps.value, "cloud_enqueued_at")
            && Holds(u.stamps.value, "cloud_enqueued_at",
                     if "cloud_enqueued_at" in StampsOf(t) then StampsOf(t)["cloud_enqueued_at"] else createdAt.value)
  {
  }

  lemma RetryingSameTrace(t: Telemetry)
    ensures SameTrace(t, Retrying(t)) && Attempt(Retrying(t)) == Attempt(t)
  {
  }

  lemma DeliveredSameTrace(t: Telemetry, acknowledgedAt: string, interval: Option<int>)
    ensures var u := Delivered(t, acknowledgedAt, interval); SameTrace(t, u) && Attempt(u) == Attempt(t)
  {
    var u := Delivered(t, acknowledgedAt, interval);
    assert IsCloud(ACKNOWLEDGED);
    PutAgrees(StampsOf(t), ACKNOWLEDGED, acknowledgedAt);
    if interval.Some? {
      PutAgrees(t.durations, SEND_TO_ACK, Bounded(interval.value));
    }
    SameTraceMeaning(t, u);
  }
}
