/**
 The actuation protocol as a machine: claim row, cooldown decision, durable attempt marker,
 relay, finalization, with a crash, a store exception or another thread between any two steps.
 A store call may raise before or after its commit. Only the tables survive a crash.
 */
module Actuation {
  import opened Prelude
  import opened Store

  /** A request to `actuate`. */
  datatype Call = Call(event: GateEvent, key: string, payload: Option<Payload>, ack: Option<CommandAck>) {
    predicate Valid() { event.key == Some(key) }
  }

  /** What `trigger` returned, and the inhibition its last-moment check left behind. */
  datatype Trigger = Trigger(activated: bool, reason: string, activatedAt: Option<int>,
                             inhibition: Option<(string, string)>)

  /** Where the one thread inside `actuate` stands. */
  datatype Pc =
    | Idle
    | Open(call: Call)                                    // no terminal outcome is stored
    | Refused(call: Call, at: int)                        // the claim said cooldown
    | Held(call: Call, id: nat, at: int, mono: real)      // our claim row, no marker yet
    | Armed(call: Call, id: nat, at: int, mono: real)     // the marker is durable
    | Firing(call: Call, id: nat, at: int, mono: real)    // the pin rose, trigger has not returned
    | Fired(call: Call, id: nat, trigger: Trigger, pulsed: bool)

  /** One rise of the relay pin; `ended` is the clock after `trigger` returned. */
  datatype Pulse = Pulse(claim: nat, key: string, at: int, mono: real, boot: Option<nat>, process: nat,
                         ended: Option<real>)

  datatype Execution = Execution(didOpen: bool, reason: string, eventId: Option<nat>, status: string,
                                 detail: Option<string>)

  /**
   `boot` numbers the boots, `process` the processes; `known` says whether this process could
   read the boot id. `mono` is the monotonic clock of the boot. `prompt` is the claim of a
   prompt being played. `reply` is the last answer of `actuate`.
   */
  datatype State = State(cool: nat, db: Db, boot: nat, mono: real, up: bool, process: nat, known: bool,
                         last: Option<real>, pc: Pc, prompt: Option<(string, nat)>, pulses: seq<Pulse>,
                         reply: Option<Execution>)
  {
    function BootId(): Option<nat> { if known then Some(boot) else None }

    /** The cooldown in seconds. */
    function Cool(): real { Seconds(cool) }
  }

  function Seconds(micros: nat): (r: real)
    ensures r >= 0.0
  {
    micros as real / 1000000.0
  }

  const INHIBIT_ERROR := "actuation_inhibit_error"
  const LATCHED := "relay_latched"

  function Failed(reason: string): Execution {
    Execution(false, reason, None, FAILED, Some(reason))
  }

  /** `inhibition is None and relay_result.reason != "relay_latched"` */
  predicate Attempted(t: Trigger) {
    t.inhibition.None? && t.reason != LATCHED
  }

  function CooldownEvent(call: Call, at: int): GateEvent {
    call.event.(reason := COOLDOWN, gateOpened := false, decisionAt := Some(at), relayActivatedAt := None)
  }

  function FinalEvent(call: Call, t: Trigger, now: int): GateEvent {
    call.event.(reason := if t.activated then call.event.reason else t.reason,
    gateOpened := t.activated,
    decisionAt := if t.inhibition.Some? then Some(now) else call.event.decisionAt,
    relayActivatedAt := t.activatedAt)
  }

  function FinalStatus(t: Trigger): string {
    if t.inhibition.Some? then t.inhibition.value.0 else if t.activated then COMPLETED else FAILED
  }

  function FinalDetail(t: Trigger): Option<string> {
    if t.inhibition.Some? then Some(t.inhibition.value.1) else if t.activated then None else Some(t.reason)
  }

  function Replay(t: Terminal): Execution {
    var reason := if t.detail.Some? && t.detail.value != "" then t.detail.value else t.status;
    Execution(false, reason, t.eventId, t.status, t.detail)
  }

  /** The outbox row and the acknowledgement a replay makes sure of; `writes` of the two happen. */
  function ReplayTx(db: Db, call: Call, t: Terminal, writes: nat): Db {
    var db1 := if writes > 0 && t.eventId.Some? then EnsureOutbox(db, t.eventId.value, call.payload) else db;
    if writes > 1 then EnsureAck(db1, call.ack, t.status, t.detail) else db1
  }

  /** `monotonic_now - last < cooldown` */
  predicate ProcessCooling(s: State, mono: real) {
    s.last.Some? && mono - s.last.value < s.Cool()
  }

  // ---- Steps ------------------------------------------------------------------------

  datatype Choice =
    | Tick(passed: real)
    | Crash
    | Reboot(uptime: real)
    | Start(bootReadable: bool, fault: Fault)
    | ReadTerminal(call: Call, writes: nat, fault: Fault)
    | Claim(wall: int, fault: Fault)
    | RecordRefusal(fault: Fault)
    | RefuseInProcess(fault: Fault)
    | Mark(fault: Fault)
    | NoPulse(trigger: Trigger)
    | PulseStarts
    | TriggerReturns(trigger: Trigger)
    | TriggerRaises
    | Finalize(wall: int, fault: Fault)
    | PromptClaim(key: string, wall: int, fault: Fault)
    | PromptFinalize(event: GateEvent, status: string, detail: Option<string>, fault: Fault)
    | RecordDenied(event: GateEvent, payload: Option<Payload>)
    | OutboxWork(outbox: seq<OutboxRow>, acks: map<string, Ack>)   // the delivery workers

  function Leave(s: State, reply: Option<Execution>): State {
    s.(pc := Idle, reply := reply)
  }

  function StartStep(s: State, bootReadable: bool, fault: Fault): State {
    var recovered := if fault == RaisesBefore then s.db else RecoverTx(s.db);
    if fault == Fine
    then s.(db := recovered, up := true, process := s.process + 1, known := bootReadable, last := None, pc := Idle,
            prompt := None, reply := None)
    else s.(db := recovered)
  }

  function ReadStep(s: State, call: Call, writes: nat, fault: Fault): State {
    if fault != Fine then Leave(s, None) else
    match TerminalOutcome(s.db, call.key)
    case None => s.(pc := Open(call))
    case Some(t) => Leave(s.(db := ReplayTx(s.db, call, t, writes)), if writes > 1 then Some(Replay(t)) else None)
  }

  function ClaimStep(s: State, wall: int, fault: Fault): State
    requires s.pc.Open?
  {
    var call := s.pc.call;
    var at := if call.event.decisionAt.Some? then call.event.decisionAt.value else wall;
    var cutoff := Cutoff(at - s.cool, s.mono - s.Cool(), s.BootId());
    var pending := PendingOf(call.event, call.payload, call.ack);
    AfterClaim(s, call, at, ClaimTx(s.db, call.key, at, Some(cutoff), Some(pending)), fault)
  }

  /** What `actuate` does with the tables and the answer of its claim. */
  function AfterClaim(s: State, call: Call, at: int, tx: (Db, ClaimResult), fault: Fault): State {
    if fault == RaisesBefore then Leave(s, Some(Failed(INHIBIT_ERROR)))
    else if fault == RaisesAfter then Leave(s.(db := tx.0), Some(Failed(INHIBIT_ERROR)))
    else match tx.1
         case Claimed(id) => s.(db := tx.0, pc := Held(call, id, at, s.mono))
         case InCooldown => s.(pc := Refused(call, at))
         case Indeterminate => Leave(s, Some(Failed(INDETERMINATE)))
         case DuplicateEvent => Leave(s, Some(Failed("duplicate_event")))
  }

  function RefusalStep(s: State, fault: Fault): State
    requires s.pc.Refused?
  {
    var call := s.pc.call;
    var done := RecordTerminalTx(s.db, CooldownEvent(call, s.pc.at), call.key, FAILED, Some(COOLDOWN), call.payload,
                                 call.ack);
    if fault == RaisesBefore || done.None? then Leave(s, None)
    else Leave(s.(db := done.value.0),
               if fault == Fine then Some(Execution(false, COOLDOWN, done.value.1, FAILED, Some(COOLDOWN))) else None)
  }

  function FinalizeStep(s: State, id: nat, e: GateEvent, status: string, detail: Option<string>, call: Call,
                        retain: bool, answer: Execution, fault: Fault): State {
    var done := FinalizeTx(s.db, id, e, status, detail, call.payload, call.ack, retain);
    if fault == RaisesBefore || done.None? then Leave(s, Some(Failed(INDETERMINATE)))
    else Leave(s.(db := done.value.0),
               Some(if fault == Fine then answer.(eventId := Some(done.value.1)) else Failed(INDETERMINATE)))
  }

  function MarkStep(s: State, fault: Fault): State
    requires s.pc.Held?
  {
    var Held(call, id, at, mono) := s.pc;
    var done := MarkTx(s.db, id, Marker(at, mono, s.BootId()), PendingOf(call.event, call.payload, call.ack));
    if fault == RaisesBefore || done.None? then Leave(s, Some(Failed(INHIBIT_ERROR)))
    else if fault == RaisesAfter then Leave(s.(db := done.value), Some(Failed(INHIBIT_ERROR)))
    else s.(db := done.value, pc := Armed(call, id, at, mono))
  }

  function FiredState(s: State, t: Trigger, pulsed: bool): State
    requires s.pc.Armed? || s.pc.Firing?
  {
    s.(pc := Fired(s.pc.call, s.pc.id, t, pulsed), last := if Attempted(t) then Some(s.mono) else s.last)
  }

  function EndPulse(pulses: seq<Pulse>, mono: real): seq<Pulse> {
    if pulses == [] then [] else pulses[|pulses| - 1 := pulses[|pulses| - 1].(ended := Some(mono))]
  }

  function ReturnStep(s: State, t: Trigger): State
    requires s.pc.Firing?
  {
    FiredState(s, t, true).(pulses := EndPulse(s.pulses, s.mono))
  }

  function PulseStep(s: State): State
    requires s.pc.Armed?
  {
    var pulse := Pulse(s.pc.id, s.pc.call.key, s.pc.at, s.pc.mono, s.BootId(), s.process, None);
    s.(pc := Firing(s.pc.call, s.pc.id, s.pc.at, s.pc.mono), pulses := s.pulses + [pulse])
  }

  function PromptClaimStep(s: State, key: string, wall: int, fault: Fault): State {
    var (db, result) := ClaimTx(s.db, key, wall, None, None);
    s.(db := db, prompt := if fault == Fine && result.Claimed? then Some((key, result.id)) else None)
  }

  function PromptFinalizeStep(s: State, e: GateEvent, status: string, detail: Option<string>, fault: Fault): State
    requires s.prompt.Some?
  {
    var done := FinalizeTx(s.db, s.prompt.value.1, e.(gateOpened := false), status, detail, None, None, false);
    s.(db := if fault == RaisesBefore || done.None? then s.db else done.value.0, prompt := None)
  }

  /** One step of the machine; a choice that is not enabled changes nothing. */
  function Next(s: State, c: Choice): State {
    match c
    case Tick(passed) => if passed >= 0.0 then s.(mono := s.mono + passed) else s
    case Crash => s.(up := false, pc := Idle, prompt := None, last := None)
    case Reboot(uptime) => if !s.up && uptime >= 0.0 then s.(boot := s.boot + 1, mono := uptime) else s
    case Start(bootReadable, fault) => if !s.up then StartStep(s, bootReadable, fault) else s
    case ReadTerminal(call, writes, fault) =>
      if s.up && s.pc.Idle? && call.Valid() then ReadStep(s, call, writes, fault) else s
    case Claim(wall, fault) => if s.up && s.pc.Open? then ClaimStep(s, wall, fault) else s
    case RecordRefusal(fault) => if s.up && s.pc.Refused? then RefusalStep(s, fault) else s
    case RefuseInProcess(fault) =>
      if s.up && s.pc.Held? && ProcessCooling(s, s.pc.mono)
      then FinalizeStep(s, s.pc.id, CooldownEvent(s.pc.call, s.pc.at), FAILED, Some(COOLDOWN), s.pc.call, true,
                        Execution(false, COOLDOWN, None, FAILED, Some(COOLDOWN)), fault)
      else s
    case Mark(fault) => if s.up && s.pc.Held? && !ProcessCooling(s, s.pc.mono) then MarkStep(s, fault) else s
    case NoPulse(t) => if s.up && s.pc.Armed? && !t.activated then FiredState(s, t, false) else s
    case PulseStarts =>
      if s.up && s.pc.Armed? then PulseStep(s) else s
    case TriggerReturns(t) =>
      if s.up && s.pc.Firing? && Attempted(t) then ReturnStep(s, t) else s
    case TriggerRaises => if s.up && (s.pc.Armed? || s.pc.Firing?) then Leave(s, None) else s
    case Finalize(wall, fault) =>
      if s.up && s.pc.Fired?
      then var Fired(call, id, t, _) := s.pc;
           FinalizeStep(s, id, FinalEvent(call, t, wall), FinalStatus(t), FinalDetail(t), call, Attempted(t),
                        Execution(t.activated, FinalEvent(call, t, wall).reason, None, FinalStatus(t),
                                  FinalDetail(t)), fault)
      else s
    case PromptClaim(key, wall, fault) =>
      if s.up && s.prompt.None? && fault != RaisesBefore then PromptClaimStep(s, key, wall, fault) else s
    case PromptFinalize(e, status, detail, fault) =>
      if s.up && s.prompt.Some? then PromptFinalizeStep(s, e, status, detail, fault) else s
    case RecordDenied(e, payload) =>
      if s.up then s.(db := RecordEventTx(s.db, e.(gateOpened := false, relayActivatedAt := None), payload).0) else s
    case OutboxWork(outbox, acks) => if s.up then s.(db := s.db.(outbox := outbox, acks := acks)) else s
  }

  function Run(s: State, choices: seq<Choice>): State
    decreases |choices|
  {
    if choices == [] then s else Run(Next(s, choices[0]), choices[1..])
  }

  /** Before the first start: no claims, and only legacy events have opened the gate. */
  ghost predicate Initial(s: State) {
    && !s.up && s.pc.Idle? && s.prompt.None? && s.last.None? && s.pulses == [] && s.mono >= 0.0
    && s.db.claims == []
    && (forall e :: 0 <= e < |s.db.events| && s.db.events[e].gateOpened ==> s.db.events[e].key.None?)
    && EventKeysUnique(s.db.events)
  }

  // ---- Invariants -----------------------------------------------------------------------

  ghost predicate KeysUnique(claims: seq<ClaimRow>) {
    forall i, j :: 0 <= i < j < |claims| ==> claims[i].key != claims[j].key
  }

  ghost predicate EventKeysUnique(events: seq<GateEvent>) {
    forall i, j :: 0 <= i < j < |events| && events[i].key.Some? ==> events[i].key != events[j].key
  }

  /** Marker `m` is older than a claim at wall time `at` and monotonic reading `mono` by more than the cooldown. */
  ghost predicate Older(m: Marker, at: int, mono: real, boot: Option<nat>, cool: nat) {
    m.at < at - cool && (boot.Some? && m.boot == boot ==> m.mono < mono - Seconds(cool))
  }

  ghost predicate Apart(m: Marker, n: Marker, cool: nat) {
    Older(m, n.at, n.mono, n.boot, cool) || Older(n, m.at, m.mono, m.boot, cool)
  }

  ghost predicate MarkersApart(claims: seq<ClaimRow>, cool: nat) {
    forall i, j :: 0 <= i < j < |claims| && claims[i].marker.Some? && claims[j].marker.Some? ==>
                     Apart(claims[i].marker.value, claims[j].marker.value, cool)
  }

  ghost predicate MarkersSane(claims: seq<ClaimRow>) {
    forall i :: 0 <= i < |claims| && claims[i].marker.Some? ==> claims[i].marker.value.mono >= 0.0
  }

  /** An open claim with a marker can be finalized by recovery. */
  ghost predicate MarkedRecoverable(claims: seq<ClaimRow>) {
    forall i :: 0 <= i < |claims| && claims[i].marker.Some? && !claims[i].finalized ==> Recoverable(claims[i])
  }

  /** A claim that recovery can finalize waits for the event of its own key. */
  ghost predicate PendingOwn(claims: seq<ClaimRow>) {
    forall i :: 0 <= i < |claims| ==> OwnPending(claims[i])
  }

  ghost predicate OwnPending(r: ClaimRow) {
    Recoverable(r) ==> r.pending.value.event.key == Some(r.key)
  }

  /** Pulse `p` has its claim row, with the marker that was durable before it. */
  ghost predicate Backed(p: Pulse, claims: seq<ClaimRow>) {
    && p.claim < |claims| && claims[p.claim].key == p.key
    && claims[p.claim].marker == Some(Marker(p.at, p.mono, p.boot))
  }

  ghost predicate PulsesBacked(pulses: seq<Pulse>, claims: seq<ClaimRow>) {
    && (forall k :: 0 <= k < |pulses| ==> Backed(pulses[k], claims))
    && (forall j, k :: 0 <= j < k < |pulses| ==> pulses[j].claim != pulses[k].claim)
  }

  ghost predicate NotPulsed(pulses: seq<Pulse>, id: nat) {
    forall k :: 0 <= k < |pulses| ==> pulses[k].claim != id
  }

  ghost predicate LastPulse(pulses: seq<Pulse>, id: nat) {
    pulses != [] && pulses[|pulses| - 1].claim == id
  }

  ghost predicate HasPulse(pulses: seq<Pulse>, key: string) {
    exists k :: 0 <= k < |pulses| && pulses[k].key == key
  }

  ghost predicate OpeningsBacked(events: seq<GateEvent>, pulses: seq<Pulse>) {
    forall e :: 0 <= e < |events| && events[e].gateOpened && events[e].key.Some? ==>
                  HasPulse(pulses, events[e].key.value)
  }

  /** Pulse `p` of this process ended at least a cooldown before monotonic reading `mono`. */
  ghost predicate EndedBefore(p: Pulse, process: nat, mono: real, cool: nat) {
    p.process == process && p.ended.Some? ==> mono >= p.ended.value + Seconds(cool)
  }

  ghost predicate PulsesSpaced(pulses: seq<Pulse>, cool: nat) {
    forall j, k :: 0 <= j < k < |pulses| ==> EndedBefore(pulses[j], pulses[k].process, pulses[k].mono, cool)
  }

  ghost predicate NoLaterProcess(pulses: seq<Pulse>, process: nat) {
    forall k :: 0 <= k < |pulses| ==> pulses[k].process <= process
  }

  ghost predicate Spaced(s: State) {
    PulsesSpaced(s.pulses, s.cool) && NoLaterProcess(s.pulses, s.process)
  }

  ghost predicate EndsKnown(pulses: seq<Pulse>, process: nat, last: Option<real>) {
    forall k :: 0 <= k < |pulses| && pulses[k].process == process && pulses[k].ended.Some? ==>
                  last.Some? && pulses[k].ended.value <= last.value
  }

  /** `_last_attempt_monotonic` is not before the end of any pulse of this process. */
  ghost predicate LastOk(s: State) {
    && (s.last.Some? ==> s.up && s.last.value <= s.mono)
    && (s.up ==> EndsKnown(s.pulses, s.process, s.last))
  }

  /** The claim row belongs to the thread and is still open. */
  ghost predicate Owns(claims: seq<ClaimRow>, key: string, id: nat) {
    id < |claims| && !claims[id].finalized && claims[id].key == key
  }

  /** The open row holds everything that recovery needs of the call. */
  ghost predicate Requested(r: ClaimRow, call: Call) {
    && !r.finalized && r.pending.Some? && r.pending.value.Decodable?
    && r.pending.value.payload == call.payload && r.pending.value.ack == call.ack
    && var e := r.pending.value.event;
    && !e.gateOpened && e.relayActivatedAt.None? && e.source == call.event.source && e.reason == call.event.reason
    && e.key == call.event.key && e.receivedAt == call.event.receivedAt && e.decisionAt == call.event.decisionAt
    && e.recognition == call.event.recognition
  }

  /** The row of an `actuate` call: it owns the row, and recovery can finalize it. */
  ghost predicate OwnsCall(claims: seq<ClaimRow>, call: Call, id: nat) {
    call.Valid() && Owns(claims, call.key, id) && Requested(claims[id], call)
  }

  ghost predicate ClearOfMarkers(claims: seq<ClaimRow>, at: int, mono: real, boot: Option<nat>, cool: nat) {
    forall i :: 0 <= i < |claims| && claims[i].marker.Some? ==> Older(claims[i].marker.value, at, mono, boot, cool)
  }

  /** Every pulse of this process ended a cooldown before `mono`. */
  ghost predicate Rested(pulses: seq<Pulse>, process: nat, mono: real, cool: nat) {
    forall k :: 0 <= k < |pulses| ==> EndedBefore(pulses[k], process, mono, cool)
  }

  ghost predicate PcOk(s: State) {
    && (!s.up ==> s.pc.Idle? && s.prompt.None?)
    && match s.pc
       case Idle => true
       case Open(call) => call.Valid()
       case Refused(call, _) => call.Valid()
       case Held(call, id, at, mono) =>
         && OwnsCall(s.db.claims, call, id) && s.db.claims[id].marker.None? && NotPulsed(s.pulses, id)
         && 0.0 <= mono <= s.mono && ClearOfMarkers(s.db.claims, at, mono, s.BootId(), s.cool)
       case Armed(call, id, at, mono) =>
         && OwnsCall(s.db.claims, call, id) && s.db.claims[id].marker == Some(Marker(at, mono, s.BootId()))
         && NotPulsed(s.pulses, id) && Rested(s.pulses, s.process, mono, s.cool)
       case Firing(call, id, at, mono) =>
         OwnsCall(s.db.claims, call, id) && s.db.claims[id].marker.Some? && LastPulse(s.pulses, id)
       case Fired(call, id, t, pulsed) =>
         && OwnsCall(s.db.claims, call, id) && s.db.claims[id].marker.Some?
         && (if pulsed then LastPulse(s.pulses, id) && Attempted(t) else NotPulsed(s.pulses, id) && !t.activated)
  }

  /** The claim row the thread in `actuate` works on. */
  function Working(pc: Pc): Option<nat> {
    if pc.Held? || pc.Armed? || pc.Firing? || pc.Fired? then Some(pc.id) else None
  }

  ghost predicate PromptOk(s: State) {
    s.prompt.Some? ==>
      var (key, id) := s.prompt.value;
      Owns(s.db.claims, key, id) && s.db.claims[id].marker.None? && NotPulsed(s.pulses, id) && Working(s.pc) != Some(id)
  }

  /** What the tables and the pulses say together. */
  ghost predicate TablesOk(s: State) {
    && KeysUnique(s.db.claims) && EventKeysUnique(s.db.events)
    && MarkersApart(s.db.claims, s.cool) && MarkersSane(s.db.claims) && s.mono >= 0.0
    && MarkedRecoverable(s.db.claims) && PendingOwn(s.db.claims)
    && PulsesBacked(s.pulses, s.db.claims) && OpeningsBacked(s.db.events, s.pulses)
  }

  ghost predicate Inv(s: State) {
    TablesOk(s) && Spaced(s) && LastOk(s) && PcOk(s) && PromptOk(s)
  }

  // ---- Preservation -----------------------------------------------------------------------

  lemma SameRows(s: State, db: Db)
    requires TablesOk(s) && db.claims == s.db.claims && db.events == s.db.events
    ensures TablesOk(s.(db := db))
  {
  }

  lemma EventAppended(s: State, e: GateEvent)
    requires TablesOk(s) && InsertEvent(s.db, e).Some?
    requires e.gateOpened && e.key.Some? ==> HasPulse(s.pulses, e.key.value)
    ensures TablesOk(s.(db := InsertEvent(s.db, e).value.0))
  {
    var events := s.db.events + [e];
    assert forall i :: 0 <= i < |s.db.events| ==> events[i] == s.db.events[i];
  }

  lemma RowReplaced(s: State, id: nat, row: ClaimRow)
    requires TablesOk(s) && id < |s.db.claims| && row.key == s.db.claims[id].key
    requires row.marker == s.db.claims[id].marker || (row.marker.None? && NotPulsed(s.pulses, id))
    requires (row.finalized || row.marker.None? || Recoverable(row)) && OwnPending(row)
    ensures TablesOk(s.(db := s.db.(claims := s.db.claims[id := row])))
  {
  }

  lemma RowAppended(s: State, row: ClaimRow)
    requires TablesOk(s) && FindClaim(s.db.claims, row.key) < 0 && row.marker.None? && OwnPending(row)
    ensures TablesOk(s.(db := s.db.(claims := s.db.claims + [row])))
  {
    var claims := s.db.claims + [row];
    assert forall i :: 0 <= i < |s.db.claims| ==> claims[i] == s.db.claims[i];
  }

  lemma EventRecorded(s: State, e: GateEvent, payload: Option<Payload>)
    requires TablesOk(s) && (e.gateOpened && e.key.Some? ==> HasPulse(s.pulses, e.key.value))
    ensures TablesOk(s.(db := RecordEventTx(s.db, e, payload).0))
            && RecordEventTx(s.db, e, payload).0.claims == s.db.claims
  {
    if InsertEvent(s.db, e).Some? {
      EventAppended(s, e);
      SameRows(s.(db := InsertEvent(s.db, e).value.0), RecordEventTx(s.db, e, payload).0);
    } else {
      SameRows(s, RecordEventTx(s.db, e, payload).0);
    }
  }

  /** Finalizing a row keeps the tables in order when a row that loses its marker was never pulsed. */
  lemma RowFinalized(s: State, id: nat, e: GateEvent, status: string, detail: Option<string>,
                     payload: Option<Payload>, ack: Option<CommandAck>, retain: bool)
    requires TablesOk(s) && FinalizeTx(s.db, id, e, status, detail, payload, ack, retain).Some?
    requires e.gateOpened ==> HasPulse(s.pulses, s.db.claims[id].key)
    requires (retain && status != EXPIRED) || NotPulsed(s.pulses, id)
    ensures var db := FinalizeTx(s.db, id, e, status, detail, payload, ack, retain).value.0;
            && TablesOk(s.(db := db)) && |db.claims| == |s.db.claims|
            && forall i :: 0 <= i < |db.claims| && i != id ==> db.claims[i] == s.db.claims[i]
  {
    EventAppended(s, e);
    var s1 := s.(db := InsertEvent(s.db, e).value.0);
    var db2 := EnsureAck(EnsureOutbox(s1.db, |s.db.events|, payload), ack, status, detail);
    SameRows(s1, db2);
    var row := FinalRow(db2.claims[id], |s.db.events|, status, detail, retain && status != EXPIRED);
    RowReplaced(s1.(db := db2), id, row);
  }

  lemma {:induction false} Recovered(s: State, i: nat)
    requires TablesOk(s) && i <= |s.db.claims|
    ensures TablesOk(s.(db := RecoverFrom(s.db, i)))
    decreases |s.db.claims| - i
  {
    if i < |s.db.claims| {
      var row := s.db.claims[i];
      if Recoverable(row) {
        EventRecorded(s, RecoveredEvent(row), row.pending.value.payload);
        var (db1, eventId) := RecordEventTx(s.db, RecoveredEvent(row), row.pending.value.payload);
        var db2 := EnsureAck(db1, row.pending.value.ack, FAILED, Some(RecoveryReason(row)));
        SameRows(s.(db := db1), db2);
        RowReplaced(s.(db := db2), i, FinalRow(row, eventId, FAILED, Some(RecoveryReason(row)), true));
      }
      Recovered(s.(db := RecoverRow(s.db, i)), i + 1);
    }
  }

  lemma PromptUntouched(s: State, t: State)
    requires PromptOk(s) && t.prompt == s.prompt && t.pulses == s.pulses && Working(t.pc) in {None, Working(s.pc)}
    requires |s.db.claims| <= |t.db.claims|
    requires s.prompt.Some? ==> t.db.claims[s.prompt.value.1] == s.db.claims[s.prompt.value.1]
    ensures PromptOk(t)
  {
  }

  /** A step that touches only the tables, the program counters and the reply. */
  lemma Frame(s: State, t: State)
    requires Spaced(s) && LastOk(s) && TablesOk(s.(db := t.db))
    requires t == s.(db := t.db, pc := t.pc, prompt := t.prompt, reply := t.reply)
    ensures TablesOk(t) && Spaced(t) && LastOk(t)
  {
  }

  lemma ReplayRows(db: Db, call: Call, t: Terminal, writes: nat)
    ensures ReplayTx(db, call, t, writes).claims == db.claims && ReplayTx(db, call, t, writes).events == db.events
  {
  }

  lemma PulsesGrow(pulses: seq<Pulse>, p: Pulse)
    ensures forall key :: HasPulse(pulses, key) ==> HasPulse(pulses + [p], key)
  {
    forall key | HasPulse(pulses, key)
      ensures HasPulse(pulses + [p], key)
    {
      var k :| 0 <= k < |pulses| && pulses[k].key == key;
      assert (pulses + [p])[k].key == key;
    }
  }

  lemma ReadTables(s: State, call: Call, writes: nat, fault: Fault)
    requires Inv(s) && s.up && s.pc.Idle? && call.Valid()
    ensures Inv(ReadStep(s, call, writes, fault))
  {
    var t := ReadStep(s, call, writes, fault);
    var terminal := TerminalOutcome(s.db, call.key);
    if terminal.Some? {
      ReplayRows(s.db, call, terminal.value, writes);
    }
    SameRows(s, t.db);
    Frame(s, t);
    PromptUntouched(s, t);
  }

  lemma RefusalTables(s: State, fault: Fault)
    requires Inv(s) && s.up && s.pc.Refused?
    ensures Inv(RefusalStep(s, fault))
  {
    var t := RefusalStep(s, fault);
    var call := s.pc.call;
    if t.db != s.db {
      TerminalRecorded(s, CooldownEvent(call, s.pc.at), call.key, FAILED, Some(COOLDOWN), call.payload, call.ack);
    }
    Frame(s, t);
    PromptUntouched(s, t);
  }

  lemma TerminalRecorded(s: State, e: GateEvent, key: string, status: string, detail: Option<string>,
                         payload: Option<Payload>, ack: Option<CommandAck>)
    requires TablesOk(s) && !e.gateOpened && RecordTerminalTx(s.db, e, key, status, detail, payload, ack).Some?
    ensures var db := RecordTerminalTx(s.db, e, key, status, detail, payload, ack).value.0;
            && TablesOk(s.(db := db)) && |s.db.claims| <= |db.claims|
            && forall i :: 0 <= i < |s.db.claims| ==> db.claims[i] == s.db.claims[i]
  {
    var db := RecordTerminalTx(s.db, e, key, status, detail, payload, ack).value.0;
    if FindClaim(s.db.claims, key) >= 0 {
      SameRows(s, db);
    } else {
      EventAppended(s, e);
      var s1 := s.(db := InsertEvent(s.db, e).value.0);
      var db2 := EnsureAck(EnsureOutbox(s1.db, |s.db.events|, payload), ack, status, detail);
      SameRows(s1, db2);
      RowAppended(s1.(db := db2), db.claims[|s.db.claims|]);
    }
  }

  /** What the claim step can do, without how the cooldown query decides. */
  ghost predicate ClaimShape(s: State, t: State, call: Call) {
    var n := |s.db.claims|;
    && t == s.(db := t.db, pc := t.pc, reply := t.reply)
    && (t.db == s.db
        || (t.db == s.db.(claims := t.db.claims) && |t.db.claims| == n + 1
            && t.db.claims == s.db.claims + [t.db.claims[n]]
            && t.db.claims[n].key == call.key && t.db.claims[n].marker.None? && Requested(t.db.claims[n], call)
            && FindClaim(s.db.claims, call.key) < 0))
    && (t.pc.Idle? || (t.pc.Refused? && t.pc.call == call)
        || (t.pc.Held? && t.pc.call == call && t.pc.id == n && t.pc.mono == s.mono && t.db != s.db
            && ClearOfMarkers(s.db.claims, t.pc.at, s.mono, s.BootId(), s.cool)))
  }

  lemma ClaimHasShape(s: State, call: Call, wall: int, fault: Fault)
    requires s.pc == Open(call)
    ensures ClaimShape(s, ClaimStep(s, wall, fault), call)
  {
    var t := ClaimStep(s, wall, fault);
    if t.pc.Held? {
      ClearWhenClaimed(s, t.pc.at - s.cool, s.mono - s.Cool());
    }
  }

  lemma ClaimTables(s: State, t: State, call: Call)
    requires Inv(s) && s.up && s.pc == Open(call) && ClaimShape(s, t, call)
    ensures Inv(t)
  {
    var n := |s.db.claims|;
    if t.db != s.db {
      RowAppended(s, t.db.claims[n]);
    }
    assert forall i :: 0 <= i < n ==> t.db.claims[i] == s.db.claims[i];
    Frame(s, t);
    PromptUntouchedByNew(s, t);
    if t.pc.Held? {
      assert t.db.claims[..n] == s.db.claims;
      HeldIsClear(s, t, t.pc.at);
    }
  }

  lemma PromptUntouchedByNew(s: State, t: State)
    requires PromptOk(s) && t.prompt == s.prompt && t.pulses == s.pulses && |s.db.claims| <= |t.db.claims|
    requires Working(t.pc) == None || Working(t.pc) == Some(|s.db.claims|)
    requires forall i :: 0 <= i < |s.db.claims| ==> t.db.claims[i] == s.db.claims[i]
    ensures PromptOk(t)
  {
    if s.prompt.Some? {
      var id := s.prompt.value.1;
      assert Owns(s.db.claims, s.prompt.value.0, id);
      assert t.db.claims[id] == s.db.claims[id];
    }
  }

  lemma HeldIsClear(s: State, t: State, at: int)
    requires Inv(s) && t.pulses == s.pulses && t.cool == s.cool && t.boot == s.boot && t.known == s.known
             && t.mono == s.mono
    requires |t.db.claims| == |s.db.claims| + 1 && t.db.claims[..|s.db.claims|] == s.db.claims
    requires t.db.claims[|s.db.claims|].marker.None? && !t.db.claims[|s.db.claims|].finalized
    requires forall i :: 0 <= i < |s.db.claims| && s.db.claims[i].marker.Some? ==>
                           Older(s.db.claims[i].marker.value, at, s.mono, s.BootId(), s.cool)
    ensures ClearOfMarkers(t.db.claims, at, s.mono, t.BootId(), t.cool) && NotPulsed(t.pulses, |s.db.claims|)
  {
    forall i | 0 <= i < |t.db.claims| && t.db.claims[i].marker.Some?
      ensures Older(t.db.claims[i].marker.value, at, s.mono, t.BootId(), t.cool)
    {
      assert t.db.claims[i] == t.db.claims[..|s.db.claims|][i];
    }
    forall k | 0 <= k < |s.pulses|
      ensures s.pulses[k].claim != |s.db.claims|
    {
      assert Backed(s.pulses[k], s.db.claims);
    }
  }

  /** What it takes for the cooldown query to answer no. */
  lemma ClearWhenClaimed(s: State, wall: int, mono: real)
    requires !WasOpenedSince(s.db, wall, Some(mono), s.BootId())
    ensures forall i :: 0 <= i < |s.db.claims| && s.db.claims[i].marker.Some? ==>
                          var m := s.db.claims[i].marker.value;
                          m.at < wall && (s.BootId().Some? && m.boot == s.BootId() ==> m.mono < mono)
  {
    forall i | 0 <= i < |s.db.claims| && s.db.claims[i].marker.Some?
      ensures !AttemptAtOrAfter(s.db.claims[i], wall)
      ensures s.BootId().Some? ==> !SameBootAttempt(s.db.claims[i], s.BootId().value, mono)
    {
    }
  }

  lemma FinalizeTables(s: State, id: nat, e: GateEvent, status: string, detail: Option<string>, call: Call,
                       retain: bool, answer: Execution, fault: Fault)
    requires Inv(s) && s.up && Working(s.pc) == Some(id)
    requires e.gateOpened ==> HasPulse(s.pulses, s.db.claims[id].key)
    requires (retain && status != EXPIRED) || NotPulsed(s.pulses, id)
    ensures Inv(FinalizeStep(s, id, e, status, detail, call, retain, answer, fault))
  {
    var t := FinalizeStep(s, id, e, status, detail, call, retain, answer, fault);
    if t.db != s.db {
      RowFinalized(s, id, e, status, detail, call.payload, call.ack, retain);
    }
    PromptUntouched(s, t);
  }

  lemma MarkTables(s: State, fault: Fault)
    requires Inv(s) && s.up && s.pc.Held? && !ProcessCooling(s, s.pc.mono)
    ensures Inv(MarkStep(s, fault))
  {
    MarkedRows(s, fault);
    PromptUntouched(s, MarkStep(s, fault));
  }

  lemma MarkedRows(s: State, fault: Fault)
    requires TablesOk(s) && PcOk(s) && s.up && s.pc.Held?
    ensures TablesOk(MarkStep(s, fault))
  {
    MarkedApart(s, fault);
    MarkedBacks(s, fault);
  }

  lemma MarkedBacks(s: State, fault: Fault)
    requires TablesOk(s) && PcOk(s) && s.up && s.pc.Held?
    ensures PulsesBacked(s.pulses, MarkStep(s, fault).db.claims)
  {
    forall k | 0 <= k < |s.pulses|
      ensures Backed(s.pulses[k], MarkStep(s, fault).db.claims)
    {
      assert Backed(s.pulses[k], s.db.claims);
    }
  }

  /** The new marker is apart from every other one: the claim saw all of them. */
  lemma MarkedApart(s: State, fault: Fault)
    requires TablesOk(s) && PcOk(s) && s.up && s.pc.Held?
    ensures MarkersApart(MarkStep(s, fault).db.claims, s.cool)
  {
    var Held(call, id, at, mono) := s.pc;
    var t := MarkStep(s, fault);
    forall i, j | 0 <= i < j < |t.db.claims| && t.db.claims[i].marker.Some? && t.db.claims[j].marker.Some?
      ensures Apart(t.db.claims[i].marker.value, t.db.claims[j].marker.value, s.cool)
    {
      if i == id && s.db.claims[j].marker.Some? {
        assert Older(s.db.claims[j].marker.value, at, mono, s.BootId(), s.cool);
      } else if j == id && s.db.claims[i].marker.Some? {
        assert Older(s.db.claims[i].marker.value, at, mono, s.BootId(), s.cool);
      }
    }
  }

  lemma TickKeeps(s: State, passed: real)
    requires Inv(s)
    ensures Inv(Next(s, Tick(passed)))
  {
  }

  lemma CrashKeeps(s: State)
    requires Inv(s)
    ensures Inv(Next(s, Crash))
  {
  }

  lemma RebootKeeps(s: State, uptime: real)
    requires Inv(s)
    ensures Inv(Next(s, Reboot(uptime)))
  {
  }

  lemma StartKeeps(s: State, readable: bool, fault: Fault)
    requires Inv(s)
    ensures Inv(Next(s, Start(readable, fault)))
  {
    if !s.up && fault != RaisesBefore {
      Recovered(s, 0);
      SameRows(s.(db := RecoverFrom(s.db, 0)), RecoverTx(s.db));
      assert TablesOk(s.(db := RecoverTx(s.db)));
    }
  }

  lemma ReadKeeps(s: State, call: Call, writes: nat, fault: Fault)
    requires Inv(s)
    ensures Inv(Next(s, ReadTerminal(call, writes, fault)))
  {
    if s.up && s.pc.Idle? && call.Valid() {
      ReadTables(s, call, writes, fault);
    }
  }

  lemma ClaimKeeps(s: State, wall: int, fault: Fault)
    requires Inv(s)
    ensures Inv(Next(s, Claim(wall, fault)))
  {
    if s.up && s.pc.Open? {
      ClaimHasShape(s, s.pc.call, wall, fault);
      ClaimTables(s, ClaimStep(s, wall, fault), s.pc.call);
    }
  }

  lemma RefusalKeeps(s: State, fault: Fault)
    requires Inv(s)
    ensures Inv(Next(s, RecordRefusal(fault)))
  {
    if s.up && s.pc.Refused? {
      RefusalTables(s, fault);
    }
  }

  lemma InProcessKeeps(s: State, fault: Fault)
    requires Inv(s)
    ensures Inv(Next(s, RefuseInProcess(fault)))
  {
    if s.up && s.pc.Held? && ProcessCooling(s, s.pc.mono) {
      FinalizeTables(s, s.pc.id, CooldownEvent(s.pc.call, s.pc.at), FAILED, Some(COOLDOWN), s.pc.call, true,
                     Execution(false, COOLDOWN, None, FAILED, Some(COOLDOWN)), fault);
    }
  }

  lemma MarkKeeps(s: State, fault: Fault)
    requires Inv(s)
    ensures Inv(Next(s, Mark(fault)))
  {
    if s.up && s.pc.Held? && !ProcessCooling(s, s.pc.mono) {
      MarkTables(s, fault);
    }
  }

  lemma NoPulseKeeps(s: State, t: Trigger)
    requires Inv(s)
    ensures Inv(Next(s, NoPulse(t)))
  {
  }

  lemma PulseStartsKeeps(s: State)
    requires Inv(s) && s.up && s.pc.Armed?
    ensures Inv(PulseStep(s))
  {
    var t := PulseStep(s);
    assert forall k :: 0 <= k < |s.pulses| ==> t.pulses[k] == s.pulses[k];
    PulsesGrow(s.pulses, t.pulses[|s.pulses|]);
    assert OpeningsBacked(t.db.events, t.pulses);
  }

  lemma ReturnsKeeps(s: State, t: Trigger)
    requires Inv(s) && s.up && s.pc.Firing? && Attempted(t)
    ensures Inv(ReturnStep(s, t))
  {
    var u := ReturnStep(s, t);
    var n := |s.pulses| - 1;
    assert forall k :: 0 <= k < |s.pulses| ==> u.pulses[k] == s.pulses[k].(ended := u.pulses[k].ended);
    assert forall k :: 0 <= k < n ==> u.pulses[k] == s.pulses[k];
    PulsesEnded(s.pulses, u.pulses);
    EndedTables(s, u);
    EndedSpaced(s, u);
  }

  /** Ending the last pulse now, with the last attempt now, keeps the pulses spaced. */
  lemma EndedSpaced(s: State, u: State)
    requires Spaced(s) && LastOk(s) && s.up && u.up && u.process == s.process && u.cool == s.cool
    requires s.pulses != [] && u.pulses == EndPulse(s.pulses, s.mono) && u.mono == s.mono && u.last == Some(s.mono)
    ensures Spaced(u) && LastOk(u)
  {
    var n := |s.pulses| - 1;
    assert forall k :: 0 <= k < n ==> u.pulses[k] == s.pulses[k];
    assert u.pulses[n] == s.pulses[n].(ended := Some(s.mono));
  }

  lemma PulsesEnded(p: seq<Pulse>, q: seq<Pulse>)
    requires |p| == |q| && forall k :: 0 <= k < |p| ==> q[k] == p[k].(ended := q[k].ended)
    ensures forall key :: HasPulse(p, key) ==> HasPulse(q, key)
  {
    forall key | HasPulse(p, key)
      ensures HasPulse(q, key)
    {
      var k :| 0 <= k < |p| && p[k].key == key;
      assert q[k].key == key;
    }
  }

  lemma EndedTables(s: State, u: State)
    requires TablesOk(s) && u.db == s.db && u.cool == s.cool && u.mono == s.mono && |u.pulses| == |s.pulses|
    requires forall k :: 0 <= k < |s.pulses| ==> u.pulses[k] == s.pulses[k].(ended := u.pulses[k].ended)
    requires forall key :: HasPulse(s.pulses, key) ==> HasPulse(u.pulses, key)
    ensures TablesOk(u)
  {
    forall k | 0 <= k < |u.pulses|
      ensures Backed(u.pulses[k], u.db.claims)
    {
      assert Backed(s.pulses[k], s.db.claims);
    }
  }

  lemma RaisesKeeps(s: State)
    requires Inv(s)
    ensures Inv(Next(s, TriggerRaises))
  {
  }

  lemma FinalizeKeeps(s: State, wall: int, fault: Fault)
    requires Inv(s)
    ensures Inv(Next(s, Finalize(wall, fault)))
  {
    if s.up && s.pc.Fired? {
      var Fired(call, id, t, pulsed) := s.pc;
      if pulsed {
        assert Backed(s.pulses[|s.pulses| - 1], s.db.claims);
        assert HasPulse(s.pulses, call.key);
      }
      FinalizeTables(s, id, FinalEvent(call, t, wall), FinalStatus(t), FinalDetail(t), call, Attempted(t),
                     Execution(t.activated, FinalEvent(call, t, wall).reason, None, FinalStatus(t), FinalDetail(t)),
                     fault);
    }
  }

  lemma PromptClaimKeeps(s: State, key: string, wall: int, fault: Fault)
    requires Inv(s) && s.up && s.prompt.None? && fault != RaisesBefore
    ensures Inv(PromptClaimStep(s, key, wall, fault))
  {
    var t := PromptClaimStep(s, key, wall, fault);
    if t.db.claims != s.db.claims {
      RowAppended(s, t.db.claims[|s.db.claims|]);
    } else {
      SameRows(s, t.db);
    }
    Frame(s, t);
    PcUntouched(s, t);
    if t.prompt.Some? {
      forall k | 0 <= k < |s.pulses|
        ensures s.pulses[k].claim != |s.db.claims|
      {
        assert Backed(s.pulses[k], s.db.claims);
      }
    }
  }

  /** The thread in `actuate` keeps what it knows while rows are added or other rows change. */
  lemma PcUntouched(s: State, t: State)
    requires PcOk(s) && t == s.(db := t.db, prompt := t.prompt) && s.up && |s.db.claims| <= |t.db.claims|
    requires Working(s.pc).Some? ==> t.db.claims[s.pc.id] == s.db.claims[s.pc.id]
    requires forall i :: 0 <= i < |t.db.claims| && t.db.claims[i].marker.Some? ==>
                           i < |s.db.claims| && t.db.claims[i].marker == s.db.claims[i].marker
    ensures PcOk(t)
  {
  }

  lemma PromptFinalizeKeeps(s: State, e: GateEvent, status: string, detail: Option<string>, fault: Fault)
    requires Inv(s) && s.up && s.prompt.Some?
    ensures Inv(PromptFinalizeStep(s, e, status, detail, fault))
  {
    var id := s.prompt.value.1;
    if FinalizeTx(s.db, id, e.(gateOpened := false), status, detail, None, None, false).Some? {
      RowFinalized(s, id, e.(gateOpened := false), status, detail, None, None, false);
    }
    var t := PromptFinalizeStep(s, e, status, detail, fault);
    Frame(s, t);
    PcUntouched(s, t);
  }

  lemma DeniedKeeps(s: State, e: GateEvent, payload: Option<Payload>)
    requires Inv(s)
    ensures Inv(Next(s, RecordDenied(e, payload)))
  {
    if s.up {
      EventRecorded(s, e.(gateOpened := false, relayActivatedAt := None), payload);
    }
  }

  lemma OutboxKeeps(s: State, outbox: seq<OutboxRow>, acks: map<string, Ack>)
    requires Inv(s)
    ensures Inv(Next(s, OutboxWork(outbox, acks)))
  {
    SameRows(s, s.db.(outbox := outbox, acks := acks));
  }

  /** The relay's part of `actuate`. */
  predicate IsRelayStep(c: Choice) {
    c.NoPulse? || c.PulseStarts? || c.TriggerReturns? || c.TriggerRaises?
  }

  lemma RelayStepKeeps(s: State, c: Choice)
    requires Inv(s) && IsRelayStep(c)
    ensures Inv(Next(s, c))
  {
    match c
    case NoPulse(t) => NoPulseKeeps(s, t);
    case PulseStarts =>
      if s.up && s.pc.Armed? {
        PulseStartsKeeps(s);
      }
    case TriggerReturns(t) =>
      if s.up && s.pc.Firing? && Attempted(t) {
        ReturnsKeeps(s, t);
      }
    case TriggerRaises => RaisesKeeps(s);
  }

  /** The steps outside `actuate`: clocks, processes, prompts and the other writers. */
  predicate IsOutside(c: Choice) {
    c.Tick? || c.Crash? || c.Reboot? || c.Start? || c.PromptClaim? || c.PromptFinalize? || c.RecordDenied?
    || c.OutboxWork?
  }

  lemma OutsideKeeps(s: State, c: Choice)
    requires Inv(s) && IsOutside(c)
    ensures Inv(Next(s, c))
  {
    match c
    case Tick(passed) => TickKeeps(s, passed);
    case Crash => CrashKeeps(s);
    case Reboot(uptime) => RebootKeeps(s, uptime);
    case Start(readable, fault) => StartKeeps(s, readable, fault);
    case PromptClaim(key, wall, fault) =>
      if s.up && s.prompt.None? && fault != RaisesBefore {
        PromptClaimKeeps(s, key, wall, fault);
      }
    case PromptFinalize(e, status, detail, fault) =>
      if s.up && s.prompt.Some? {
        PromptFinalizeKeeps(s, e, status, detail, fault);
      }
    case RecordDenied(e, payload) => DeniedKeeps(s, e, payload);
    case OutboxWork(outbox, acks) => OutboxKeeps(s, outbox, acks);
  }

  lemma NextKeeps(s: State, c: Choice)
    requires Inv(s)
    ensures Inv(Next(s, c))
  {
    if IsRelayStep(c) {
      RelayStepKeeps(s, c);
    } else if IsOutside(c) {
      OutsideKeeps(s, c);
    } else {
      StoreStepKeeps(s, c);
    }
  }

  lemma StoreStepKeeps(s: State, c: Choice)
    requires Inv(s) && !IsRelayStep(c) && !IsOutside(c)
    ensures Inv(Next(s, c))
  {
    match c
    case ReadTerminal(call, writes, fault) => ReadKeeps(s, call, writes, fault);
    case Claim(wall, fault) => ClaimKeeps(s, wall, fault);
    case RecordRefusal(fault) => RefusalKeeps(s, fault);
    case RefuseInProcess(fault) => InProcessKeeps(s, fault);
    case Mark(fault) => MarkKeeps(s, fault);
    case Finalize(wall, fault) => FinalizeKeeps(s, wall, fault);
  }
}
