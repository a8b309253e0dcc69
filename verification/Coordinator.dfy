/**
 `ActuationCoordinator.actuate` as sequential code over the store, under every fault the
 environment can choose. Each call is a run of the actuation machine, so everything proved of
 the machine's runs holds of it.
 */
module Coordinator {
  import opened Prelude
  import opened Store
  import opened StoreMeaning
  import opened Actuation

  datatype RelayAnswer =
    | Quiet(trigger: Trigger)      // trigger returned and the pin did not rise
    | Pulsed(trigger: Trigger)     // the pin rose and trigger returned
    | RaisedQuiet                  // trigger raised before the pin rose
    | RaisedPulsed                 // trigger raised after the pin rose

  /**
   Everything one call meets: clock readings, the fault of each store call, the relay, how many
   of the replay's two writes happen, and before which step the process dies (5 is the last).
   */
  datatype Environment = Environment(
    wallClaim: int, wallFinal: int, monoNow: real, monoAfter: real,
    readFault: Fault, replayWrites: nat, claimFault: Fault, decisionFault: Fault, markFault: Fault, finalFault: Fault,
    relay: RelayAnswer, dieBefore: nat)
  {
    /** What the relay guarantees of its answer. */
    predicate RelayContract() {
      match relay
      case Quiet(t) => !t.activated
      case Pulsed(t) => Attempted(t)
      case _ => true
    }

    /** No store call fails, the relay returns and the process lives. */
    predicate Healthy() {
      && readFault == Fine && claimFault == Fine && decisionFault == Fine && markFault == Fine && finalFault == Fine
      && replayWrites > 1 && (relay.Quiet? || relay.Pulsed?) && dieBefore > 5
    }
  }

  /** The step is one of this call's, with the faults, readings and answers that the environment gives it. */
  predicate Follows(c: Choice, call: Call, env: Environment) {
    match c
    case ReadTerminal(k, writes, fault) => k == call && writes == env.replayWrites && fault == env.readFault
    case Tick(_) => true
    case Claim(wall, fault) => wall == env.wallClaim && fault == env.claimFault
    case RecordRefusal(fault) => fault == env.decisionFault
    case RefuseInProcess(fault) => fault == env.decisionFault
    case Mark(fault) => fault == env.markFault
    case PulseStarts => env.relay.Pulsed? || env.relay.RaisedPulsed?
    case TriggerReturns(t) => env.relay == Pulsed(t)
    case NoPulse(t) => env.relay == Quiet(t)
    case TriggerRaises => env.relay.RaisedQuiet? || env.relay.RaisedPulsed?
    case Finalize(wall, fault) => wall == env.wallFinal && fault == env.finalFault
    case _ => false
  }

  /** The choices of one call: it begins by reading the stored outcome, and every step is its own. */
  ghost predicate Traced(cs: seq<Choice>, call: Call, env: Environment) {
    && (cs != [] ==> cs[0].ReadTerminal?)
    && forall i :: 0 <= i < |cs| ==> Follows(cs[i], call, env)
  }

  datatype Outcome = Returned(execution: Execution) | Raised | Died

  lemma {:induction false} RunAppend(s: State, cs: seq<Choice>, c: Choice)
    ensures Run(s, cs + [c]) == Next(Run(s, cs), c)
    decreases |cs|
  {
    if cs == [] {
      assert cs + [c] == [c] && [c][1..] == [];
    } else {
      assert (cs + [c])[1..] == cs[1..] + [c];
      RunAppend(Next(s, cs[0]), cs[1..], c);
    }
  }

  /** Where the machine stands after the store's answer to the claim. */
  ghost predicate Answers(t: State, call: Call, at: int, mono: real, claim: Result<ClaimResult, ()>) {
    match claim
    case Err(_) => t.pc.Idle? && t.reply == Some(Failed(INHIBIT_ERROR))
    case Ok(InCooldown) => t.pc == Refused(call, at)
    case Ok(Indeterminate) => t.pc.Idle? && t.reply == Some(Failed(INDETERMINATE))
    case Ok(DuplicateEvent) => t.pc.Idle? && t.reply == Some(Failed("duplicate_event"))
    case Ok(Claimed(id)) => t.pc == Held(call, id, at, mono)
  }

  /** The machine at `t` took the claim's tables and answer from `s`. */
  ghost predicate TookClaim(s: State, t: State, call: Call, at: int, db: Db, claim: Result<ClaimResult, ()>) {
    t.db == db && t == s.(db := db, pc := t.pc, reply := t.reply) && Answers(t, call, at, s.mono, claim)
  }

  function ClaimDb(tx: (Db, ClaimResult), before: Db, fault: Fault): Db {
    if fault == RaisesBefore then before else tx.0
  }

  function ClaimAnswer(tx: (Db, ClaimResult), fault: Fault): Result<ClaimResult, ()> {
    if fault == Fine then Ok(tx.1) else Err(())
  }

  lemma AfterClaimAnswers(s: State, call: Call, at: int, tx: (Db, ClaimResult), fault: Fault)
    requires !tx.1.Claimed? ==> tx.0 == s.db
    ensures TookClaim(s, AfterClaim(s, call, at, tx, fault), call, at, ClaimDb(tx, s.db, fault), ClaimAnswer(tx, fault))
  {
  }

  /** Without a fault, a key that is nowhere in the tables gets an answer with its event. */
  ghost predicate Fulfilled(env: Environment, events: seq<GateEvent>, key: string, outcome: Outcome) {
    env.Healthy() && !HasKey(events, Some(key)) ==> outcome.Returned? && outcome.execution.eventId.Some?
  }

  /** What the attempt's event and claim row say of the relay's answer `t`. */
  ghost predicate SaysTrigger(x: Execution, call: Call, t: Trigger) {
    && x.didOpen == t.activated && x.reason == (if t.activated then call.event.reason else t.reason)
    && x.status == (if t.inhibition.Some? then t.inhibition.value.0 else if t.activated then "completed" else "failed")
    && x.detail == (if t.inhibition.Some? then Some(t.inhibition.value.1) else if t.activated then None
                    else Some(t.reason))
  }

  /** An answer with an event says what the trigger said. */
  ghost predicate FiredAs(env: Environment, call: Call, outcome: Outcome) {
    outcome.Returned? && outcome.execution.eventId.Some? ==>
      (env.relay.Quiet? || env.relay.Pulsed?) && SaysTrigger(outcome.execution, call, env.relay.trigger)
  }

  ghost predicate CooledAs(outcome: Outcome) {
    outcome.Returned? && outcome.execution.eventId.Some? ==> TellsCooldown(outcome.execution)
  }

  /** The last attempt of this process lies less than `cooldown` microseconds back. */
  ghost predicate TooSoon(last: Option<real>, now: real, cooldown: nat) {
    last.Some? && now < last.value + cooldown as real / 1000000.0
  }

  /** A cooldown that starts: the trigger was neither inhibited nor latched. */
  ghost predicate Starts(env: Environment) {
    (env.relay.Quiet? || env.relay.Pulsed?) && env.relay.trigger.inhibition.None?
    && env.relay.trigger.reason != "relay_latched"
  }

  /** The process's last attempt: only an attempt moves it, to the clock after the trigger. */
  ghost predicate Timed(env: Environment, asked: bool, before: Option<real>, after: Option<real>) {
    && (after == before || (asked && Starts(env) && after == Some(env.monoAfter)))
    && (asked && Starts(env) && env.Healthy() ==> after == Some(env.monoAfter))
  }

  /** A cooldown answers with its refusal and no pulse; otherwise the trigger is asked, and answers. */
  ghost predicate Cooled(env: Environment, call: Call, outcome: Outcome, cooling: bool, before: nat, after: nat) {
    if cooling then CooledAs(outcome) && after == before
    else FiredAs(env, call, outcome) && (env.Healthy() && env.relay.Pulsed? ==> after == before + 1)
  }

  /** The answer to the claim, from the row that the key had and the store's cooldown. */
  ghost predicate ClaimTells(row: Option<ClaimRow>, cools: bool, db: Db, key: string, claim: Result<ClaimResult, ()>,
                             fault: Fault)
  {
    && (claim.Err? <==> fault != Fine)
    && (claim.Ok? ==>
          match row
          case Some(r) => claim.value == if r.finalized then DuplicateEvent else Indeterminate
          case None => if cools then claim.value.InCooldown? && RowOf(db, key).None?
          else claim.value.Claimed? && OpenRow(db, claim.value.id, key)
               && MarkerOf(db, claim.value.id).None?)
  }

  lemma ClaimTxTells(db: Db, key: string, at: int, cutoff: Cutoff, pending: Pending, fault: Fault)
    ensures var tx := ClaimTx(db, key, at, Some(cutoff), Some(pending));
            ClaimTells(RowOf(db, key), WasOpenedSince(db, cutoff.wall, Some(cutoff.mono), cutoff.boot),
                       ClaimDb(tx, db, fault), key, ClaimAnswer(tx, fault), fault)
  {
  }

  function MarkerOf(db: Db, id: nat): Option<Marker> {
    if id < |db.claims| then db.claims[id].marker else None
  }

  /** The final event and claim row for the relay's answer `t`: what the audit says of the attempt. */
  ghost predicate RecordsOutcome(before: Db, after: Db, id: nat, call: Call, t: Trigger, wall: int) {
    && id < |before.claims| && |after.claims| == |before.claims| && |after.events| == |before.events| + 1
    && var e := after.events[|before.events|];
    && var row := after.claims[id];
    && e.key == call.event.key && e.source == call.event.source && e.gateOpened == t.activated
    && e.reason == (if t.activated then call.event.reason else t.reason) && e.relayActivatedAt == t.activatedAt
    && e.decisionAt == (if t.inhibition.Some? then Some(wall) else call.event.decisionAt)
    && row.finalized && row.eventId == Some(|before.events|)
    && row.status == (if t.inhibition.Some? then t.inhibition.value.0 else if t.activated then "completed"
                      else "failed")
    && row.detail == (if t.inhibition.Some? then Some(t.inhibition.value.1) else if t.activated then None
                      else Some(t.reason))
    && (t.inhibition.Some? || t.reason == "relay_latched" ==> row.marker.None?)
    && (t.inhibition.None? && t.reason != "relay_latched" ==> row.marker == before.claims[id].marker)
  }

  lemma FinalizeRecords(before: Db, id: nat, call: Call, t: Trigger, wall: int)
    ensures var done := FinalizeTx(before, id, FinalEvent(call, t, wall), FinalStatus(t), FinalDetail(t),
                                   call.payload, call.ack, Attempted(t));
            done.Some? ==> RecordsOutcome(before, done.value.0, id, call, t, wall) && done.value.1 == |before.events|
  {
  }

  // ---- What a caller is told ------------------------------------------------------------

  ghost predicate RowTells(r: ClaimRow, key: string, id: nat, x: Execution) {
    r.key == key && r.finalized && r.eventId == Some(id) && r.status == x.status && r.detail == x.detail
  }

  /** The answer is what the tables say: opened and reason as in the event, status and detail as in the claim row. */
  ghost predicate TellsTables(db: Db, key: string, x: Execution) {
    && x.eventId.Some? && x.eventId.value < |db.events|
    && x.didOpen == db.events[x.eventId.value].gateOpened && x.reason == db.events[x.eventId.value].reason
    && exists k :: 0 <= k < |db.claims| && RowTells(db.claims[k], key, x.eventId.value, x)
  }

  /** The answer that replays a finalized row. */
  ghost predicate TellsRow(r: ClaimRow, x: Execution) {
    && !x.didOpen && x.eventId == r.eventId && x.status == r.status && x.detail == r.detail
    && x.reason == (if r.detail.Some? && r.detail.value != "" then r.detail.value else r.status)
  }

  ghost predicate Replays(before: Db, db: Db, call: Call, r: ClaimRow, x: Execution) {
    && TellsRow(r, x) && Acknowledged(db.acks, call.ack, r.status, r.detail)
    && db.claims == before.claims && db.events == before.events && OutboxKept(before.outbox, db.outbox)
    && (r.eventId.Some? ==> Queued(before.outbox, db.outbox, r.eventId.value, call.payload))
  }

  lemma ReplayQueues(before: Db, call: Call, r: ClaimRow)
    ensures var queued := if r.eventId.Some? then EnsureOutbox(before, r.eventId.value, call.payload) else before;
            var db := EnsureAck(queued, call.ack, r.status, r.detail);
            Replays(before, db, call, r, Replay(Terminal(r.status, r.detail, r.eventId)))
  {
    var queued := if r.eventId.Some? then EnsureOutbox(before, r.eventId.value, call.payload) else before;
    if r.eventId.Some? {
      OutboxMeaning(before, r.eventId.value, call.payload);
    }
    AckMeaning(queued, call.ack, r.status, r.detail);
  }

  /** A refusal without an event. */
  ghost predicate IsRefusal(x: Execution, reason: string) {
    !x.didOpen && x.reason == reason && x.eventId.None? && x.status == "failed" && x.detail == Some(reason)
  }

  ghost predicate TellsCooldown(x: Execution) {
    !x.didOpen && x.reason == "cooldown" && x.status == "failed" && x.detail == Some("cooldown")
  }

  /** The event of the answer is the call's; it is queued with the call's payload, and the command has its outcome. */
  ghost predicate Delivered(outbox: seq<OutboxRow>, db: Db, call: Call, x: Execution) {
    && x.eventId.Some? && Queued(outbox, db.outbox, x.eventId.value, call.payload)
    && Acknowledged(db.acks, call.ack, x.status, x.detail)
  }

  ghost predicate EventOfCall(db: Db, call: Call, id: nat) {
    && id < |db.events| && db.events[id].key == Some(call.key) && db.events[id].source == call.event.source
    && db.events[id].receivedAt == call.event.receivedAt && db.events[id].recognition == call.event.recognition
  }

  /** An answer of `actuate` to a call whose key had no outcome yet. */
  ghost predicate Told(outcome: Outcome, outbox: seq<OutboxRow>, db: Db, call: Call, refusal: string) {
    outcome.Returned? ==>
      var x := outcome.execution;
      if x.eventId.Some? then TellsTables(db, call.key, x) && Delivered(outbox, db, call, x)
                              && EventOfCall(db, call, x.eventId.value)
      else IsRefusal(x, refusal)
  }

  /** The reason of an answer without an event, from the claim row found and what failed. */
  function Refusal(env: Environment, row: Option<ClaimRow>, cooling: bool): string {
    if env.claimFault != Fine then "actuation_inhibit_error"
    else if row.Some? && row.value.finalized then "duplicate_event"
    else if row.Some? || cooling || env.markFault == Fine then "indeterminate_claim"
    else "actuation_inhibit_error"
  }

  function RowOf(db: Db, key: string): (row: Option<ClaimRow>)
    ensures row.Some? ==> row.value in db.claims && row.value.key == key
    ensures row.None? ==> forall r :: r in db.claims ==> r.key != key
  {
    var i := FindClaim(db.claims, key);
    if i < 0 then None else Some(db.claims[i])
  }

  /** The claim row is the call's own and still open. */
  ghost predicate OpenRow(db: Db, id: nat, key: string) {
    id < |db.claims| && db.claims[id].key == key && !db.claims[id].finalized
  }

  lemma FinalizedTells(db: Db, id: nat, e: GateEvent, status: string, detail: Option<string>, payload: Option<Payload>,
                       ack: Option<CommandAck>, retain: bool, x: Execution)
    requires var done := FinalizeTx(db, id, e, status, detail, payload, ack, retain);
             done.Some? && x == Execution(e.gateOpened, e.reason, Some(done.value.1), status, detail)
    ensures var after := FinalizeTx(db, id, e, status, detail, payload, ack, retain).value.0;
            && TellsTables(after, db.claims[id].key, x) && after.events == db.events + [e]
            && x.eventId == Some(|db.events|)
            && Queued(db.outbox, after.outbox, |db.events|, payload) && Acknowledged(after.acks, ack, status, detail)
  {
    FinalizeMeaning(db, id, e, status, detail, payload, ack, retain);
    var after := FinalizeTx(db, id, e, status, detail, payload, ack, retain).value.0;
    assert RowTells(after.claims[id], db.claims[id].key, |db.events|, x);
  }

  lemma RecordedTells(db: Db, e: GateEvent, key: string, status: string, detail: Option<string>,
                      payload: Option<Payload>, ack: Option<CommandAck>, x: Execution)
    requires FindClaim(db.claims, key) < 0
    requires var done := RecordTerminalTx(db, e, key, status, detail, payload, ack);
             done.Some? && x == Execution(e.gateOpened, e.reason, done.value.1, status, detail)
    ensures var after := RecordTerminalTx(db, e, key, status, detail, payload, ack).value.0;
            && TellsTables(after, key, x) && after.events == db.events + [e] && x.eventId == Some(|db.events|)
            && Queued(db.outbox, after.outbox, |db.events|, payload) && Acknowledged(after.acks, ack, status, detail)
  {
    RecordTerminalMeaning(db, e, key, status, detail, payload, ack);
    var after := RecordTerminalTx(db, e, key, status, detail, payload, ack).value.0;
    assert RowTells(after.claims[|db.claims|], key, |db.events|, x);
  }

  function AttemptAnswer(call: Call, t: Trigger, wall: int, eventId: nat): Execution {
    Execution(t.activated, FinalEvent(call, t, wall).reason, Some(eventId), FinalStatus(t), FinalDetail(t))
  }

  /** What the caller is told of the attempt is what the transaction wrote and what the trigger said. */
  lemma AttemptTells(db: Db, id: nat, call: Call, t: Trigger, wall: int)
    requires OpenRow(db, id, call.key) && call.Valid()
    ensures var done := FinalizeTx(db, id, FinalEvent(call, t, wall), FinalStatus(t), FinalDetail(t),
                                   call.payload, call.ack, Attempted(t));
            if done.None? then HasKey(db.events, call.event.key) else
            var x := AttemptAnswer(call, t, wall, done.value.1);
            && RecordsOutcome(db, done.value.0, id, call, t, wall) && SaysTrigger(x, call, t)
            && Told(Returned(x), db.outbox, done.value.0, call, "indeterminate_claim")
  {
    var e := FinalEvent(call, t, wall);
    FinalizeMeaning(db, id, e, FinalStatus(t), FinalDetail(t), call.payload, call.ack, Attempted(t));
    var done := FinalizeTx(db, id, e, FinalStatus(t), FinalDetail(t), call.payload, call.ack, Attempted(t));
    if done.Some? {
      FinalizeRecords(db, id, call, t, wall);
      FinalizedTells(db, id, e, FinalStatus(t), FinalDetail(t), call.payload, call.ack, Attempted(t),
                     AttemptAnswer(call, t, wall, done.value.1));
    }
  }

  class ActuationCoordinator {
    const store: LocalStore
    const cooldown: nat
    const bootId: Option<nat>
    var lastAttemptMonotonic: Option<real>
    ghost var machine: State

    /** The object is the machine's `actuate` thread between two calls. */
    ghost predicate Valid()
      reads this, store
    {
      && machine.up && machine.pc.Idle? && machine.cool == cooldown && machine.BootId() == bootId
      && machine.last == lastAttemptMonotonic && machine.db == store.Tables()
    }

    /** A coordinator of a process that has just started, after recovery. */
    constructor (store: LocalStore, cooldown: nat, bootId: Option<nat>, ghost started: State)
      requires started.up && started.pc.Idle? && started.last.None? && started.cool == cooldown
      requires started.BootId() == bootId && started.db == store.Tables()
      ensures Valid() && this.store == store && machine == started
    {
      this.store, this.cooldown, this.bootId := store, cooldown, bootId;
      lastAttemptMonotonic := None;
      machine := started;
    }

    ghost method Step(c: Choice, call: Call, env: Environment, was: State, cs: seq<Choice>) returns (cs': seq<Choice>)
      requires machine == Run(was, cs) && Traced(cs, call, env) && Follows(c, call, env)
               && (cs == [] ==> c.ReadTerminal?)
      modifies this`machine
      ensures machine == Next(old(machine), c) && cs' == cs + [c] && machine == Run(was, cs') && Traced(cs', call, env)
    {
      RunAppend(was, cs, c);
      machine := Next(machine, c);
      cs' := cs + [c];
    }

    method Actuate(call: Call, env: Environment) returns (outcome: Outcome, ghost choices: seq<Choice>)
      requires Valid() && call.Valid() && env.RelayContract()
      requires machine.mono <= env.monoNow <= env.monoAfter
      modifies this, store
      ensures machine == Run(old(machine), choices) && machine.db == store.Tables() && Traced(choices, call, env)
      ensures outcome != Died ==> Valid() && choices != []
      ensures outcome == Died ==> env.dieBefore <= 5
      ensures outcome.Returned? ==> machine.reply == Some(outcome.execution)
      ensures outcome == Raised ==> machine.reply == None
      ensures match RowOf(old(store.Tables()), call.key)
              case Some(row) =>
                outcome.Returned? ==>
                  if row.finalized then Replays(old(store.Tables()), store.Tables(), call, row, outcome.execution)
                  else IsRefusal(outcome.execution, if env.claimFault == Fine then "indeterminate_claim"
                                 else "actuation_inhibit_error")
              case None =>
                && Told(outcome, old(store.outbox), store.Tables(), call,
                        Refusal(env, None, TooSoon(old(lastAttemptMonotonic), env.monoNow, cooldown)))
                && Fulfilled(env, old(store.events), call.key, outcome)
                && Cooled(env, call, outcome, old(Cooling(call, env)), |old(machine.pulses)|, |machine.pulses|)
                && Timed(env, old(!Cooling(call, env)), old(lastAttemptMonotonic), lastAttemptMonotonic)
      ensures RowOf(old(store.Tables()), call.key).Some? ==> lastAttemptMonotonic == old(lastAttemptMonotonic)
    {
      ghost var was := machine;
      choices := [];
      if env.dieBefore == 0 { return Died, choices; }
      if env.readFault != Fine {
        choices := Step(ReadTerminal(call, env.replayWrites, env.readFault), call, env, was, choices);
        return Raised, choices;
      }
      var terminal := TerminalOutcome(store.Tables(), call.key);
      if terminal.Some? {
        outcome, choices := ReplayStored(call, env, terminal.value);
        return;
      }
      choices := Step(ReadTerminal(call, env.replayWrites, env.readFault), call, env, was, choices);
      choices := Step(Tick(env.monoNow - machine.mono), call, env, was, choices);
      if env.dieBefore == 1 { return Died, choices; }
      outcome, choices := ClaimAndFire(call, env, was, choices);
    }

    method ReplayStored(call: Call, env: Environment, terminal: Terminal)
      returns (outcome: Outcome, ghost choices: seq<Choice>)
      requires Valid() && call.Valid() && env.readFault == Fine
      requires TerminalOutcome(store.Tables(), call.key) == Some(terminal)
      modifies this, store
      ensures Valid() && machine == Run(old(machine), choices) && Traced(choices, call, env) && choices != []
      ensures outcome == if machine.reply.Some? then Returned(machine.reply.value) else Raised
      ensures var row := RowOf(old(store.Tables()), call.key);
              && row.Some? && row.value.finalized
              && (outcome.Returned? ==> Replays(old(store.Tables()), store.Tables(), call, row.value,
                                                outcome.execution))
      ensures outcome == Raised <==> env.replayWrites <= 1
      ensures lastAttemptMonotonic == old(lastAttemptMonotonic)
    {
      ReplayQueues(store.Tables(), call, RowOf(store.Tables(), call.key).value);
      choices := Step(ReadTerminal(call, env.replayWrites, env.readFault), call, env, machine, []);
      if env.replayWrites > 0 && terminal.eventId.Some? {
        store.EnsureOutboxRow(terminal.eventId.value, call.payload);
      }
      if env.replayWrites <= 1 { return Raised, choices; }
      store.EnsureCommandAck(call.ack, terminal.status, terminal.detail);
      outcome := Returned(Replay(terminal));
    }

    /** The part of the object that stays fixed during a call. */
    ghost predicate InStep(call: Call, env: Environment, was: State, choices: seq<Choice>)
      reads this, store
    {
      && machine.up && machine.cool == cooldown && machine.BootId() == bootId && env.RelayContract() && call.Valid()
      && machine.last == lastAttemptMonotonic && machine.db == store.Tables() && machine == Run(was, choices)
      && Traced(choices, call, env) && choices != [] && env.monoNow <= machine.mono <= env.monoAfter
    }

    /** The call's run has ended: returned, raised, or cut off by the death of the process. */
    ghost predicate Ended(call: Call, env: Environment, was: State, choices: seq<Choice>, outcome: Outcome)
      reads this, store
    {
      && machine == Run(was, choices) && machine.db == store.Tables() && Traced(choices, call, env) && choices != []
      && (outcome != Died ==> Valid()) && (outcome == Died ==> env.dieBefore <= 5)
      && (outcome.Returned? ==> machine.reply == Some(outcome.execution))
      && (outcome == Raised ==> machine.reply == None)
    }

    method ClaimAndFire(call: Call, env: Environment, ghost was: State, ghost before: seq<Choice>)
      returns (outcome: Outcome, ghost choices: seq<Choice>)
      requires InStep(call, env, was, before) && machine.pc == Open(call) && machine.mono == env.monoNow
      modifies this, store
      ensures Ended(call, env, was, choices, outcome)
      ensures match RowOf(old(store.Tables()), call.key)
              case Some(row) => outcome.Returned? ==> IsRefusal(outcome.execution, Refusal(env, Some(row), false))
              case None =>
                && Told(outcome, old(store.outbox), store.Tables(), call,
                        Refusal(env, None, TooSoon(old(lastAttemptMonotonic), env.monoNow, cooldown)))
                && Fulfilled(env, old(store.events), call.key, outcome)
                && Cooled(env, call, outcome, old(Cooling(call, env)), |old(machine.pulses)|, |machine.pulses|)
                && Timed(env, old(!Cooling(call, env)), old(lastAttemptMonotonic), lastAttemptMonotonic)
      ensures RowOf(old(store.Tables()), call.key).Some? ==> lastAttemptMonotonic == old(lastAttemptMonotonic)
    {
      var at := if call.event.decisionAt.Some? then call.event.decisionAt.value else env.wallClaim;
      ghost var cools := StoreCooling(store.Tables(), at, env.monoNow);
      ghost var row := RowOf(store.Tables(), call.key);
      var claim;
      claim, choices := ClaimRowFor(call, env, at, was, before);
      outcome, choices := FollowClaim(call, env, at, claim, row, cools, was, choices);
    }

    method FollowClaim(call: Call, env: Environment, at: int, claim: Result<ClaimResult, ()>,
                       ghost row: Option<ClaimRow>, ghost cools: bool, ghost was: State, ghost before: seq<Choice>)
      returns (outcome: Outcome, ghost choices: seq<Choice>)
      requires InStep(call, env, was, before) && Answers(machine, call, at, env.monoNow, claim)
      requires ClaimTells(row, cools, store.Tables(), call.key, claim, env.claimFault)
      modifies this, store
      ensures Ended(call, env, was, choices, outcome)
      ensures match row
              case Some(r) => outcome.Returned? ==> IsRefusal(outcome.execution, Refusal(env, row, false))
              case None =>
                && Told(outcome, old(store.outbox), store.Tables(), call,
                        Refusal(env, None, TooSoon(old(lastAttemptMonotonic), env.monoNow, cooldown)))
                && Fulfilled(env, old(store.events), call.key, outcome)
                && (var cooling := cools || TooSoon(old(lastAttemptMonotonic), env.monoNow, cooldown);
                    && Cooled(env, call, outcome, cooling, |old(machine.pulses)|, |machine.pulses|)
                    && Timed(env, !cooling, old(lastAttemptMonotonic), lastAttemptMonotonic))
      ensures row.Some? ==> lastAttemptMonotonic == old(lastAttemptMonotonic)
    {
      choices := before;
      if claim.Err? {
        return Returned(Failed(INHIBIT_ERROR)), choices;
      }
      if env.dieBefore == 2 { return Died, choices; }
      match claim.value {
        case InCooldown => outcome, choices := Refuse(call, env, at, was, choices);
        case Indeterminate => outcome := Returned(Failed(INDETERMINATE));
        case DuplicateEvent => outcome := Returned(Failed("duplicate_event"));
        case Claimed(id) => outcome, choices := UseClaim(call, env, id, at, was, choices);
      }
    }

    method UseClaim(call: Call, env: Environment, id: nat, at: int, ghost was: State, ghost before: seq<Choice>)
      returns (outcome: Outcome, ghost choices: seq<Choice>)
      requires InStep(call, env, was, before) && machine.pc == Held(call, id, at, env.monoNow)
      requires OpenRow(store.Tables(), id, call.key) && MarkerOf(store.Tables(), id).None?
      modifies this, store
      ensures Ended(call, env, was, choices, outcome)
      ensures var cooling := TooSoon(old(lastAttemptMonotonic), env.monoNow, cooldown);
              && Told(outcome, old(store.outbox), store.Tables(), call,
                      if cooling || env.markFault == Fine then "indeterminate_claim" else "actuation_inhibit_error")
              && Cooled(env, call, outcome, cooling, |old(machine.pulses)|, |machine.pulses|)
              && Timed(env, !cooling, old(lastAttemptMonotonic), lastAttemptMonotonic)
      ensures Fulfilled(env, old(store.events), call.key, outcome)
    {
      if ProcessCools(env.monoNow) {
        outcome, choices := RefuseHeld(call, env, id, at, was, before);
      } else {
        outcome, choices := MarkAndFire(call, env, id, at, was, before);
      }
    }

    function CooldownSeconds(): real {
      cooldown as real / 1000000.0
    }

    predicate ProcessCools(now: real)
      reads this
    {
      lastAttemptMonotonic.Some? && now - lastAttemptMonotonic.value < CooldownSeconds()
    }

    /** The cooldown refuses the call: the store's for a claim that did not fail, or the process's own. */
    ghost predicate Cooling(call: Call, env: Environment)
      reads this, store
    {
      var at := if call.event.decisionAt.Some? then call.event.decisionAt.value else env.wallClaim;
      StoreCooling(store.Tables(), at, env.monoNow) || TooSoon(lastAttemptMonotonic, env.monoNow, cooldown)
    }

    ghost predicate StoreCooling(db: Db, at: int, mono: real)
      reads this
    {
      WasOpenedSince(db, at - cooldown, Some(mono - cooldown as real / 1000000.0), bootId)
    }

    method ClaimRowFor(call: Call, env: Environment, at: int, ghost was: State, ghost before: seq<Choice>)
      returns (claim: Result<ClaimResult, ()>, ghost choices: seq<Choice>)
      requires InStep(call, env, was, before) && machine.pc == Open(call) && machine.mono == env.monoNow
      requires at == if call.event.decisionAt.Some? then call.event.decisionAt.value else env.wallClaim
      modifies this`machine, store
      ensures InStep(call, env, was, choices) && machine.pulses == old(machine.pulses)
      ensures Answers(machine, call, at, env.monoNow, claim)
      ensures store.Tables() == old(store.Tables()).(claims := store.claims)
      ensures ClaimTells(RowOf(old(store.Tables()), call.key), StoreCooling(old(store.Tables()), at, env.monoNow),
                         store.Tables(), call.key, claim, env.claimFault)
    {
      var cutoff := Cutoff(at - cooldown, env.monoNow - CooldownSeconds(), bootId);
      ghost var tx := ClaimTx(machine.db, call.key, at, Some(cutoff),
                              Some(PendingOf(call.event, call.payload, call.ack)));
      AfterClaimAnswers(machine, call, at, tx, env.claimFault);
      ClaimTxTells(machine.db, call.key, at, cutoff, PendingOf(call.event, call.payload, call.ack), env.claimFault);
      choices := ClaimStepped(call, env, at, tx, was, before);
      claim := store.ClaimActuation(call.key, at, Some(cutoff), Some(PendingOf(call.event, call.payload, call.ack)),
                                    env.claimFault);
    }

    ghost method ClaimStepped(call: Call, env: Environment, at: int, tx: (Db, ClaimResult), was: State,
                              before: seq<Choice>)
      returns (choices: seq<Choice>)
      requires InStep(call, env, was, before) && machine.pc == Open(call)
      requires at == if call.event.decisionAt.Some? then call.event.decisionAt.value else env.wallClaim
      requires tx == ClaimTx(machine.db, call.key, at,
                             Some(Cutoff(at - machine.cool, machine.mono - machine.Cool(), machine.BootId())),
                             Some(PendingOf(call.event, call.payload, call.ack)))
      modifies this`machine
      ensures machine == AfterClaim(old(machine), call, at, tx, env.claimFault) && machine == Run(was, choices)
      ensures Traced(choices, call, env) && choices != []
    {
      choices := Step(Claim(env.wallClaim, env.claimFault), call, env, was, before);
    }

    method Refuse(call: Call, env: Environment, at: int, ghost was: State, ghost before: seq<Choice>)
      returns (outcome: Outcome, ghost choices: seq<Choice>)
      requires InStep(call, env, was, before) && machine.pc == Refused(call, at)
      requires RowOf(store.Tables(), call.key).None?
      modifies this`machine, store
      ensures InStep(call, env, was, choices) && machine.pc.Idle? && machine.pulses == old(machine.pulses)
      ensures outcome == if machine.reply.Some? then Returned(machine.reply.value) else Raised
      ensures outcome.Returned? ==> outcome.execution.eventId.Some?
      ensures Told(outcome, old(store.outbox), store.Tables(), call, "") && CooledAs(outcome)
      ensures env.decisionFault == Fine && !HasKey(old(store.events), call.event.key) ==> outcome.Returned?
    {
      ghost var db := store.Tables();
      choices := Step(RecordRefusal(env.decisionFault), call, env, was, before);
      var recorded := store.RecordTerminalOutcome(CooldownEvent(call, at), call.key, FAILED, Some(COOLDOWN),
                                                  call.payload, call.ack, env.decisionFault);
      if recorded.Err? {
        RecordTerminalMeaning(db, CooldownEvent(call, at), call.key, FAILED, Some(COOLDOWN), call.payload, call.ack);
        return Raised, choices;
      }
      var execution := Execution(false, COOLDOWN, recorded.value, FAILED, Some(COOLDOWN));
      RecordedTells(db, CooldownEvent(call, at), call.key, FAILED, Some(COOLDOWN), call.payload, call.ack, execution);
      outcome := Returned(execution);
    }

    method RefuseHeld(call: Call, env: Environment, id: nat, at: int, ghost was: State, ghost before: seq<Choice>)
      returns (outcome: Outcome, ghost choices: seq<Choice>)
      requires InStep(call, env, was, before) && machine.pc == Held(call, id, at, env.monoNow)
               && ProcessCooling(machine, env.monoNow)
      requires OpenRow(store.Tables(), id, call.key)
      modifies this`machine, store
      ensures InStep(call, env, was, choices) && machine.pc.Idle? && machine.pulses == old(machine.pulses)
      ensures outcome.Returned? && machine.reply == Some(outcome.execution)
      ensures Told(outcome, old(store.outbox), store.Tables(), call, "indeterminate_claim") && CooledAs(outcome)
      ensures env.decisionFault == Fine && !HasKey(old(store.events), call.event.key) ==>
                outcome.execution.eventId.Some?
    {
      ghost var db := store.Tables();
      var e := CooldownEvent(call, at);
      choices := Step(RefuseInProcess(env.decisionFault), call, env, was, before);
      var refused := store.FinalizeActuation(id, e, FAILED, Some(COOLDOWN), call.payload, call.ack, true,
                                             env.decisionFault);
      if refused.Err? {
        FinalizeMeaning(db, id, e, FAILED, Some(COOLDOWN), call.payload, call.ack, true);
        return Returned(Failed(INDETERMINATE)), choices;
      }
      var x := Execution(false, COOLDOWN, Some(refused.value), FAILED, Some(COOLDOWN));
      FinalizedTells(db, id, e, FAILED, Some(COOLDOWN), call.payload, call.ack, true, x);
      outcome := Returned(x);
    }

    /** The relay is only triggered once the marker is durable, and whatever follows a pulse keeps its marker. */
    method MarkAndFire(call: Call, env: Environment, id: nat, at: int, ghost was: State, ghost before: seq<Choice>)
      returns (outcome: Outcome, ghost choices: seq<Choice>)
      requires InStep(call, env, was, before) && machine.pc == Held(call, id, at, env.monoNow)
               && !ProcessCooling(machine, env.monoNow)
      requires OpenRow(store.Tables(), id, call.key) && MarkerOf(store.Tables(), id).None?
      modifies this, store
      ensures Ended(call, env, was, choices, outcome)
      ensures |machine.pulses| > |old(machine.pulses)| ==>
                env.markFault == Fine && MarkerOf(store.Tables(), id) == Some(Marker(at, env.monoNow, bootId))
      ensures Told(outcome, old(store.outbox), store.Tables(), call,
                   if env.markFault == Fine then "indeterminate_claim" else "actuation_inhibit_error")
      ensures env.Healthy() && env.relay.Pulsed? ==> |machine.pulses| == |old(machine.pulses)| + 1
      ensures FiredAs(env, call, outcome)
      ensures Fulfilled(env, old(store.events), call.key, outcome)
      ensures Timed(env, true, old(lastAttemptMonotonic), lastAttemptMonotonic)
    {
      var marked;
      marked, choices := MarkRow(call, env, id, at, was, before);
      if !marked {
        return Returned(Failed(INHIBIT_ERROR)), choices;
      }
      if env.dieBefore == 3 { return Died, choices; }
      outcome, choices := FireRelay(call, env, id, was, choices);
    }

    method MarkRow(call: Call, env: Environment, id: nat, at: int, ghost was: State, ghost before: seq<Choice>)
      returns (marked: bool, ghost choices: seq<Choice>)
      requires InStep(call, env, was, before) && machine.pc == Held(call, id, at, env.monoNow)
               && !ProcessCooling(machine, env.monoNow)
      requires OpenRow(store.Tables(), id, call.key) && MarkerOf(store.Tables(), id).None?
      modifies this`machine, store
      ensures InStep(call, env, was, choices)
      ensures marked ==> machine.pc == Armed(call, id, at, env.monoNow)
      ensures machine.pulses == old(machine.pulses) && (marked <==> env.markFault == Fine)
      ensures store.Tables() == old(store.Tables()).(claims := store.claims)
      ensures OpenRow(store.Tables(), id, call.key)
      ensures marked ==> MarkerOf(store.Tables(), id) == Some(Marker(at, env.monoNow, bootId))
      ensures !marked ==> machine.pc.Idle? && machine.reply == Some(Failed(INHIBIT_ERROR))
    {
      choices := Step(Mark(env.markFault), call, env, was, before);
      var r := store.MarkActuationAttempt(id, Marker(at, env.monoNow, bootId),
                                          PendingOf(call.event, call.payload, call.ack), env.markFault);
      marked := r.Ok?;
    }

    method FireRelay(call: Call, env: Environment, id: nat, ghost was: State, ghost before: seq<Choice>)
      returns (outcome: Outcome, ghost choices: seq<Choice>)
      requires InStep(call, env, was, before) && machine.pc.Armed? && machine.pc.call == call && machine.pc.id == id
      requires OpenRow(store.Tables(), id, call.key)
      modifies this, store
      ensures Ended(call, env, was, choices, outcome)
      ensures |machine.pulses| > |old(machine.pulses)| ==>
                MarkerOf(store.Tables(), id) == MarkerOf(old(store.Tables()), id)
      ensures Told(outcome, old(store.outbox), store.Tables(), call, "indeterminate_claim")
      ensures FiredAs(env, call, outcome)
      ensures Fulfilled(env, old(store.events), call.key, outcome)
      ensures env.Healthy() && env.relay.Pulsed? ==> |machine.pulses| == |old(machine.pulses)| + 1
      ensures Timed(env, true, old(lastAttemptMonotonic), lastAttemptMonotonic)
    {
      choices := before;
      if env.relay.Pulsed? || env.relay.RaisedPulsed? {
        choices := Step(PulseStarts, call, env, was, choices);
      }
      if env.dieBefore == 4 { return Died, choices; }
      choices := Step(Tick(env.monoAfter - machine.mono), call, env, was, choices);
      if env.relay.RaisedQuiet? || env.relay.RaisedPulsed? {
        choices := Step(TriggerRaises, call, env, was, choices);
        return Raised, choices;
      }
      outcome, choices := Conclude(call, env, id, was, choices);
    }

    method Conclude(call: Call, env: Environment, id: nat, ghost was: State, ghost before: seq<Choice>)
      returns (outcome: Outcome, ghost choices: seq<Choice>)
      requires InStep(call, env, was, before) && machine.mono == env.monoAfter
               && (env.relay.Quiet? || env.relay.Pulsed?)
      requires if env.relay.Pulsed? then machine.pc.Firing? else machine.pc.Armed?
      requires machine.pc.call == call && machine.pc.id == id && OpenRow(store.Tables(), id, call.key)
      modifies this, store
      ensures Ended(call, env, was, choices, outcome)
      ensures |machine.pulses| == |old(machine.pulses)|
      ensures env.relay.Pulsed? ==> MarkerOf(store.Tables(), id) == MarkerOf(old(store.Tables()), id)
      ensures Told(outcome, old(store.outbox), store.Tables(), call, "indeterminate_claim")
      ensures FiredAs(env, call, outcome)
      ensures Fulfilled(env, old(store.events), call.key, outcome)
      ensures Timed(env, true, old(lastAttemptMonotonic), lastAttemptMonotonic)
    {
      var t := env.relay.trigger;
      choices := Step(if env.relay.Pulsed? then TriggerReturns(t) else NoPulse(t), call, env, was, before);
      if t.inhibition.None? && t.reason != LATCHED {
        lastAttemptMonotonic := Some(env.monoAfter);
      }
      if env.dieBefore == 5 { return Died, choices; }
      outcome, choices := FinalizeFired(call, env, id, t, was, choices);
    }

    method FinalizeFired(call: Call, env: Environment, id: nat, t: Trigger, ghost was: State, ghost before: seq<Choice>)
      returns (outcome: Outcome, ghost choices: seq<Choice>)
      requires InStep(call, env, was, before) && machine.pc.Fired? && machine.pc.call == call && machine.pc.id == id
               && machine.pc.trigger == t
      requires OpenRow(store.Tables(), id, call.key)
      modifies this`machine, store
      ensures InStep(call, env, was, choices) && machine.pc.Idle? && machine.pulses == old(machine.pulses)
      ensures outcome.Returned? && machine.reply == Some(outcome.execution)
      ensures store.Tables() == old(store.Tables())
              || RecordsOutcome(old(store.Tables()), store.Tables(), id, call, t, env.wallFinal)
      ensures outcome.execution.eventId.Some? ==> RecordsOutcome(old(store.Tables()), store.Tables(), id, call, t,
                                                                 env.wallFinal)
      ensures Attempted(t) ==> MarkerOf(store.Tables(), id) == MarkerOf(old(store.Tables()), id)
      ensures Told(outcome, old(store.outbox), store.Tables(), call, "indeterminate_claim")
      ensures outcome.execution.eventId.Some? ==> SaysTrigger(outcome.execution, call, t)
      ensures env.finalFault == Fine && !HasKey(old(store.events), call.event.key) ==> outcome.execution.eventId.Some?
    {
      AttemptTells(store.Tables(), id, call, t, env.wallFinal);
      choices := Step(Finalize(env.wallFinal, env.finalFault), call, env, was, before);
      var finalized := store.FinalizeActuation(id, FinalEvent(call, t, env.wallFinal), FinalStatus(t), FinalDetail(t),
                                               call.payload, call.ack, Attempted(t), env.finalFault);
      if finalized.Err? { return Returned(Failed(INDETERMINATE)), choices; }
      outcome := Returned(AttemptAnswer(call, t, env.wallFinal, finalized.value));
    }
  }
}
