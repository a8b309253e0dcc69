/** What holds over every run of the actuation machine, from its first start. */
module ActuationSafety {
  import opened Prelude
  import opened Store
  import opened StoreMeaning
  import opened Actuation

  lemma InitialInv(s: State)
    requires Initial(s)
    ensures Inv(s)
  {
  }

  lemma {:induction false} RunKeeps(s: State, choices: seq<Choice>)
    requires Inv(s)
    ensures Inv(Run(s, choices))
    decreases |choices|
  {
    if choices != [] {
      NextKeeps(s, choices[0]);
      RunKeeps(Next(s, choices[0]), choices[1..]);
    }
  }

  lemma {:induction false} RunKeepsConfig(s: State, choices: seq<Choice>)
    ensures Run(s, choices).cool == s.cool
    decreases |choices|
  {
    if choices != [] {
      StepKeepsConfig(s, choices[0]);
      RunKeepsConfig(Next(s, choices[0]), choices[1..]);
    }
  }

  lemma StepKeepsConfig(s: State, c: Choice)
    ensures Next(s, c).cool == s.cool
  {
  }

  function Distance(x: int, y: int): int {
    if x < y then y - x else x - y
  }

  function Gap(x: real, y: real): real {
    if x < y then y - x else x - y
  }

  /** Retained attempt markers are pairwise more than the cooldown apart in wall time. */
  lemma MarkersApartInWallTime(s: State, choices: seq<Choice>, i: nat, j: nat)
    requires Initial(s)
    requires var claims := Run(s, choices).db.claims;
             i < j < |claims| && claims[i].marker.Some? && claims[j].marker.Some?
    ensures var claims := Run(s, choices).db.claims;
            Distance(claims[i].marker.value.at, claims[j].marker.value.at) > s.cool
  {
    InitialInv(s);
    RunKeeps(s, choices);
    RunKeepsConfig(s, choices);
    var t := Run(s, choices);
    assert Apart(t.db.claims[i].marker.value, t.db.claims[j].marker.value, t.cool);
  }

  /**
   Two pulses of one known boot, in one process or across restarts and whatever the wall clock
   did, have claim-time monotonic readings more than the cooldown apart.
   */
  lemma PulsesApartInOneBoot(s: State, choices: seq<Choice>, j: nat, k: nat)
    requires Initial(s)
    requires var pulses := Run(s, choices).pulses;
             j < k < |pulses| && pulses[j].boot.Some? && pulses[j].boot == pulses[k].boot
    ensures var pulses := Run(s, choices).pulses;
            Gap(pulses[j].mono, pulses[k].mono) > s.Cool()
  {
    InitialInv(s);
    RunKeeps(s, choices);
    RunKeepsConfig(s, choices);
    var t := Run(s, choices);
    var p, q := t.pulses[j], t.pulses[k];
    assert Backed(p, t.db.claims) && Backed(q, t.db.claims);
    var m, n := Marker(p.at, p.mono, p.boot), Marker(q.at, q.mono, q.boot);
    if p.claim < q.claim {
      assert Apart(m, n, t.cool);
    } else {
      assert Apart(n, m, t.cool);
    }
  }

  /** Within one process, a pulse is claimed no sooner than a cooldown after every earlier pulse ended. */
  lemma PulsesSpacedInOneProcess(s: State, choices: seq<Choice>, j: nat, k: nat)
    requires Initial(s)
    requires var pulses := Run(s, choices).pulses;
             j < k < |pulses| && pulses[j].process == pulses[k].process && pulses[j].ended.Some?
    ensures var pulses := Run(s, choices).pulses;
            pulses[k].mono >= pulses[j].ended.value + s.Cool()
  {
    InitialInv(s);
    RunKeeps(s, choices);
    RunKeepsConfig(s, choices);
    var t := Run(s, choices);
    assert EndedBefore(t.pulses[j], t.pulses[k].process, t.pulses[k].mono, t.cool);
  }

  /** At most one pulse per idempotency key, over any calls, exceptions, crashes and restarts. */
  lemma AtMostOnePulsePerKey(s: State, choices: seq<Choice>, j: nat, k: nat)
    requires Initial(s)
    requires j < |Run(s, choices).pulses| && k < |Run(s, choices).pulses|
    requires Run(s, choices).pulses[j].key == Run(s, choices).pulses[k].key
    ensures j == k
  {
    InitialInv(s);
    RunKeeps(s, choices);
    var t := Run(s, choices);
    var p, q := t.pulses[j], t.pulses[k];
    assert Backed(p, t.db.claims) && Backed(q, t.db.claims);
    assert p.claim == q.claim;
  }

  /** The audit tells the truth: an opened event with a key has its pulse, and a pulse has its claim and marker. */
  lemma AuditTruth(s: State, choices: seq<Choice>)
    requires Initial(s)
    ensures var t := Run(s, choices);
            && (forall e :: 0 <= e < |t.db.events| && t.db.events[e].gateOpened && t.db.events[e].key.Some? ==>
                              HasPulse(t.pulses, t.db.events[e].key.value))
            && (forall k :: 0 <= k < |t.pulses| ==> Backed(t.pulses[k], t.db.claims))
  {
    InitialInv(s);
    RunKeeps(s, choices);
  }

  // ---- Finalized outcomes -------------------------------------------------------------

  /** Finalized claims and recorded events stay as they are; keys stay in their rows. */
  ghost predicate Preserves(a: Db, b: Db) {
    && |a.claims| <= |b.claims| && |a.events| <= |b.events|
    && (forall i :: 0 <= i < |a.claims| ==> b.claims[i].key == a.claims[i].key
                                            && (a.claims[i].finalized ==> b.claims[i] == a.claims[i]))
    && (forall i :: 0 <= i < |a.events| ==> b.events[i] == a.events[i])
  }

  lemma FinalizePreserves(db: Db, id: nat, e: GateEvent, status: string, detail: Option<string>,
                          payload: Option<Payload>, ack: Option<CommandAck>, retain: bool)
    requires FinalizeTx(db, id, e, status, detail, payload, ack, retain).Some?
    ensures Preserves(db, FinalizeTx(db, id, e, status, detail, payload, ack, retain).value.0)
  {
  }

  lemma TerminalPreserves(db: Db, e: GateEvent, key: string, status: string, detail: Option<string>,
                          payload: Option<Payload>, ack: Option<CommandAck>)
    requires RecordTerminalTx(db, e, key, status, detail, payload, ack).Some?
    ensures Preserves(db, RecordTerminalTx(db, e, key, status, detail, payload, ack).value.0)
  {
  }

  lemma RecoveryPreserves(db: Db)
    ensures Preserves(db, RecoverTx(db))
  {
    RecoverySettles(db);
    var r := RecoverTx(db);
    forall i | 0 <= i < |db.events|
      ensures r.events[i] == db.events[i]
    {
      assert r.events[..|db.events|][i] == db.events[i];
    }
  }

  lemma NextPreserves(s: State, c: Choice)
    ensures Preserves(s.db, Next(s, c).db)
  {
    if QuietForTables(c) {
      QuietPreserves(s, c);
    } else {
      WritingPreserves(s, c);
    }
  }

  /** Steps that write no table. */
  predicate QuietForTables(c: Choice) {
    c.Tick? || c.Crash? || c.Reboot? || c.NoPulse? || c.PulseStarts? || c.TriggerReturns? || c.TriggerRaises?
  }

  lemma QuietPreserves(s: State, c: Choice)
    requires QuietForTables(c)
    ensures Next(s, c).db == s.db
  {
  }

  lemma WritingPreserves(s: State, c: Choice)
    requires !QuietForTables(c)
    ensures Preserves(s.db, Next(s, c).db)
  {
    match c
    case Start(_, fault) => RecoveryPreserves(s.db);
    case ReadTerminal(call, writes, fault) => ReadPreserves(s, call, writes, fault);
    case Claim(wall, fault) => ClaimPreserves(s, wall, fault);
    case RecordRefusal(fault) => RefusalPreserves(s, fault);
    case RefuseInProcess(_) => FinalizingPreserves(s, c);
    case Finalize(_, _) => FinalizingPreserves(s, c);
    case PromptFinalize(_, _, _, _) => FinalizingPreserves(s, c);
    case _ =>
  }

  lemma ReadPreserves(s: State, call: Call, writes: nat, fault: Fault)
    ensures Preserves(s.db, Next(s, ReadTerminal(call, writes, fault)).db)
  {
    if TerminalOutcome(s.db, call.key).Some? {
      ReplayRows(s.db, call, TerminalOutcome(s.db, call.key).value, writes);
    }
  }

  lemma ClaimPreserves(s: State, wall: int, fault: Fault)
    ensures Preserves(s.db, Next(s, Claim(wall, fault)).db)
  {
    if s.pc.Open? {
      ClaimHasShape(s, s.pc.call, wall, fault);
    }
  }

  lemma RefusalPreserves(s: State, fault: Fault)
    ensures Preserves(s.db, Next(s, RecordRefusal(fault)).db)
  {
    if s.pc.Refused? && Next(s, RecordRefusal(fault)).db != s.db {
      var call := s.pc.call;
      TerminalPreserves(s.db, CooldownEvent(call, s.pc.at), call.key, FAILED, Some(COOLDOWN), call.payload, call.ack);
    }
  }

  lemma FinalizingPreserves(s: State, c: Choice)
    requires c.RefuseInProcess? || c.Finalize? || c.PromptFinalize?
    ensures Preserves(s.db, Next(s, c).db)
  {
    match c
    case RefuseInProcess(fault) =>
      if s.pc.Held? && Next(s, c).db != s.db {
        var call := s.pc.call;
        FinalizePreserves(s.db, s.pc.id, CooldownEvent(call, s.pc.at), FAILED, Some(COOLDOWN), call.payload, call.ack,
                          true);
      }
    case Finalize(wall, fault) =>
      if s.pc.Fired? && Next(s, c).db != s.db {
        var Fired(call, id, t, _) := s.pc;
        FinalizePreserves(s.db, id, FinalEvent(call, t, wall), FinalStatus(t), FinalDetail(t), call.payload, call.ack,
                          Attempted(t));
      }
    case PromptFinalize(e, status, detail, fault) =>
      if s.prompt.Some? && Next(s, c).db != s.db {
        FinalizePreserves(s.db, s.prompt.value.1, e.(gateOpened := false), status, detail, None, None, false);
      }
    case _ =>
  }

  lemma PreservesTransitive(a: Db, b: Db, c: Db)
    requires Preserves(a, b) && Preserves(b, c)
    ensures Preserves(a, c)
  {
  }

  /** A finalized outcome never changes and a recorded event is never rewritten, over any run. */
  lemma {:induction false} OutcomesAreForever(s: State, choices: seq<Choice>)
    ensures Preserves(s.db, Run(s, choices).db)
    decreases |choices|
  {
    if choices != [] {
      NextPreserves(s, choices[0]);
      OutcomesAreForever(Next(s, choices[0]), choices[1..]);
      PreservesTransitive(s.db, Next(s, choices[0]).db, Run(s, choices).db);
    }
  }

  lemma UniqueClaim(claims: seq<ClaimRow>, i: nat)
    requires KeysUnique(claims) && i < |claims|
    ensures FindClaim(claims, claims[i].key) == i
  {
  }

  /**
   Once a claim is finalized, every later call with its key, in this process or after any restart,
   is answered from the stored row, and the answer's step leaves the relay alone.
   */
  lemma ReplayedForever(s: State, choices: seq<Choice>, i: nat, call: Call)
    requires Inv(s) && i < |s.db.claims| && s.db.claims[i].finalized && call.Valid() && call.key == s.db.claims[i].key
    requires Run(s, choices).up && Run(s, choices).pc.Idle?
    ensures var t := Run(s, choices);
            var u := Next(t, ReadTerminal(call, 2, Fine));
            var row := s.db.claims[i];
            && u.pc.Idle? && u.pulses == t.pulses && u.last == t.last && u.db.claims == t.db.claims
            && u.reply == Some(Replay(Terminal(row.status, row.detail, row.eventId)))
  {
    RunKeeps(s, choices);
    OutcomesAreForever(s, choices);
    var t := Run(s, choices);
    UniqueClaim(t.db.claims, i);
    ReplayRows(t.db, call, Terminal(s.db.claims[i].status, s.db.claims[i].detail, s.db.claims[i].eventId), 2);
  }

  lemma PulsesOnlyGrow(s: State, c: Choice, i: nat)
    requires Inv(s) && i < |s.db.claims| && s.db.claims[i].finalized
    ensures |s.pulses| <= |Next(s, c).pulses|
    ensures forall k :: |s.pulses| <= k < |Next(s, c).pulses| ==> Next(s, c).pulses[k].claim != i
  {
    if !c.PulseStarts? && !c.TriggerReturns? {
      OthersLeavePulses(s, c);
    }
  }

  lemma OthersLeavePulses(s: State, c: Choice)
    requires !c.PulseStarts? && !c.TriggerReturns?
    ensures Next(s, c).pulses == s.pulses
  {
  }

  /** A finalized claim is never pulsed again. */
  lemma {:induction false} NoPulseAfterFinal(s: State, choices: seq<Choice>, i: nat)
    requires Inv(s) && i < |s.db.claims| && s.db.claims[i].finalized
    ensures |s.pulses| <= |Run(s, choices).pulses|
    ensures forall k :: |s.pulses| <= k < |Run(s, choices).pulses| ==> Run(s, choices).pulses[k].claim != i
    decreases |choices|
  {
    if choices != [] {
      var t := Next(s, choices[0]);
      NextKeeps(s, choices[0]);
      NextPreserves(s, choices[0]);
      PulsesOnlyGrow(s, choices[0], i);
      NoPulseAfterFinal(t, choices[1..], i);
      RunPulsesFixed(t, choices[1..]);
    }
  }

  lemma {:induction false} RunPulsesFixed(s: State, choices: seq<Choice>)
    ensures |s.pulses| <= |Run(s, choices).pulses|
    ensures forall k :: 0 <= k < |s.pulses| ==> Run(s, choices).pulses[k].claim == s.pulses[k].claim
    decreases |choices|
  {
    if choices != [] {
      StepPulsesFixed(s, choices[0]);
      RunPulsesFixed(Next(s, choices[0]), choices[1..]);
    }
  }

  lemma StepPulsesFixed(s: State, c: Choice)
    ensures |s.pulses| <= |Next(s, c).pulses|
    ensures forall k :: 0 <= k < |s.pulses| ==> Next(s, c).pulses[k].claim == s.pulses[k].claim
  {
    if !c.PulseStarts? && !c.TriggerReturns? {
      OthersLeavePulses(s, c);
    }
  }

  // ---- The cooldown query --------------------------------------------------------------

  /** A marker, or an opening, is within the cooldown by wall time. */
  ghost predicate RecentByWall(s: State, at: int) {
    || (exists i :: 0 <= i < |s.db.claims| && MarkedSince(s.db.claims[i], at - s.cool))
    || (exists e :: 0 <= e < |s.db.events| && OpenedSince(s.db.events[e], at - s.cool))
  }

  predicate MarkedSince(r: ClaimRow, cutoff: int) {
    r.marker.Some? && r.marker.value.at >= cutoff
  }

  /** By the activation time if there is one, else by the receipt of an event that opened the gate. */
  predicate OpenedSince(e: GateEvent, cutoff: int) {
    match e.relayActivatedAt
    case Some(activated) => activated >= cutoff
    case None => e.gateOpened && e.receivedAt >= cutoff
  }

  /** An attempt of this boot is within the cooldown by the monotonic clock. */
  ghost predicate RecentInBoot(s: State) {
    exists i :: 0 <= i < |s.db.claims| && MarkedInBoot(s.db.claims[i], s.boot, s.mono - s.Cool())
  }

  predicate MarkedInBoot(r: ClaimRow, boot: nat, cutoff: real) {
    r.marker.Some? && r.marker.value.boot == Some(boot) && r.marker.value.mono >= cutoff
  }

  ghost predicate SomeKnownMarker(s: State) {
    exists i :: 0 <= i < |s.db.claims| && MarkedInSomeBoot(s.db.claims[i])
  }

  predicate MarkedInSomeBoot(r: ClaimRow) {
    r.marker.Some? && r.marker.value.boot.Some?
  }

  ghost predicate CooldownHolds(s: State, at: int) {
    RecentByWall(s, at) || (s.known && (RecentInBoot(s) || (s.mono < s.Cool() && SomeKnownMarker(s))))
  }

  /**
   What the two boot queries and the wall-clock queries decide together: a new key is refused exactly
   when something is recent by wall time, or this known boot attempted within the cooldown, or this
   known boot is younger than the cooldown and any marker of a known boot is retained.
   */
  lemma CooldownQueryMeaning(s: State, at: int)
    requires Inv(s)
    ensures WasOpenedSince(s.db, at - s.cool, Some(s.mono - s.Cool()), s.BootId()) <==> CooldownHolds(s, at)
  {
    WallQueryMeaning(s.db, at - s.cool);
    if s.known {
      BootQueryMeaning(s);
    }
  }

  lemma WallQueryMeaning(db: Db, cutoff: int)
    ensures (exists i :: 0 <= i < |db.claims| && AttemptAtOrAfter(db.claims[i], cutoff))
       <==> (exists i :: 0 <= i < |db.claims| && MarkedSince(db.claims[i], cutoff))
    ensures (exists e :: 0 <= e < |db.events| && OpenedAtOrAfter(db.events[e], cutoff))
       <==> (exists e :: 0 <= e < |db.events| && OpenedSince(db.events[e], cutoff))
  {
    forall i | 0 <= i < |db.claims|
      ensures AttemptAtOrAfter(db.claims[i], cutoff) <==> MarkedSince(db.claims[i], cutoff)
    {
    }
    forall e | 0 <= e < |db.events|
      ensures OpenedAtOrAfter(db.events[e], cutoff) <==> OpenedSince(db.events[e], cutoff)
    {
    }
  }

  lemma BootQueryMeaning(s: State)
    requires Inv(s) && s.known
    ensures ((exists i :: 0 <= i < |s.db.claims| && SameBootAttempt(s.db.claims[i], s.boot, s.mono - s.Cool()))
             || (LatestKnown(s.db.claims) >= 0
                 && s.db.claims[LatestKnown(s.db.claims)].marker.value.boot != Some(s.boot)
                 && s.mono - s.Cool() < 0.0))
       <==> RecentInBoot(s) || (s.mono < s.Cool() && SomeKnownMarker(s))
  {
    var latest := LatestKnown(s.db.claims);
    forall i | 0 <= i < |s.db.claims|
      ensures SameBootAttempt(s.db.claims[i], s.boot, s.mono - s.Cool()) <==>
              MarkedInBoot(s.db.claims[i], s.boot, s.mono - s.Cool())
      ensures KnownMarker(s.db.claims[i]) <==> MarkedInSomeBoot(s.db.claims[i])
    {
    }
    if s.mono < s.Cool() && latest >= 0 && s.db.claims[latest].marker.value.boot == Some(s.boot) {
      assert MarkedInBoot(s.db.claims[latest], s.boot, s.mono - s.Cool());
    }
  }

  /**
   The claim of a key without a claim row succeeds exactly when no cooldown holds, and is refused
   exactly when one does.
   */
  lemma ClaimDecision(s: State, call: Call, wall: int)
    requires Inv(s) && s.pc == Open(call) && forall i :: 0 <= i < |s.db.claims| ==> s.db.claims[i].key != call.key
    ensures var at := if call.event.decisionAt.Some? then call.event.decisionAt.value else wall;
            var t := ClaimStep(s, wall, Fine);
            && (t.pc == Held(call, |s.db.claims|, at, s.mono) <==> !CooldownHolds(s, at))
            && (t.pc == Refused(call, at) <==> CooldownHolds(s, at))
  {
    CooldownQueryMeaning(s, if call.event.decisionAt.Some? then call.event.decisionAt.value else wall);
  }

  /** While a known boot is younger than the cooldown, a retained marker of any known boot blocks every new claim. */
  lemma RebootInhibits(s: State, call: Call, wall: int, fault: Fault)
    requires Inv(s) && s.up && s.pc == Open(call) && s.known && s.mono < s.Cool() && SomeKnownMarker(s)
    ensures var t := Next(s, Claim(wall, fault));
            t.db.claims == s.db.claims && !t.pc.Held? && t.pulses == s.pulses
  {
    var at := if call.event.decisionAt.Some? then call.event.decisionAt.value else wall;
    CooldownQueryMeaning(s, at);
    InhibitedClaim(s, call, wall, fault, at);
  }

  lemma InhibitedClaim(s: State, call: Call, wall: int, fault: Fault, at: int)
    requires s.up && s.pc == Open(call)
    requires at == if call.event.decisionAt.Some? then call.event.decisionAt.value else wall
    requires WasOpenedSince(s.db, at - s.cool, Some(s.mono - s.Cool()), s.BootId())
    ensures var t := Next(s, Claim(wall, fault));
            t.db.claims == s.db.claims && !t.pc.Held? && t.pulses == s.pulses
  {
    InhibitedStep(s, call, wall, fault, at);
  }

  lemma InhibitedStep(s: State, call: Call, wall: int, fault: Fault, at: int)
    requires s.pc == Open(call)
    requires at == if call.event.decisionAt.Some? then call.event.decisionAt.value else wall
    requires WasOpenedSince(s.db, at - s.cool, Some(s.mono - s.Cool()), s.BootId())
    ensures var t := ClaimStep(s, wall, fault); t.db == s.db && !t.pc.Held? && t.pulses == s.pulses
  {
  }

  // ---- Recovery --------------------------------------------------------------------------

  /**
   What recovery makes of a claim row: a final outcome stays, an open claim fails with its reason
   and keeps its marker.
   */
  ghost predicate Audited(before: ClaimRow, after: ClaimRow) {
    && after.finalized && after.marker == before.marker
    && (if before.finalized then after == before
        else after.status == "failed" && after.detail == Some(ReasonFor(before)))
  }

  /**
   However an actuation was interrupted, by a crash or by a store call that raised before or
   after its commit: the next completed start leaves every claim with an attempt marker, and so
   the claim of every pulse ever made, finalized. It keeps its earlier outcome or fails as
   indeterminate, and its marker stays. A recoverable claim without a marker fails as interrupted.
   */
  lemma InterruptionIsAudited(s: State, choices: seq<Choice>, bootReadable: bool)
    requires Initial(s) && !Run(s, choices).up
    ensures var t := Run(s, choices);
            var u := Next(t, Start(bootReadable, Fine));
            && |t.db.claims| <= |u.db.claims| && u.pulses == t.pulses
            && (forall i :: 0 <= i < |t.db.claims| && (t.db.claims[i].marker.Some? || Recoverable(t.db.claims[i])) ==>
                              Audited(t.db.claims[i], u.db.claims[i]))
            && (forall k :: 0 <= k < |u.pulses| ==>
                              Backed(u.pulses[k], u.db.claims)
                              && Audited(t.db.claims[u.pulses[k].claim], u.db.claims[u.pulses[k].claim]))
            && (forall i :: 0 <= i < |t.db.claims| && Recoverable(t.db.claims[i]) ==>
                              RecoveredAs(t.db, u.db, i) && CommandFailed(t.db, u.db, i))
  {
    InitialInv(s);
    RunKeeps(s, choices);
    var t := Run(s, choices);
    RecoverySettles(t.db);
    forall i | 0 <= i < |t.db.claims| && (t.db.claims[i].marker.Some? || Recoverable(t.db.claims[i]))
      ensures Audited(t.db.claims[i], RecoverTx(t.db).claims[i])
    {
      RecoveredAudited(t.db, i);
    }
    forall i | 0 <= i < |t.db.claims| && Recoverable(t.db.claims[i])
      ensures RecoveredAs(t.db, RecoverTx(t.db), i) && CommandFailed(t.db, RecoverTx(t.db), i)
    {
      OwnPendingsDistinct(t.db.claims);
      RecoveryMeaning(t.db, i);
    }
    forall k | 0 <= k < |t.pulses|
      ensures Backed(t.pulses[k], RecoverTx(t.db).claims)
    {
      assert Backed(t.pulses[k], t.db.claims);
      RecoveryPreserves(t.db);
    }
  }

  lemma OwnPendingsDistinct(claims: seq<ClaimRow>)
    requires KeysUnique(claims) && PendingOwn(claims)
    ensures PendingDistinct(claims)
  {
    forall i, j | 0 <= i < j < |claims| && Recoverable(claims[i]) && Recoverable(claims[j])
      ensures claims[i].pending.value.event.key != claims[j].pending.value.event.key
    {
      assert OwnPending(claims[i]) && OwnPending(claims[j]);
    }
  }

  /**
   A process that dies inside `actuate` with its claim row written: the next completed start reports
   this call. Its row is failed, for `indeterminate_claim` exactly when the marker is durable, and names
   an event of the call's key; unless that key had an event, the event holds the call's fields under that
   reason and did not open the gate; it is queued when the call had a payload.
   */
  lemma CrashIsReported(s: State, choices: seq<Choice>, bootReadable: bool)
    requires Initial(s) && Working(Run(s, choices).pc).Some?
    ensures var t := Run(s, choices);
            var u := Next(Next(t, Crash), Start(bootReadable, Fine));
            && t.pc.id < |t.db.claims| && t.pc.id < |u.db.claims|
            && var call, row := t.pc.call, u.db.claims[t.pc.id];
            var reason := if t.db.claims[t.pc.id].marker.Some? then "indeterminate_claim"
                          else "interrupted_before_activation";
            && row.finalized && row.status == "failed" && row.detail == Some(reason)
            && row.eventId.Some? && row.eventId.value < |u.db.events|
            && u.db.events[row.eventId.value].key == call.event.key
            && (!HasKey(t.db.events, call.event.key) ==> AuditEvent(call.event, u.db.events[row.eventId.value], reason))
            && Queued(t.db.outbox, u.db.outbox, row.eventId.value, call.payload)
  {
    InitialInv(s);
    RunKeeps(s, choices);
    var t := Run(s, choices);
    OwnPendingsDistinct(t.db.claims);
    RecoveryMeaning(t.db, t.pc.id);
  }

  lemma RecoveredAudited(db: Db, i: nat)
    requires i < |db.claims| && (db.claims[i].finalized || Recoverable(db.claims[i]))
    ensures i < |RecoverTx(db).claims| && Audited(db.claims[i], RecoverTx(db).claims[i])
  {
    RecoverySettles(db);
    if Recoverable(db.claims[i]) {
      RecoveredRow(db, 0, i);
    }
  }

  lemma {:induction false} RecoveredRow(db: Db, i: nat, id: nat)
    requires i <= id < |db.claims| && Recoverable(db.claims[id])
    ensures var row := RecoverFrom(db, i).claims[id];
            row.finalized && row.status == FAILED && row.marker == db.claims[id].marker
            && row.detail == Some(RecoveryReason(db.claims[id]))
    decreases |db.claims| - i
  {
    RecoverRowSettles(db, i);
    RecoverFromSettles(RecoverRow(db, i), i + 1);
    if i < id {
      RecoveredRow(RecoverRow(db, i), i + 1, id);
    }
  }

  /** After a completed start no decodable pending claim is open and no outbox row waits for telemetry. */
  lemma StartLeavesNothingPending(s: State, bootReadable: bool)
    requires !s.up
    ensures var t := Next(s, Start(bootReadable, Fine));
            && t.up
            && (forall i :: 0 <= i < |t.db.claims| ==> !Recoverable(t.db.claims[i]))
            && (forall k :: 0 <= k < |t.db.outbox| ==>
                              t.db.outbox[k].completed || t.db.outbox[k].state != AwaitingTelemetry)
  {
    RecoverySettles(s.db);
  }
}
