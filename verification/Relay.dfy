/**
 The relay interlock: one `trigger` call at a time, any number of `begin_shutdown` calls, one
 boundary lock, a latch nobody resets, and an `off()` that may fail. Each step is what one
 thread does between two points where another thread can run.
 */
module Relay {
  import opened Prelude
  import opened Guards

  datatype Call = Call(id: nat, guard: Guard, reports: bool)

  /** How the `try` block of `trigger` was left; `base` means by more than an `Exception`. */
  datatype Exit = Ended | Failed(base: bool)

  datatype TriggerPc =
    | TIdle
    | TFirst(call: Call)                              // about to evaluate the check a first time
    | TLatch(call: Call)                              // about to read the latch
    | TEnter(call: Call)                              // about to take the boundary
    | TCheck(call: Call)                              // in the boundary, about to check again
    | TRaise(call: Call)                              // in the boundary, about to drive the pin high
    | TRegister(call: Call)                           // in the boundary, about to store the callback
    | TNotify(call: Call)                             // on_activation is running
    | TSleep(call: Call)
    | TOffEnter(call: Call, exit: Exit)               // about to take the boundary
    | TOff(call: Call, exit: Exit, left: nat)         // in the boundary, `left` attempts to go
    | TTake(call: Call, exit: Exit)                   // in the boundary, the pin was switched off
    | TReport(call: Call, exit: Exit, taken: Option<nat>)  // about to run the callback it took
    | TReporting(call: Call, exit: Exit, cb: nat)
    | TWait(call: Call)                               // in `wait_until_notified`
    | TJam(call: Call, exit: Exit)                    // every attempt failed, about to set the latch

  /** A `begin_shutdown` call and the reporter thread it may start. */
  datatype WorkerPc =
    | WEnter
    | WFlag                                           // in the boundary, about to set the flag
    | WLatch                                          // in the boundary, about to set the latch
    | WOff(left: nat)
    | WTake
    | WHeld(cb: nat)                                  // left the boundary with a callback
    | WSpawn(cb: nat)                                 // saw that activation was not notified yet
    | WWait(cb: nat)                                  // in `_AfterEvent.__call__`, before the callback
    | WReporting(cb: nat)
    | WDone

  datatype Owner = Nobody | Trigger | Worker(k: nat)

  datatype Check = Check(call: Call, section: nat, reading: Reading, shut: bool)

  /** A write of HIGH to the pin; `check` is the index of the check made just before. */
  datatype Rise = Rise(id: nat, section: nat, check: nat, wasHigh: bool)

  datatype Answer =
    | Refused(detail: string)
    | Activated
    | RelayError
    | DeenergizeError
    | Raised

  datatype Reply = Reply(id: nat, answer: Answer)

  /** `section` numbers the times the boundary was taken; the logs are read by no step. */
  datatype State = State(
    high: bool, latched: bool, shut: bool, active: Option<nat>, owner: Owner, offAttempts: nat,
    t: TriggerPc, workers: seq<WorkerPc>, notified: set<nat>, reported: set<nat>, reply: Option<Reply>, calls: nat,
    section: nat, checks: seq<Check>, rises: seq<Rise>, shutSection: Option<nat>, ran: seq<nat>)

  /** What one step meets; a step reads only the part it needs. */
  datatype Meets = Meets(reading: Reading, throws: bool, base: bool, effect: Fault)

  datatype Choice =
    | Begin(guard: Guard, reports: bool)
    | TriggerStep(meets: Meets)
    | Shutdown
    | WorkerStep(k: nat, meets: Meets)

  const LATCHED := "relay_latched"

  /** `activation_inhibition` inside `trigger`: the caller's check, then the shutdown flag. */
  function FullInhibition(g: Guard, r: Reading, shut: bool): Option<string> {
    var i := Inhibition(g, r);
    if i.Some? then Some(i.value.1) else if shut then Some(LATCHED) else None
  }

  function Leave(s: State, answer: Answer): State
    requires !s.t.TIdle?
  {
    s.(t := TIdle, reply := Some(Reply(s.t.call.id, answer)))
  }

  function FirstStep(s: State, m: Meets): State
    requires s.t.TFirst?
  {
    var i := FullInhibition(s.t.call.guard, m.reading, s.shut);
    if m.throws then Leave(s, Raised)
    else if i.Some? then Leave(s, Refused(i.value))
    else s.(t := TLatch(s.t.call))
  }

  /** `Relay.on`: the check and the pin write are in one hold of the boundary. */
  function CheckStep(s: State, m: Meets): State
    requires s.t.TCheck?
  {
    var call := s.t.call;
    var i := FullInhibition(call.guard, m.reading, s.shut);
    if m.throws then s.(owner := Nobody, t := TOffEnter(call, Failed(m.base)))
    else if i.Some? then Leave(s.(owner := Nobody), Refused(i.value))
    else s.(t := TRaise(call), checks := s.checks + [Check(call, s.section, m.reading, s.shut)])
  }

  function RaiseStep(s: State, m: Meets): State
    requires s.t.TRaise? && s.checks != []
  {
    var call := s.t.call;
    var risen := s.(high := true, rises := s.rises + [Rise(call.id, s.section, |s.checks| - 1, s.high)]);
    match m.effect
    case Fine => risen.(t := TRegister(call))
    case RaisesBefore => s.(owner := Nobody, t := TOffEnter(call, Failed(m.base)))
    case RaisesAfter => risen.(owner := Nobody, t := TOffEnter(call, Failed(m.base)))
  }

  function OffEffect(s: State, m: Meets): State {
    if m.effect == RaisesBefore then s else s.(high := false)
  }

  function OffStep(s: State, m: Meets): State
    requires s.t.TOff?
  {
    var TOff(call, exit, left) := s.t;
    if left == 0 then s.(owner := Nobody, t := TJam(call, exit))
    else OffEffect(s, m).(t := if m.effect == Fine then TTake(call, exit) else TOff(call, exit, left - 1))
  }

  /** After the callback: the error answers return at once, a pulse that ended waits. */
  function Concluded(s: State, call: Call, exit: Exit): State
    requires !s.t.TIdle? && s.t.call == call
  {
    match exit
    case Failed(base) => Leave(s, if base then Raised else RelayError)
    case Ended => if call.reports then s.(t := TWait(call)) else Leave(s, Activated)
  }

  function TriggerNext(s: State, m: Meets): State
    requires s.t.TRaise? ==> s.checks != []
  {
    match s.t
    case TIdle => s
    case TFirst(call) => FirstStep(s, m)
    case TLatch(call) => if s.latched then Leave(s, Refused(LATCHED)) else s.(t := TEnter(call))
    case TEnter(call) => if s.owner.Nobody? then s.(owner := Trigger, section := s.section + 1, t := TCheck(call))
    else s
    case TCheck(_) => CheckStep(s, m)
    case TRaise(_) => RaiseStep(s, m)
    case TRegister(call) => s.(owner := Nobody, active := if call.reports then Some(call.id)
    else None, t := TNotify(call))
    case TNotify(call) => s.(notified := s.notified + {call.id}, t := if m.throws then TOffEnter(call, Failed(m.base))
    else TSleep(call))
    case TSleep(call) => s.(t := TOffEnter(call, if m.throws then Failed(m.base) else Ended))
    case TOffEnter(call, exit) =>
      if s.owner.Nobody? then s.(owner := Trigger, section := s.section + 1, t := TOff(call, exit, s.offAttempts))
      else s
    case TOff(_, _, _) => OffStep(s, m)
    case TTake(call, exit) => s.(owner := Nobody, active := None, t := TReport(call, exit, s.active))
    case TReport(call, exit, cb) =>
      if cb.None? then Concluded(s, call, exit)
      else if cb.value in s.notified then s.(ran := s.ran + [cb.value], t := TReporting(call, exit, cb.value))
      else s
    case TReporting(call, exit, cb) => Concluded(s.(reported := s.reported + {cb}), call, exit)
    case TWait(call) => if call.id in s.reported then Leave(s, Activated) else s
    case TJam(call, exit) => Leave(s.(latched := true), if exit == Failed(true) then Raised else DeenergizeError)
  }

  function SetWorker(s: State, k: nat, w: WorkerPc): State
    requires k < |s.workers|
  {
    s.(workers := s.workers[k := w])
  }

  function WorkerOffStep(s: State, k: nat, m: Meets): State
    requires k < |s.workers| && s.workers[k].WOff?
  {
    var left := s.workers[k].left;
    if left == 0 then SetWorker(s.(owner := Nobody), k, WDone)
    else SetWorker(OffEffect(s, m), k, if m.effect == Fine then WTake else WOff(left - 1))
  }

  function WorkerNext(s: State, k: nat, m: Meets): State
    requires k < |s.workers|
  {
    match s.workers[k]
    case WEnter => if s.owner.Nobody? then SetWorker(s.(owner := Worker(k), section := s.section + 1), k, WFlag) else s
    case WFlag => SetWorker(s.(shut := true, shutSection := if s.shutSection.None? then Some(s.section)
                            else s.shutSection), k, WLatch)
    case WLatch => SetWorker(s.(latched := true), k, WOff(s.offAttempts))
    case WOff(_) => WorkerOffStep(s, k, m)
    case WTake => SetWorker(s.(owner := Nobody, active := None), k, if s.active.None? then WDone
                            else WHeld(s.active.value))
    case WHeld(cb) => SetWorker(s, k, if cb in s.notified then WWait(cb) else WSpawn(cb))
    case WSpawn(cb) => if m.throws then SetWorker(s.(reported := s.reported + {cb}), k, WDone)
    else SetWorker(s, k, WWait(cb))
    case WWait(cb) => if cb in s.notified then SetWorker(s.(ran := s.ran + [cb]), k, WReporting(cb)) else s
    case WReporting(cb) => SetWorker(s.(reported := s.reported + {cb}), k, WDone)
    case WDone => s
  }

  function Next(s: State, c: Choice): State {
    match c
    case Begin(guard, reports) =>
      if s.t.TIdle? then s.(t := TFirst(Call(s.calls, guard, reports)), calls := s.calls + 1, reply := None) else s
    case TriggerStep(m) => if s.t.TRaise? && s.checks == [] then s else TriggerNext(s, m)
    case Shutdown => s.(workers := s.workers + [WEnter])
    case WorkerStep(k, m) => if k < |s.workers| then WorkerNext(s, k, m) else s
  }

  function Run(s: State, choices: seq<Choice>): State
    decreases |choices|
  {
    if choices == [] then s else Run(Next(s, choices[0]), choices[1..])
  }

  /** What the constructor leaves: it tried to switch the pin off, and latched if that failed. */
  predicate Constructed(s: State) {
    && (s.high ==> s.latched) && !s.shut && s.active == None && s.owner == Nobody && s.offAttempts > 0
    && s.t == TIdle && s.workers == [] && s.notified == {} && s.reported == {} && s.reply == None && s.calls == 0
    && s.section == 0 && s.checks == [] && s.rises == [] && s.shutSection == None && s.ran == []
  }

  // ---- Invariants -------------------------------------------------------------------------

  predicate InBoundary(w: WorkerPc) {
    w.WFlag? || w.WLatch? || w.WOff? || w.WTake?
  }

  predicate TriggerInBoundary(t: TriggerPc) {
    t.TCheck? || t.TRaise? || t.TRegister? || t.TOff? || t.TTake?
  }

  /** Exactly the worker that owns the boundary stands inside it. */
  ghost predicate WorkersHold(workers: seq<WorkerPc>, owner: Owner) {
    && (forall k :: 0 <= k < |workers| ==> (owner == Worker(k) <==> InBoundary(workers[k])))
    && (owner.Worker? ==> owner.k < |workers|)
  }

  ghost predicate LockOk(s: State) {
    (s.owner.Trigger? <==> TriggerInBoundary(s.t)) && WorkersHold(s.workers, s.owner)
  }

  /** Past the latch check and before the pin is driven high. */
  predicate Before(t: TriggerPc) {
    t.TEnter? || t.TCheck? || t.TRaise?
  }

  /** The steps in which the pin may be high without the latch. */
  predicate Energised(t: TriggerPc) {
    t.TRegister? || t.TNotify? || t.TSleep? || t.TOffEnter? || t.TOff? || t.TJam?
  }

  predicate PinOk(s: State) {
    && (s.high ==> s.latched || Energised(s.t))
    && (Before(s.t) ==> !s.high)
    && (s.t.TTake? || s.t.TReport? || s.t.TReporting? || s.t.TWait? ==> !s.high)
    && (s.t.TIdle? && s.reply.Some? && (s.reply.value.answer.Activated? || s.reply.value.answer.RelayError?) ==>
          !s.high)
    && (s.t.TIdle? && s.reply.Some? && s.reply.value.answer.DeenergizeError? ==> s.latched)
  }

  /** The check at index `r.check` let the rise `r` through, in the same hold of the boundary. */
  ghost predicate Cleared(r: Rise, checks: seq<Check>) {
    && r.check < |checks| && checks[r.check].section == r.section && checks[r.check].call.id == r.id
    && !checks[r.check].shut && Permitted(checks[r.check].call.guard, checks[r.check].reading) && !r.wasHigh
  }

  ghost predicate RisesOk(rises: seq<Rise>, checks: seq<Check>, section: nat, calls: nat) {
    && (forall i :: 0 <= i < |rises| ==> Cleared(rises[i], checks) && rises[i].section <= section
                                         && rises[i].id < calls)
    && (forall i, j :: 0 <= i < j < |rises| ==> rises[i].id < rises[j].id)
  }

  ghost predicate RisesBefore(rises: seq<Rise>, section: nat) {
    forall i :: 0 <= i < |rises| ==> rises[i].section < section
  }

  ghost predicate LogOk(s: State) {
    && RisesOk(s.rises, s.checks, s.section, s.calls)
    && (s.owner.Worker? || (Before(s.t) && s.owner.Trigger?) ==> RisesBefore(s.rises, s.section))
    && (s.t.TRaise? ==>
          s.checks != [] && !s.shut && Cleared(Rise(s.t.call.id, s.section, |s.checks| - 1, false), s.checks))
    && (s.shut <==> s.shutSection.Some?)
    && (s.shut ==> s.shutSection.value <= s.section && RisesBefore(s.rises, s.shutSection.value))
  }

  ghost predicate HasRise(rises: seq<Rise>, id: nat) {
    exists i :: 0 <= i < |rises| && rises[i].id == id
  }

  /** The pin rose in this call, and from TNotify on the callback was stored. */
  predicate Rose(t: TriggerPc) {
    t.TRegister? || t.TNotify? || t.TSleep? || t.TWait?
    || ((t.TOffEnter? || t.TOff? || t.TTake? || t.TReport? || t.TReporting? || t.TJam?) && t.exit == Ended)
  }

  /** The pin has not risen in this call. */
  predicate Unrisen(t: TriggerPc) {
    t.TFirst? || t.TLatch? || Before(t)
  }

  ghost predicate ReplyOk(s: State) {
    && (!s.t.TIdle? ==> s.t.call.id == s.calls - 1)
    && (Rose(s.t) ==> HasRise(s.rises, s.t.call.id))
    && (Unrisen(s.t) ==> !HasRise(s.rises, s.t.call.id))
    && (s.t.TIdle? && s.reply.Some? && s.reply.value.answer.Activated? ==> HasRise(s.rises, s.reply.value.id))
    && (s.t.TIdle? && s.reply.Some? && s.reply.value.answer.Refused? ==> !HasRise(s.rises, s.reply.value.id))
  }

  function TriggerCb(t: TriggerPc): Option<nat> {
    match t
    case TReport(_, _, cb) => cb
    case TReporting(_, _, cb) => Some(cb)
    case _ => None
  }

  function WorkerCb(w: WorkerPc): Option<nat> {
    match w
    case WHeld(cb) => Some(cb)
    case WSpawn(cb) => Some(cb)
    case WWait(cb) => Some(cb)
    case WReporting(cb) => Some(cb)
    case _ => None
  }

  /** The callback of this call is not stored yet. */
  predicate Unregistered(t: TriggerPc) {
    Unrisen(t) || t.TRegister?
  }

  predicate Failing(t: TriggerPc) {
    (t.TOffEnter? || t.TOff? || t.TTake? || t.TReport? || t.TReporting? || t.TJam?) && t.exit.Failed?
  }

  /**
   What the callbacks' holders depend on; `unstored` is a call whose callback is not stored yet,
   `noting` one that is about to notify its activation, `mine` the callback `trigger` took.
   */
  datatype Scene = Scene(calls: nat, reported: set<nat>, ran: seq<nat>, notified: set<nat>, active: Option<nat>,
                         unstored: Option<nat>, noting: Option<nat>, mine: Option<nat>)

  function SceneOf(s: State): Scene {
    Scene(s.calls, s.reported, s.ran, s.notified, s.active,
          if Unregistered(s.t) then Some(s.t.call.id) else None,
          if s.t.TNotify? then Some(s.t.call.id) else None, TriggerCb(s.t))
  }

  /** A callback that its holder may still run, or is running. */
  ghost predicate Pending(x: Scene, id: nat, running: bool) {
    id < x.calls && id !in x.reported && (running <==> id in x.ran) && x.unstored != Some(id)
  }

  /** Activation has been notified, or the call that will notify it is in `on_activation`. */
  predicate WillNotify(x: Scene, id: nat) {
    id in x.notified || x.noting == Some(id)
  }

  ghost predicate CbOk(x: Scene, w: WorkerPc, cb: nat) {
    && Pending(x, cb, w.WReporting?) && WillNotify(x, cb) && (w.WReporting? ==> cb in x.notified)
    && Some(cb) != x.active && Some(cb) != x.mine
  }

  ghost predicate WorkersReport(workers: seq<WorkerPc>, x: Scene) {
    forall k :: 0 <= k < |workers| && WorkerCb(workers[k]).Some? ==> CbOk(x, workers[k], WorkerCb(workers[k]).value)
  }

  ghost predicate HandsDistinct(workers: seq<WorkerPc>) {
    forall j, k :: 0 <= j < k < |workers| && WorkerCb(workers[j]).Some? ==> WorkerCb(workers[j]) != WorkerCb(workers[k])
  }

  ghost predicate HolderOk(s: State) {
    var x := SceneOf(s);
    && WorkersReport(s.workers, x) && HandsDistinct(s.workers)
    && (x.active.Some? ==> Pending(x, x.active.value, false) && WillNotify(x, x.active.value) && x.active != x.mine)
    && (x.mine.Some? ==> Pending(x, x.mine.value, s.t.TReporting?) && x.mine.value in x.notified)
    && (x.active.Some? ==> s.latched || Rose(s.t) || Failing(s.t))
    && (Before(s.t) || s.t.TRegister? || s.t.TReport? || s.t.TReporting? || s.t.TWait? ==> x.active.None?)
  }

  /** What has run, ran once and only after activation was notified. */
  ghost predicate RunsOk(ran: seq<nat>, notified: set<nat>, calls: nat) {
    && (forall i :: 0 <= i < |ran| ==> ran[i] in notified && ran[i] < calls)
    && (forall i, j :: 0 <= i < j < |ran| ==> ran[i] != ran[j])
  }

  ghost predicate ReportsOk(reported: set<nat>, calls: nat) {
    forall id :: id in reported ==> id < calls
  }

  ghost predicate RanOk(s: State) {
    && RunsOk(s.ran, s.notified, s.calls) && ReportsOk(s.reported, s.calls)
    && (Unregistered(s.t) ==> s.t.call.id !in s.ran && s.t.call.id !in s.reported)
  }

  ghost predicate HeldByWorker(workers: seq<WorkerPc>, id: nat) {
    exists k :: 0 <= k < |workers| && WorkerCb(workers[k]) == Some(id)
  }

  /** The callback of a pulse that `trigger` will wait for is somewhere. */
  ghost predicate WaitOk(s: State) {
    && (s.t.TWait? ==> s.t.call.reports)
    && (Rose(s.t) && !s.t.TRegister? && s.t.call.reports ==>
          || s.active == Some(s.t.call.id) || TriggerCb(s.t) == Some(s.t.call.id)
          || s.t.call.id in s.reported || HeldByWorker(s.workers, s.t.call.id))
  }

  ghost predicate Inv(s: State) {
    LockOk(s) && PinOk(s) && LogOk(s) && ReplyOk(s) && HolderOk(s) && RanOk(s) && WaitOk(s)
  }

  // ---- Every step keeps the invariant -----------------------------------------------------

  lemma LeavesUnrisen(s: State, answer: Answer)
    requires Inv(s) && (s.t.TFirst? || s.t.TLatch? || s.t.TCheck?) && (answer.Refused? || answer.Raised?)
    ensures Inv(Leave(s.(owner := if s.t.TCheck? then Nobody else s.owner), answer))
  {
  }

  lemma FirstKeeps(s: State, m: Meets)
    requires Inv(s) && s.t.TFirst?
    ensures Inv(FirstStep(s, m))
  {
    var u := FirstStep(s, m);
    if u.t.TIdle? {
      LeavesUnrisen(s, u.reply.value.answer);
    } else {
      PassesFirst(s);
    }
  }

  lemma PassesFirst(s: State)
    requires Inv(s) && s.t.TFirst?
    ensures Inv(s.(t := TLatch(s.t.call)))
  {
  }

  lemma LatchKeeps(s: State, m: Meets)
    requires Inv(s) && s.t.TLatch?
    ensures Inv(TriggerNext(s, m))
  {
    if s.latched {
      LeavesUnrisen(s, Refused(LATCHED));
    } else {
      PassesLatch(s);
    }
  }

  lemma PassesLatch(s: State)
    requires Inv(s) && s.t.TLatch? && !s.latched
    ensures Inv(s.(t := TEnter(s.t.call)))
  {
  }

  lemma EnterKeeps(s: State, m: Meets)
    requires Inv(s) && s.t.TEnter?
    ensures Inv(TriggerNext(s, m))
  {
  }

  lemma OffEnterKeeps(s: State, m: Meets)
    requires Inv(s) && s.t.TOffEnter? && s.owner.Nobody?
    ensures Inv(TriggerNext(s, m))
  {
  }

  lemma CheckKeeps(s: State, m: Meets)
    requires Inv(s) && s.t.TCheck?
    ensures Inv(CheckStep(s, m))
  {
    var u := CheckStep(s, m);
    if m.throws {
      FailsUnrisen(s, m.base);
    } else if u.t.TIdle? {
      LeavesUnrisen(s, u.reply.value.answer);
    } else {
      InhibitionMeaning(s.t.call.guard, m.reading);
      PassesCheck(s, m.reading);
    }
  }

  lemma FailsUnrisen(s: State, base: bool)
    requires Inv(s) && (s.t.TCheck? || s.t.TRaise?)
    ensures Inv(s.(owner := Nobody, t := TOffEnter(s.t.call, Failed(base))))
  {
  }

  lemma PassesCheck(s: State, r: Reading)
    requires Inv(s) && s.t.TCheck? && Permitted(s.t.call.guard, r) && !s.shut
    ensures Inv(s.(t := TRaise(s.t.call), checks := s.checks + [Check(s.t.call, s.section, r, s.shut)]))
  {
  }

  lemma RaiseKeeps(s: State, m: Meets)
    requires Inv(s) && s.t.TRaise?
    ensures Inv(RaiseStep(s, m))
  {
    var r := Rise(s.t.call.id, s.section, |s.checks| - 1, s.high);
    match m.effect
    case RaisesBefore => FailsUnrisen(s, m.base);
    case Fine => PinRises(s, r, TRegister(s.t.call), Trigger);
    case RaisesAfter => PinRises(s, r, TOffEnter(s.t.call, Failed(m.base)), Nobody);
  }

  lemma PinRises(s: State, r: Rise, t: TriggerPc, owner: Owner)
    requires Inv(s) && s.t.TRaise? && r == Rise(s.t.call.id, s.section, |s.checks| - 1, s.high)
    requires (t == TRegister(s.t.call) && owner == Trigger)
             || (t.TOffEnter? && t.call == s.t.call && t.exit.Failed? && owner == Nobody)
    ensures Inv(s.(high := true, rises := s.rises + [r], t := t, owner := owner))
  {
    var rises := s.rises + [r];
    forall i | 0 <= i < |s.rises|
      ensures s.rises[i].id < r.id && rises[i] == s.rises[i]
    {
      assert HasRise(s.rises, s.rises[i].id);
    }
    assert rises[|s.rises|] == r && HasRise(rises, r.id);
  }

  lemma RegisterKeeps(s: State, m: Meets)
    requires Inv(s) && s.t.TRegister?
    ensures Inv(TriggerNext(s, m))
  {
  }

  lemma NotifyKeeps(s: State, t: TriggerPc)
    requires Inv(s) && s.t.TNotify? && (t == TSleep(s.t.call) || (t.TOffEnter? && t.call == s.t.call && t.exit.Failed?))
    ensures Inv(s.(notified := s.notified + {s.t.call.id}, t := t))
  {
  }

  lemma SleepKeeps(s: State, m: Meets)
    requires Inv(s) && s.t.TSleep?
    ensures Inv(TriggerNext(s, m))
  {
  }

  lemma OffKeeps(s: State, m: Meets)
    requires Inv(s) && s.t.TOff?
    ensures Inv(OffStep(s, m))
  {
    if s.t.left == 0 {
      Jams(s, m);
    } else if m.effect == Fine {
      AttemptWorks(s, m);
    } else {
      AttemptFails(s, m);
    }
  }

  lemma Jams(s: State, m: Meets)
    requires Inv(s) && s.t.TOff? && s.t.left == 0
    ensures Inv(OffStep(s, m))
  {
  }

  lemma AttemptWorks(s: State, m: Meets)
    requires Inv(s) && s.t.TOff? && s.t.left > 0 && m.effect == Fine
    ensures Inv(OffStep(s, m))
  {
  }

  lemma AttemptFails(s: State, m: Meets)
    requires Inv(s) && s.t.TOff? && s.t.left > 0 && m.effect != Fine
    ensures Inv(OffStep(s, m))
  {
  }

  lemma TakeKeeps(s: State, m: Meets)
    requires Inv(s) && s.t.TTake?
    ensures Inv(TriggerNext(s, m))
  {
  }

  lemma WaitKeeps(s: State)
    requires Inv(s) && s.t.TWait?
    ensures Inv(Leave(s, Activated))
  {
  }

  lemma JamKeeps(s: State, answer: Answer)
    requires Inv(s) && s.t.TJam? && (answer.Raised? || answer.DeenergizeError?)
    ensures Inv(Leave(s.(latched := true), answer))
  {
  }

  lemma ReportKeeps(s: State, m: Meets)
    requires Inv(s) && s.t.TReport?
    ensures Inv(TriggerNext(s, m))
  {
    var TReport(call, exit, taken) := s.t;
    if taken.None? {
      ConcludedKeeps(s);
    } else {
      ReportStarts(s, taken.value);
    }
  }

  lemma ReportStarts(s: State, cb: nat)
    requires Inv(s) && s.t.TReport? && s.t.taken == Some(cb)
    ensures Inv(s.(ran := s.ran + [cb], t := TReporting(s.t.call, s.t.exit, cb)))
  {
  }

  lemma ReportingKeeps(s: State, m: Meets)
    requires Inv(s) && s.t.TReporting?
    ensures Inv(TriggerNext(s, m))
  {
    var TReporting(call, exit, cb) := s.t;
    var done := s.(reported := s.reported + {cb}, t := TReport(call, exit, None));
    ReportEnds(s, cb);
    ConcludedKeeps(done);
  }

  lemma ReportEnds(s: State, cb: nat)
    requires Inv(s) && s.t.TReporting? && s.t.cb == cb
    ensures Inv(s.(reported := s.reported + {cb}, t := TReport(s.t.call, s.t.exit, None)))
  {
  }

  lemma ConcludedKeeps(s: State)
    requires Inv(s) && s.t.TReport? && s.t.taken.None?
    ensures Inv(Concluded(s, s.t.call, s.t.exit))
  {
    if s.t.exit.Ended? && s.t.call.reports {
      StartsWaiting(s);
    } else {
      ReturnsLow(s, if s.t.exit.Ended? then Activated else if s.t.exit.base then Raised else RelayError);
    }
  }

  lemma StartsWaiting(s: State)
    requires Inv(s) && s.t.TReport? && s.t.taken.None? && s.t.exit.Ended? && s.t.call.reports
    ensures Inv(s.(t := TWait(s.t.call)))
  {
  }

  lemma ReturnsLow(s: State, answer: Answer)
    requires Inv(s) && s.t.TReport? && (if answer.Activated? then s.t.exit.Ended? else answer.Raised?
                                                                                       || answer.RelayError?)
    ensures Inv(Leave(s, answer))
  {
  }

  lemma TriggerKeeps(s: State, m: Meets)
    requires Inv(s)
    ensures Inv(TriggerNext(s, m))
  {
    match s.t
    case TIdle =>
    case TFirst(_) => FirstKeeps(s, m);
    case TLatch(_) => LatchKeeps(s, m);
    case TCheck(_) => CheckKeeps(s, m);
    case TRaise(_) => RaiseKeeps(s, m);
    case TOff(_, _, _) => OffKeeps(s, m);
    case TReport(_, _, _) => ReportKeeps(s, m);
    case TReporting(_, _, _) => ReportingKeeps(s, m);
    case TEnter(_) => EnterKeeps(s, m);
    case TOffEnter(_, _) =>
      if s.owner.Nobody? {
        OffEnterKeeps(s, m);
      }
    case TRegister(_) => RegisterKeeps(s, m);
    case TNotify(call) => NotifyKeeps(s, if m.throws then TOffEnter(call, Failed(m.base)) else TSleep(call));
    case TSleep(_) => SleepKeeps(s, m);
    case TTake(_, _) => TakeKeeps(s, m);
    case TWait(_) => WaitKeeps(s);
    case TJam(_, exit) => JamKeeps(s, if exit == Failed(true) then Raised else DeenergizeError);
  }

  lemma WorkerEnters(s: State, k: nat, m: Meets)
    requires Inv(s) && k < |s.workers| && s.workers[k].WEnter? && s.owner.Nobody?
    ensures Inv(WorkerNext(s, k, m))
  {
  }

  lemma WorkerFlags(s: State, k: nat, m: Meets)
    requires Inv(s) && k < |s.workers| && s.workers[k].WFlag?
    ensures Inv(WorkerNext(s, k, m))
  {
  }

  lemma WorkerLatches(s: State, k: nat, m: Meets)
    requires Inv(s) && k < |s.workers| && s.workers[k].WLatch?
    ensures Inv(WorkerNext(s, k, m))
  {
  }

  lemma WorkerOffKeeps(s: State, k: nat, high: bool, w: WorkerPc)
    requires Inv(s) && k < |s.workers| && s.workers[k].WOff? && (high ==> s.high) && (w.WOff? || w.WTake?)
    ensures Inv(SetWorker(s.(high := high), k, w))
  {
  }

  lemma WorkerTriesOff(s: State, k: nat, m: Meets)
    requires Inv(s) && k < |s.workers| && s.workers[k].WOff? && s.workers[k].left > 0
    ensures Inv(WorkerOffStep(s, k, m))
  {
    var high := s.high && m.effect == RaisesBefore;
    var w := if m.effect == Fine then WTake else WOff(s.workers[k].left - 1);
    WorkerOffKeeps(s, k, high, w);
    assert WorkerOffStep(s, k, m) == SetWorker(s.(high := high), k, w);
  }

  lemma WorkerGivesUp(s: State, k: nat, m: Meets)
    requires Inv(s) && k < |s.workers| && s.workers[k] == WOff(0)
    ensures Inv(WorkerOffStep(s, k, m))
  {
  }

  lemma WorkerTakeKeeps(s: State, k: nat, m: Meets)
    requires Inv(s) && k < |s.workers| && s.workers[k].WTake?
    ensures Inv(WorkerNext(s, k, m))
  {
  }

  lemma WorkerMovesOn(s: State, k: nat, w: WorkerPc)
    requires Inv(s) && k < |s.workers| && WorkerCb(s.workers[k]).Some? && !s.workers[k].WReporting?
    requires WorkerCb(w) == WorkerCb(s.workers[k]) && !w.WReporting?
    ensures Inv(SetWorker(s, k, w))
  {
  }

  lemma WorkerReports(s: State, k: nat, cb: nat)
    requires Inv(s) && k < |s.workers| && s.workers[k] == WWait(cb) && cb in s.notified
    ensures Inv(SetWorker(s.(ran := s.ran + [cb]), k, WReporting(cb)))
  {
    RunsLonger(s.ran, s.notified, s.calls, cb);
    StillHeld(s.workers, k, WReporting(cb));
  }

  lemma RunsLonger(ran: seq<nat>, notified: set<nat>, calls: nat, cb: nat)
    requires RunsOk(ran, notified, calls) && cb in notified && cb < calls && cb !in ran
    ensures RunsOk(ran + [cb], notified, calls)
  {
  }

  /** A worker that keeps its callback leaves every callback where it is. */
  lemma StillHeld(workers: seq<WorkerPc>, k: nat, w: WorkerPc)
    requires k < |workers| && WorkerCb(w) == WorkerCb(workers[k]) && HandsDistinct(workers)
    ensures HandsDistinct(workers[k := w])
    ensures forall id: nat :: HeldByWorker(workers, id) ==> HeldByWorker(workers[k := w], id)
  {
    forall id: nat | HeldByWorker(workers, id)
      ensures HeldByWorker(workers[k := w], id)
    {
      var j :| 0 <= j < |workers| && WorkerCb(workers[j]) == Some(id);
      assert WorkerCb(workers[k := w][j]) == Some(id);
    }
  }

  lemma WorkerEnds(s: State, k: nat, cb: nat)
    requires Inv(s) && k < |s.workers| && WorkerCb(s.workers[k]) == Some(cb)
    ensures Inv(SetWorker(s.(reported := s.reported + {cb}), k, WDone))
  {
  }

  lemma WorkerSectionKeeps(s: State, k: nat, m: Meets)
    requires Inv(s) && k < |s.workers| && WorkerCb(s.workers[k]).None?
    ensures Inv(WorkerNext(s, k, m))
  {
    match s.workers[k]
    case WEnter =>
      if s.owner.Nobody? {
        WorkerEnters(s, k, m);
      }
    case WFlag => WorkerFlags(s, k, m);
    case WLatch => WorkerLatches(s, k, m);
    case WOff(left) =>
      if left == 0 {
        WorkerGivesUp(s, k, m);
      } else {
        WorkerTriesOff(s, k, m);
      }
    case WTake => WorkerTakeKeeps(s, k, m);
    case WDone =>
  }

  lemma WorkerReportKeeps(s: State, k: nat, m: Meets)
    requires Inv(s) && k < |s.workers| && WorkerCb(s.workers[k]).Some?
    ensures Inv(WorkerNext(s, k, m))
  {
    match s.workers[k]
    case WHeld(cb) => WorkerMovesOn(s, k, if cb in s.notified then WWait(cb) else WSpawn(cb));
    case WSpawn(cb) =>
      if m.throws {
        WorkerEnds(s, k, cb);
      } else {
        WorkerMovesOn(s, k, WWait(cb));
      }
    case WWait(cb) =>
      if cb in s.notified {
        WorkerReports(s, k, cb);
      }
    case WReporting(cb) => WorkerEnds(s, k, cb);
  }

  lemma BeginKeeps(s: State, guard: Guard, reports: bool)
    requires Inv(s)
    ensures Inv(Next(s, Begin(guard, reports)))
  {
    assert forall i :: 0 <= i < |s.rises| ==> s.rises[i].id != s.calls;
  }

  lemma ShutdownKeeps(s: State)
    requires Inv(s)
    ensures Inv(Next(s, Shutdown))
  {
  }

  lemma NextKeeps(s: State, c: Choice)
    requires Inv(s)
    ensures Inv(Next(s, c))
  {
    match c
    case Begin(guard, reports) => BeginKeeps(s, guard, reports);
    case Shutdown => ShutdownKeeps(s);
    case TriggerStep(m) => TriggerKeeps(s, m);
    case WorkerStep(k, m) =>
      if k < |s.workers| {
        if WorkerCb(s.workers[k]).None? {
          WorkerSectionKeeps(s, k, m);
        } else {
          WorkerReportKeeps(s, k, m);
        }
      }
  }

  lemma {:induction false} RunKeeps(s: State, choices: seq<Choice>)
    requires Inv(s)
    ensures Inv(Run(s, choices))
    decreases |choices|
  {
    if choices != [] {
      NextKeeps(s, choices[0]);
      RunKeeps(Next(s, choices[0]), choices[1..]);
    }
  }
}
