/** What `trigger` answers, from what one call met; and that nothing keeps a permitted call from its pulse. */
module RelayAnswers {
  import opened Prelude
  import opened Guards
  import opened Relay
  import RelaySafety

  /**
   What the running call met: how its `try` block was left, what refused it, whether the first check
   raised, how many attempts to switch off failed, and whether one worked.
   */
  datatype History = History(exit: Option<Exit>, refused: Option<string>, threw: bool, failures: nat,
                             off: Option<bool>)

  const FRESH := History(None, None, false, 0, None)

  /** What refuses a pulse: the caller's check, or else a shutdown. */
  function Obstacle(g: Guard, r: Reading, shut: bool): Option<string> {
    if !Permitted(g, r) then (if Inhibition(g, r).Some? then Some(Inhibition(g, r).value.1) else None)
    else if shut then Some("relay_latched") else None
  }

  function Leaving(h: History, exit: Exit): History {
    h.(exit := Some(exit))
  }

  /** What the call meets in one step of its own. */
  function Meeting(s: State, m: Meets, h: History): History {
    match s.t
    case TFirst(call) => if m.throws then h.(threw := true) else h.(refused := Obstacle(call.guard, m.reading, s.shut))
    case TLatch(_) => if s.latched then h.(refused := Some("relay_latched")) else h
    case TCheck(call) =>
      if m.throws then Leaving(h, Failed(m.base)) else h.(refused := Obstacle(call.guard, m.reading, s.shut))
    case TRaise(_) => if m.effect == Fine then h else Leaving(h, Failed(m.base))
    case TNotify(_) => if m.throws then Leaving(h, Failed(m.base)) else h
    case TSleep(_) => Leaving(h, if m.throws then Failed(m.base) else Ended)
    case TOff(_, _, left) =>
      if left == 0 then h.(off := Some(false))
      else if m.effect == Fine then h.(off := Some(true)) else h.(failures := h.failures + 1)
    case _ => h
  }

  function Observed(s: State, choices: seq<Choice>, h: History): History
    decreases |choices|
  {
    if choices == [] then h else
    var c := choices[0];
    Observed(Next(s, c), choices[1..],
             if c.Begin? && s.t.TIdle? then FRESH else if c.TriggerStep? then Meeting(s, c.meets, h) else h)
  }

  /** The answer: a refusal, or what the way out of the `try` block and the attempts to switch off call for. */
  ghost predicate AnswerIs(answer: Answer, h: History, attempts: nat) {
    if h.refused.Some? then answer == Refused(h.refused.value)
    else if h.threw then answer == Raised
    else
      && h.exit.Some? && h.off.Some?
      && (if h.exit == Some(Failed(true)) then answer == Raised
          else if !h.off.value then answer == DeenergizeError
          else if h.exit == Some(Ended) then answer == Activated else answer == RelayError)
      && (h.off == Some(false) ==> h.failures == attempts)
  }

  /** How far the call has come agrees with what it met. */
  ghost predicate Agrees(s: State, h: History) {
    match s.t
    case TIdle => s.reply.Some? ==> AnswerIs(s.reply.value.answer, h, s.offAttempts)
    case TOffEnter(_, exit) => h == FRESH.(exit := Some(exit))
    case TOff(_, exit, left) => h == FRESH.(exit := Some(exit), failures := h.failures)
                                && h.failures + left == s.offAttempts
    case TTake(_, exit) => Switched(h, exit)
    case TReport(_, exit, _) => Switched(h, exit)
    case TReporting(_, exit, _) => Switched(h, exit)
    case TWait(_) => Switched(h, Ended)
    case TJam(_, exit) => h == History(Some(exit), None, false, s.offAttempts, Some(false))
    case _ => h == FRESH
  }

  ghost predicate Switched(h: History, exit: Exit) {
    h == History(Some(exit), None, false, h.failures, Some(true))
  }

  lemma EntryAgrees(s: State, m: Meets, h: History)
    requires Agrees(s, h) && (s.t.TFirst? || s.t.TLatch? || s.t.TEnter? || s.t.TCheck?)
    ensures Agrees(TriggerNext(s, m), Meeting(s, m, h))
  {
    InhibitionMeaning(s.t.call.guard, m.reading);
  }

  lemma PulseAgrees(s: State, m: Meets, h: History)
    requires Agrees(s, h) && (s.t.TRaise? ==> s.checks != [])
    requires s.t.TRaise? || s.t.TRegister? || s.t.TNotify? || s.t.TSleep?
    ensures Agrees(TriggerNext(s, m), Meeting(s, m, h))
  {
  }

  lemma OffAgrees(s: State, m: Meets, h: History)
    requires Agrees(s, h) && (s.t.TOffEnter? || s.t.TOff? || s.t.TTake?)
    ensures Agrees(TriggerNext(s, m), Meeting(s, m, h))
  {
  }

  lemma EndAgrees(s: State, m: Meets, h: History)
    requires Agrees(s, h) && (s.t.TReport? || s.t.TReporting? || s.t.TWait? || s.t.TJam? || s.t.TIdle?)
    ensures Agrees(TriggerNext(s, m), Meeting(s, m, h))
  {
  }

  lemma TriggerAgrees(s: State, m: Meets, h: History)
    requires Agrees(s, h) && (s.t.TRaise? ==> s.checks != [])
    ensures Agrees(TriggerNext(s, m), Meeting(s, m, h))
  {
    if s.t.TFirst? || s.t.TLatch? || s.t.TEnter? || s.t.TCheck? {
      EntryAgrees(s, m, h);
    } else if s.t.TRaise? || s.t.TRegister? || s.t.TNotify? || s.t.TSleep? {
      PulseAgrees(s, m, h);
    } else if s.t.TOffEnter? || s.t.TOff? || s.t.TTake? {
      OffAgrees(s, m, h);
    } else {
      EndAgrees(s, m, h);
    }
  }

  lemma WorkerKeepsTrigger(s: State, k: nat, m: Meets)
    requires k < |s.workers|
    ensures var u := WorkerNext(s, k, m); u.t == s.t && u.reply == s.reply && u.offAttempts == s.offAttempts
  {
  }

  lemma {:induction false} RunAgrees(s: State, choices: seq<Choice>, h: History)
    requires Inv(s) && Agrees(s, h)
    ensures Agrees(Run(s, choices), Observed(s, choices, h))
    decreases |choices|
  {
    if choices != [] {
      var c := choices[0];
      NextKeeps(s, c);
      if c.TriggerStep? {
        TriggerAgrees(s, c.meets, h);
      } else if c.WorkerStep? && c.k < |s.workers| {
        WorkerKeepsTrigger(s, c.k, c.meets);
      }
      var next := if c.Begin? && s.t.TIdle? then FRESH else if c.TriggerStep? then Meeting(s, c.meets, h) else h;
      assert Agrees(Next(s, c), next);
      RunAgrees(Next(s, c), choices[1..], next);
    }
  }

  /**
   Over every interleaving, `trigger` answers from what its call met: the check or the latch that
   refused it; `relay_deenergize_error` when every attempt to switch off failed; otherwise
   `activated` after a pulse that ended and `relay_error` after an exception. What is more than an
   exception, and an exception of the first check, is raised again.
   */
  lemma TriggerAnswers(s: State, choices: seq<Choice>)
    requires Constructed(s)
    ensures var u := Run(s, choices);
            u.t.TIdle? && u.reply.Some? ==> AnswerIs(u.reply.value.answer, Observed(s, choices, FRESH), u.offAttempts)
  {
    RelaySafety.ConstructedInv(s);
    RunAgrees(s, choices, FRESH);
  }

  // ---- A permitted call pulses ------------------------------------------------------------------

  /** `n` turns of `trigger`, each of which meets `m`. */
  function Turns(m: Meets, n: nat): seq<Choice> {
    seq(n, i => TriggerStep(m))
  }

  predicate Smooth(m: Meets) {
    !m.throws && m.effect == Fine
  }

  /** Where an undisturbed call stands after `k` turns; one without a callback is over after twelve. */
  function Stand(call: Call, k: nat, attempts: nat): TriggerPc
    requires k <= 14
  {
    var cb := if call.reports then Some(call.id) else None;
    if k == 0 then TFirst(call) else if k == 1 then TLatch(call) else if k == 2 then TEnter(call)
    else if k == 3 then TCheck(call) else if k == 4 then TRaise(call) else if k == 5 then TRegister(call)
    else if k == 6 then TNotify(call) else if k == 7 then TSleep(call) else if k == 8 then TOffEnter(call, Ended)
    else if k == 9 then TOff(call, Ended, attempts) else if k == 10 then TTake(call, Ended)
    else if k == 11 then TReport(call, Ended, cb)
    else if k == 12 && call.reports then TReporting(call, Ended, call.id)
    else if k == 13 && call.reports then TWait(call) else TIdle
  }

  /** The pin, the boundary and the logs after `k` turns of an undisturbed call on the controller `s`. */
  ghost predicate Standing(s: State, call: Call, u: State, k: nat)
    requires k <= 14
  {
    && u.t == Stand(call, k, s.offAttempts) && u.offAttempts == s.offAttempts && !u.latched && !u.shut
    && u.owner == (if 3 <= k <= 5 || 9 <= k <= 10 then Trigger else Nobody)
    && (if k < 5 then u.rises == s.rises else |u.rises| == |s.rises| + 1 && u.rises[|s.rises|].id == call.id)
    && (k == 4 ==> u.checks != []) && (k >= 7 ==> call.id in u.notified) && (k >= 10 ==> !u.high)
    && (6 <= k <= 10 ==> u.active == if call.reports then Some(call.id) else None)
    && u.ran == (if k >= 12 && call.reports then s.ran + [call.id] else s.ran)
    && (k >= 13 && call.reports ==> call.id in u.reported)
    && (u.t == TIdle ==> u.reply == Some(Reply(call.id, Activated)))
  }

  lemma Admitted(s: State, call: Call, u: State, k: nat, m: Meets)
    requires k < 4 && Standing(s, call, u, k) && Smooth(m) && Permitted(call.guard, m.reading)
    ensures Standing(s, call, TriggerNext(u, m), k + 1)
  {
    InhibitionMeaning(call.guard, m.reading);
  }

  lemma Pulses(s: State, call: Call, u: State, k: nat, m: Meets)
    requires 4 <= k < 8 && Standing(s, call, u, k) && Smooth(m)
    ensures Standing(s, call, TriggerNext(u, m), k + 1)
  {
  }

  lemma SwitchesOff(s: State, call: Call, u: State, k: nat, m: Meets)
    requires 8 <= k < 11 && Standing(s, call, u, k) && Smooth(m) && s.offAttempts > 0
    ensures Standing(s, call, TriggerNext(u, m), k + 1)
  {
  }

  lemma Ends(s: State, call: Call, u: State, k: nat, m: Meets)
    requires 11 <= k < 14 && Standing(s, call, u, k)
    ensures Standing(s, call, TriggerNext(u, m), k + 1)
  {
  }

  lemma {:induction false} StandsToTheEnd(s: State, call: Call, u: State, k: nat, m: Meets)
    requires k <= 14 && Standing(s, call, u, k) && Smooth(m) && Permitted(call.guard, m.reading) && s.offAttempts > 0
    ensures Standing(s, call, Run(u, Turns(m, 14 - k)), 14)
    decreases 14 - k
  {
    if k < 14 {
      if k < 4 {
        Admitted(s, call, u, k, m);
      } else if k < 8 {
        Pulses(s, call, u, k, m);
      } else if k < 11 {
        SwitchesOff(s, call, u, k, m);
      } else {
        Ends(s, call, u, k, m);
      }
      assert Turns(m, 14 - k)[1..] == Turns(m, 14 - (k + 1));
      StandsToTheEnd(s, call, Next(u, TriggerStep(m)), k + 1, m);
    }
  }

  /**
   A call whose guard permits the pulse, on a controller that is neither latched nor shut down and
   is left alone, drives the pin high once and low again, runs its callback, and answers `activated`.
   */
  lemma PermittedCallPulses(s: State, guard: Guard, reports: bool, m: Meets)
    requires s.t.TIdle? && !s.latched && !s.shut && s.owner.Nobody? && s.offAttempts > 0
    requires Smooth(m) && Permitted(guard, m.reading)
    ensures var u := Run(s, [Begin(guard, reports)] + Turns(m, 14));
            && u.t.TIdle? && u.reply == Some(Reply(s.calls, Activated)) && !u.high && !u.latched && u.owner.Nobody?
            && |u.rises| == |s.rises| + 1 && u.rises[|s.rises|].id == s.calls
            && u.ran == if reports then s.ran + [s.calls] else s.ran
  {
    assert ([Begin(guard, reports)] + Turns(m, 14))[1..] == Turns(m, 14);
    StandsToTheEnd(s, Call(s.calls, guard, reports), Next(s, Begin(guard, reports)), 0, m);
  }
}
