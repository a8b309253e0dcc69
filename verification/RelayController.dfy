/**
 `RelayController`: the code of each hold of the activation boundary, on the object's fields.
 No other thread runs inside a hold, so each method is sequential; each is a run of the
 interlock's steps, and any order in which the two threads enter is a run as well.
 */
module RelayController {
  import opened Prelude
  import opened Guards
  import opened Relay
  import opened RelaySafety

  const UNREAD := Reading(None, false, None, 0)

  function Of(effect: Fault): Meets {
    Meets(UNREAD, false, false, effect)
  }

  /** Who holds the boundary: `trigger`, or a shutdown call while `trigger` stands at `t`. */
  datatype Holder = ByTrigger(call: Call, exit: Exit) | ByShutdown(k: nat, t: TriggerPc)

  function StepOf(who: Holder, m: Meets): Choice {
    match who
    case ByTrigger(_, _) => TriggerStep(m)
    case ByShutdown(k, _) => WorkerStep(k, m)
  }

  /** The holder has `left` calls of `off()` to go. */
  ghost predicate SwitchingOff(s: State, who: Holder, left: nat) {
    match who
    case ByTrigger(call, exit) => s.t == TOff(call, exit, left)
    case ByShutdown(k, t) => s.t == t && k < |s.workers| && s.workers[k] == WOff(left)
  }

  ghost predicate SwitchedOff(s: State, who: Holder) {
    match who
    case ByTrigger(call, exit) => s.t == TTake(call, exit)
    case ByShutdown(k, t) => s.t == t && k < |s.workers| && s.workers[k] == WTake
  }

  /** Whether one of the first `n` calls of `off()` worked, and whether the pin is then still high. */
  ghost predicate OffWorked(effects: seq<Fault>, n: nat)
    requires n <= |effects|
  {
    exists i :: 0 <= i < n && effects[i] == Fine
  }

  ghost predicate OffTouched(effects: seq<Fault>, n: nat)
    requires n <= |effects|
  {
    exists i :: 0 <= i < n && effects[i] != RaisesBefore
  }

  lemma OneMoreAttempt(effects: seq<Fault>, n: nat)
    requires n < |effects|
    ensures OffWorked(effects, n + 1) <==> OffWorked(effects, n) || effects[n] == Fine
    ensures OffTouched(effects, n + 1) <==> OffTouched(effects, n) || effects[n] != RaisesBefore
  {
  }

  /** How the last-moment check and `on()` come out. */
  datatype OnResult = On | Inhibited(detail: string) | Threw

  class RelayController {
    const maxOffAttempts: nat
    var high: bool                        // the GPIO pin
    var latched: bool
    var shutdownRequested: bool
    var activeDeactivationCallback: Option<nat>
    ghost var machine: State

    ghost predicate Valid()
      reads this
    {
      && maxOffAttempts > 0 && machine.offAttempts == maxOffAttempts
      && machine.high == high && machine.latched == latched
      && machine.shut == shutdownRequested && machine.active == activeDeactivationCallback
    }

    constructor (attempts: nat, high: bool, effects: seq<Fault>)
      requires attempts > 0 && |effects| == attempts
      ensures Valid() && maxOffAttempts == attempts && Constructed(machine)
      ensures latched <==> forall i :: 0 <= i < attempts ==> effects[i] != Fine
      ensures this.high ==> latched && high && forall i :: 0 <= i < attempts ==> effects[i] == RaisesBefore
    {
      maxOffAttempts := attempts;
      shutdownRequested, activeDeactivationCallback := false, None;
      var safe, pin, i := false, high, 0;
      while i < attempts && !safe
        invariant 0 <= i <= attempts
        invariant safe ==> !pin && i > 0 && effects[i - 1] == Fine
        invariant !safe ==> forall j :: 0 <= j < i ==> effects[j] != Fine
        invariant pin ==> high && forall j :: 0 <= j < i ==> effects[j] == RaisesBefore
      {
        pin := pin && effects[i] == RaisesBefore;
        safe := effects[i] == Fine;
        i := i + 1;
      }
      this.high, latched := pin, !safe;
      machine := State(pin, !safe, false, None, Nobody, attempts, TIdle, [], {}, {}, None, 0, 0, [], [], None, []);
    }

    ghost method Step(c: Choice, was: State, cs: seq<Choice>) returns (cs': seq<Choice>)
      requires machine == Run(was, cs)
      modifies this`machine
      ensures machine == Next(old(machine), c) && cs' == cs + [c] && machine == Run(was, cs')
    {
      SplitRun(was, cs, [c]);
      assert Run(machine, [c]) == Next(machine, c);
      machine := Next(machine, c);
      cs' := cs + [c];
    }

    method TryOff(effect: Fault, ghost who: Holder, ghost left: nat, ghost was: State, ghost before: seq<Choice>)
      returns (worked: bool, ghost choices: seq<Choice>)
      requires Valid() && left > 0 && SwitchingOff(machine, who, left) && machine == Run(was, before)
      modifies this`high, this`machine
      ensures Valid() && machine == Run(was, choices) && (worked <==> effect == Fine)
      ensures if worked then SwitchedOff(machine, who) else SwitchingOff(machine, who, left - 1)
      ensures high == (old(high) && effect == RaisesBefore)
    {
      choices := Step(StepOf(who, Of(effect)), was, before);
      if effect != RaisesBefore {
        high := false;
      }
      worked := effect == Fine;
    }

    method DeenergizeAtBoundary(effects: seq<Fault>, ghost who: Holder, ghost was: State, ghost before: seq<Choice>)
      returns (safe: bool, ghost choices: seq<Choice>)
      requires Valid() && |effects| == maxOffAttempts && SwitchingOff(machine, who, maxOffAttempts)
               && machine == Run(was, before)
      modifies this`high, this`machine
      ensures Valid() && machine == Run(was, choices)
      ensures safe <==> OffWorked(effects, maxOffAttempts)
      ensures safe ==> !high && SwitchedOff(machine, who)
      ensures !safe ==> SwitchingOff(machine, who, 0)
      ensures !safe ==> high == (old(high) && !OffTouched(effects, maxOffAttempts))
    {
      choices := before;
      var i := 0;
      while i < maxOffAttempts
        invariant 0 <= i <= maxOffAttempts && Valid() && machine == Run(was, choices)
        invariant SwitchingOff(machine, who, maxOffAttempts - i) && !OffWorked(effects, i)
        invariant high == (old(high) && !OffTouched(effects, i))
      {
        OneMoreAttempt(effects, i);
        var worked;
        worked, choices := TryOff(effects[i], who, maxOffAttempts - i, was, choices);
        if worked {
          return true, choices;
        }
        i := i + 1;
      }
      safe := false;
    }

    method TakeDeactivationCallbackAtBoundary() returns (callback: Option<nat>)
      modifies this`activeDeactivationCallback
      ensures callback == old(activeDeactivationCallback) && activeDeactivationCallback == None
    {
      callback := activeDeactivationCallback;
      activeDeactivationCallback := None;
    }

    /** The hold of the boundary in `_deenergize`, from taking the lock to letting it go. */
    method Deenergize(effects: seq<Fault>) returns (safe: bool, callback: Option<nat>, ghost choices: seq<Choice>)
      requires Valid() && |effects| == maxOffAttempts && machine.t.TOffEnter? && machine.owner.Nobody?
      modifies this`high, this`activeDeactivationCallback, this`machine
      ensures Valid() && machine == Run(old(machine), choices) && machine.owner.Nobody?
      ensures safe <==> OffWorked(effects, maxOffAttempts)
      ensures safe ==> !high && callback == old(activeDeactivationCallback)
                       && machine.t == TReport(old(machine.t.call), old(machine.t.exit), callback)
      ensures !safe ==> callback == None && machine.t == TJam(old(machine.t.call), old(machine.t.exit))
    {
      ghost var was := machine;
      choices := Step(TriggerStep(Of(Fine)), was, []);
      safe, choices := DeenergizeAtBoundary(effects, ByTrigger(was.t.call, was.t.exit), was, choices);
      callback := None;
      if safe {
        callback := TakeDeactivationCallbackAtBoundary();
      }
      choices := Step(TriggerStep(Of(Fine)), was, choices);
    }

    /** The hold of the boundary in `begin_shutdown`. */
    method BeginShutdown(effects: seq<Fault>, ghost k: nat) returns (safe: bool, callback: Option<nat>,
                                                                     ghost choices: seq<Choice>)
      requires Valid() && |effects| == maxOffAttempts && machine.owner.Nobody?
      requires k < |machine.workers| && machine.workers[k].WEnter?
      modifies this
      ensures Valid() && machine == Run(old(machine), choices) && machine.owner.Nobody?
      ensures shutdownRequested && latched && (safe <==> OffWorked(effects, maxOffAttempts))
      ensures safe ==> !high && callback == old(activeDeactivationCallback)
      ensures !safe ==> callback == None && high == (old(high) && !OffTouched(effects, maxOffAttempts))
      ensures k < |machine.workers| && machine.workers[k] == if callback.Some? then WHeld(callback.value) else WDone
      ensures machine.t == old(machine.t)
    {
      ghost var was := machine;
      choices := Step(WorkerStep(k, Of(Fine)), was, []);
      choices := Step(WorkerStep(k, Of(Fine)), was, choices);
      shutdownRequested := true;
      choices := Step(WorkerStep(k, Of(Fine)), was, choices);
      latched := true;
      safe, choices := DeenergizeAtBoundary(effects, ByShutdown(k, was.t), was, choices);
      callback := None;
      if safe {
        callback := TakeDeactivationCallbackAtBoundary();
      }
      choices := Step(WorkerStep(k, Of(Fine)), was, choices);
    }

    /** The hold of the boundary in `trigger`: `Relay.on` with its check, then the callback is stored. */
    method SwitchOn(call: Call, reading: Reading, checkThrows: bool, base: bool, effect: Fault)
      returns (result: OnResult, ghost choices: seq<Choice>)
      requires Valid() && machine.t == TEnter(call) && machine.owner.Nobody?
      modifies this`high, this`activeDeactivationCallback, this`machine
      ensures Valid() && machine == Run(old(machine), choices) && machine.owner.Nobody?
      ensures high == (old(high) || (!checkThrows && !shutdownRequested && Permitted(call.guard, reading)
                                     && effect != RaisesBefore))
      ensures result == On <==> !checkThrows && !shutdownRequested && Permitted(call.guard, reading) && effect == Fine
      ensures result == On ==> machine.t == TNotify(call)
                               && activeDeactivationCallback == if call.reports then Some(call.id) else None
      ensures result.Inhibited? ==>
                && machine.t.TIdle? && machine.reply == Some(Reply(call.id, Refused(result.detail)))
                && FullInhibition(call.guard, reading, shutdownRequested) == Some(result.detail)
      ensures result.Inhibited? <==> !checkThrows && (shutdownRequested || !Permitted(call.guard, reading))
      ensures result == Threw ==> machine.t == TOffEnter(call, Failed(base))
    {
      ghost var was := machine;
      result, choices := CheckInBoundary(call, reading, checkThrows, base);
      if result == On {
        result, choices := Drive(call, base, effect, was, choices);
      }
    }

    method CheckInBoundary(call: Call, reading: Reading, checkThrows: bool, base: bool)
      returns (result: OnResult, ghost choices: seq<Choice>)
      requires Valid() && machine.t == TEnter(call) && machine.owner.Nobody?
      modifies this`machine
      ensures Valid() && machine == Run(old(machine), choices)
      ensures result == On <==> !checkThrows && !shutdownRequested && Permitted(call.guard, reading)
      ensures result == On ==> machine.t == TRaise(call) && machine.checks != []
      ensures result != On ==> machine.owner.Nobody?
      ensures result.Inhibited? ==>
                && machine.t.TIdle? && machine.reply == Some(Reply(call.id, Refused(result.detail)))
                && FullInhibition(call.guard, reading, shutdownRequested) == Some(result.detail)
      ensures result.Inhibited? <==> !checkThrows && (shutdownRequested || !Permitted(call.guard, reading))
      ensures result == Threw ==> machine.t == TOffEnter(call, Failed(base))
    {
      ghost var was := machine;
      InhibitionMeaning(call.guard, reading);
      choices := Step(TriggerStep(Of(Fine)), was, []);
      choices := Step(TriggerStep(Meets(reading, checkThrows, base, Fine)), was, choices);
      var inhibition := FullInhibition(call.guard, reading, shutdownRequested);
      result := if checkThrows then Threw else if inhibition.Some? then Inhibited(inhibition.value) else On;
    }

    method Drive(call: Call, base: bool, effect: Fault, ghost was: State, ghost before: seq<Choice>)
      returns (result: OnResult, ghost choices: seq<Choice>)
      requires Valid() && machine.t == TRaise(call) && machine.checks != [] && machine == Run(was, before)
      modifies this`high, this`activeDeactivationCallback, this`machine
      ensures Valid() && machine == Run(was, choices) && machine.owner.Nobody?
      ensures high == (old(high) || effect != RaisesBefore)
      ensures result == if effect == Fine then On else Threw
      ensures result == On ==> machine.t == TNotify(call)
                               && activeDeactivationCallback == if call.reports then Some(call.id) else None
      ensures result == Threw ==> machine.t == TOffEnter(call, Failed(base))
                                  && activeDeactivationCallback == old(activeDeactivationCallback)
    {
      choices := Step(TriggerStep(Meets(UNREAD, false, base, effect)), was, before);
      if effect != RaisesBefore {
        high := true;
      }
      if effect != Fine {
        return Threw, choices;
      }
      choices := Step(TriggerStep(Of(Fine)), was, choices);
      activeDeactivationCallback := if call.reports then Some(call.id) else None;
      result := On;
    }
  }
}
