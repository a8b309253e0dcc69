/** What the relay interlock guarantees over every interleaving. */
module RelaySafety {
  import opened Prelude
  import opened Guards
  import opened Relay

  lemma ConstructedInv(s: State)
    requires Constructed(s)
    ensures Inv(s)
  {
  }

  /**
   Every write of HIGH found the pin low, and in the same hold of the boundary a check of the
   same call passed: no shutdown was requested and the caller's guard permitted the pulse.
   */
  lemma PulsesAreChecked(s: State, choices: seq<Choice>, i: nat)
    requires Constructed(s) && i < |Run(s, choices).rises|
    ensures var u := Run(s, choices);
            var r := u.rises[i];
            && !r.wasHigh && r.check < |u.checks|
            && var c := u.checks[r.check];
            c.section == r.section && c.call.id == r.id && !c.shut && Permitted(c.call.guard, c.reading)
  {
    ConstructedInv(s);
    RunKeeps(s, choices);
    assert Cleared(Run(s, choices).rises[i], Run(s, choices).checks);
  }

  lemma OnePulsePerCall(s: State, choices: seq<Choice>, i: nat, j: nat)
    requires Constructed(s) && i < j < |Run(s, choices).rises|
    ensures Run(s, choices).rises[i].id != Run(s, choices).rises[j].id
  {
    ConstructedInv(s);
    RunKeeps(s, choices);
  }

  lemma SplitRun(s: State, cs: seq<Choice>, ds: seq<Choice>)
    ensures Run(s, cs + ds) == Run(Run(s, cs), ds)
    decreases |cs|
  {
    if cs == [] {
      assert cs + ds == ds;
    } else {
      assert (cs + ds)[0] == cs[0] && (cs + ds)[1..] == cs[1..] + ds;
      SplitRun(Next(s, cs[0]), cs[1..], ds);
    }
  }

  /** A step of `TriggerStep` other than the write of HIGH leaves the log of writes alone. */
  lemma RisesOnlyAtRaise(s: State, c: Choice)
    ensures (s.t.TRaise? || Next(s, c).rises == s.rises) && s.rises <= Next(s, c).rises
    ensures s.latched ==> Next(s, c).latched
    ensures s.shut ==> Next(s, c).shut
  {
    match c
    case TriggerStep(m) =>
      if s.t.TRaise? ==> s.checks != [] {
        TriggerKeepsFlags(s, m);
      }
    case WorkerStep(k, m) =>
      if k < |s.workers| {
        WorkerKeepsFlags(s, k, m);
      }
    case _ =>
  }

  lemma TriggerKeepsFlags(s: State, m: Meets)
    requires s.t.TRaise? ==> s.checks != []
    ensures var u := TriggerNext(s, m);
            (s.t.TRaise? || u.rises == s.rises) && s.rises <= u.rises && (s.latched ==> u.latched) && u.shut == s.shut
  {
  }

  lemma WorkerKeepsFlags(s: State, k: nat, m: Meets)
    requires k < |s.workers|
    ensures var u := WorkerNext(s, k, m); u.rises == s.rises && (s.latched ==> u.latched) && (s.shut ==> u.shut)
  {
  }

  /** Once `begin_shutdown` has set its flag the pin is never driven high again. */
  lemma {:induction false} NoPulseAfterShutdown(s: State, more: seq<Choice>)
    requires Inv(s) && s.shut
    ensures Run(s, more).rises == s.rises && Run(s, more).shut
    decreases |more|
  {
    if more != [] {
      NextKeeps(s, more[0]);
      RisesOnlyAtRaise(s, more[0]);
      NoPulseAfterShutdown(Next(s, more[0]), more[1..]);
    }
  }

  /** Every pulse belongs to an earlier hold of the boundary than the one that set the flag. */
  lemma PulsesPrecedeShutdown(s: State, choices: seq<Choice>, more: seq<Choice>)
    requires Constructed(s) && Run(s, choices).shut
    ensures Run(s, choices + more).rises == Run(s, choices).rises
    ensures var u := Run(s, choices); u.shutSection.Some? && forall i :: 0 <= i < |u.rises| ==>
                                                                           u.rises[i].section < u.shutSection.value
  {
    ConstructedInv(s);
    RunKeeps(s, choices);
    SplitRun(s, choices, more);
    NoPulseAfterShutdown(Run(s, choices), more);
  }

  lemma {:induction false} LatchIsForGood(s: State, more: seq<Choice>)
    requires s.latched
    ensures Run(s, more).latched
    decreases |more|
  {
    if more != [] {
      RisesOnlyAtRaise(s, more[0]);
      LatchIsForGood(Next(s, more[0]), more[1..]);
    }
  }

  /**
   Whenever no `trigger` is running the pin is low or the latch is set, now and for good; after
   an answer of `activated` or `relay_error` the pin is low.
   */
  lemma TriggerLeavesThePinSafe(s: State, choices: seq<Choice>, more: seq<Choice>)
    requires Constructed(s) && Run(s, choices).t.TIdle?
    ensures !Run(s, choices).high || Run(s, choices + more).latched
    ensures var reply := Run(s, choices).reply;
            reply.Some? && (reply.value.answer.Activated? || reply.value.answer.RelayError?) ==> !Run(s, choices).high
  {
    ConstructedInv(s);
    RunKeeps(s, choices);
    SplitRun(s, choices, more);
    if Run(s, choices).latched {
      LatchIsForGood(Run(s, choices), more);
    }
  }

  /** `activated` means the pin rose in that call; a refusal means it did not. */
  lemma AnswersAreTrue(s: State, choices: seq<Choice>)
    requires Constructed(s)
    ensures var u := Run(s, choices);
            u.t.TIdle? && u.reply.Some? ==>
              && (u.reply.value.answer.Activated? ==> HasRise(u.rises, u.reply.value.id))
              && (u.reply.value.answer.Refused? ==> !HasRise(u.rises, u.reply.value.id))
  {
    ConstructedInv(s);
    RunKeeps(s, choices);
  }

  // ---- The deactivation callback ------------------------------------------------------------

  ghost predicate NoticesTrue(s: State) {
    forall id :: id in s.notified ==> HasRise(s.rises, id)
  }

  lemma RisesStay(s: State, c: Choice, id: nat)
    requires HasRise(s.rises, id)
    ensures HasRise(Next(s, c).rises, id)
  {
    var i :| 0 <= i < |s.rises| && s.rises[i].id == id;
    RisesOnlyAtRaise(s, c);
    assert Next(s, c).rises[i] == s.rises[i];
  }

  lemma TriggerLeavesWorkers(s: State, m: Meets)
    requires s.t.TRaise? ==> s.checks != []
    ensures TriggerNext(s, m).workers == s.workers
  {
  }

  lemma TriggerOnlyReports(s: State, m: Meets)
    requires s.t.TRaise? ==> s.checks != []
    ensures s.reported <= TriggerNext(s, m).reported && s.notified <= TriggerNext(s, m).notified
  {
  }

  lemma WorkerLeavesOthers(s: State, k: nat, j: nat, m: Meets)
    requires j < |s.workers| && k < |s.workers| && j != k
    ensures var u := WorkerNext(s, k, m); |u.workers| == |s.workers| && u.workers[j] == s.workers[j]
  {
    if !InBoundary(s.workers[k]) {
      assert |WorkerNext(s, k, m).workers| == |s.workers|;
    }
  }

  lemma WorkerOnlyReports(s: State, k: nat, m: Meets)
    requires k < |s.workers|
    ensures var u := WorkerNext(s, k, m); s.reported <= u.reported && s.notified == u.notified
  {
  }

  lemma TriggerNotifies(s: State, m: Meets)
    requires s.t.TRaise? ==> s.checks != []
    ensures TriggerNext(s, m).notified == if s.t.TNotify? then s.notified + {s.t.call.id} else s.notified
  {
  }

  lemma NotifiesOwnCall(s: State, c: Choice)
    ensures Next(s, c).notified == if s.t.TNotify? && c.TriggerStep? then s.notified + {s.t.call.id} else s.notified
  {
    match c
    case TriggerStep(m) =>
      if s.t.TRaise? ==> s.checks != [] {
        TriggerNotifies(s, m);
      }
    case WorkerStep(k, m) =>
      if k < |s.workers| {
        WorkerOnlyReports(s, k, m);
      }
    case _ =>
  }

  lemma {:induction false} NoticesStayTrue(s: State, choices: seq<Choice>)
    requires Inv(s) && NoticesTrue(s)
    ensures NoticesTrue(Run(s, choices))
    decreases |choices|
  {
    if choices != [] {
      var u := Next(s, choices[0]);
      NextKeeps(s, choices[0]);
      NotifiesOwnCall(s, choices[0]);
      forall id | id in u.notified
        ensures HasRise(u.rises, id)
      {
        RisesStay(s, choices[0], id);
      }
      NoticesStayTrue(u, choices[1..]);
    }
  }

  /**
   Whichever thread switched the pin off: a callback runs at most once, after its activation
   was notified, and only for a call whose pulse happened.
   */
  lemma CallbackRunsOnce(s: State, choices: seq<Choice>, i: nat)
    requires Constructed(s) && i < |Run(s, choices).ran|
    ensures var u := Run(s, choices);
            && u.ran[i] in u.notified && HasRise(u.rises, u.ran[i])
            && forall j :: 0 <= j < |u.ran| && j != i ==> u.ran[j] != u.ran[i]
  {
    ConstructedInv(s);
    RunKeeps(s, choices);
    NoticesStayTrue(s, choices);
  }

  /** How many steps the holder of a callback still needs. */
  function Stage(w: WorkerPc): nat {
    match w
    case WHeld(_) => 4
    case WSpawn(_) => 3
    case WWait(_) => 2
    case WReporting(_) => 1
    case _ => 0
  }

  /** A `trigger` that waits for its callback waits for a thread that holds it and is not blocked. */
  lemma WaitHasAHolder(s: State)
    requires Inv(s) && s.t.TWait? && s.t.call.reports && s.t.call.id !in s.reported
    ensures exists k :: 0 <= k < |s.workers| && WorkerCb(s.workers[k]) == Some(s.t.call.id) && s.t.call.id in s.notified
  {
    var k :| 0 <= k < |s.workers| && WorkerCb(s.workers[k]) == Some(s.t.call.id);
    assert CbOk(SceneOf(s), s.workers[k], s.t.call.id);
  }

  function Turns(choices: seq<Choice>, k: nat): nat {
    if choices == [] then 0
    else (if choices[0].WorkerStep? && choices[0].k == k then 1 else 0) + Turns(choices[1..], k)
  }

  lemma OthersLeaveHolder(s: State, k: nat, c: Choice)
    requires k < |s.workers| && !(c.WorkerStep? && c.k == k)
    ensures k < |Next(s, c).workers| && Next(s, c).workers[k] == s.workers[k]
    ensures s.reported <= Next(s, c).reported && s.notified <= Next(s, c).notified
  {
    match c
    case TriggerStep(m) =>
      if s.t.TRaise? ==> s.checks != [] {
        TriggerLeavesWorkers(s, m);
        TriggerOnlyReports(s, m);
      }
    case WorkerStep(j, m) =>
      if j < |s.workers| {
        WorkerLeavesOthers(s, j, k, m);
        WorkerOnlyReports(s, j, m);
      }
    case _ =>
  }

  lemma HolderAdvances(s: State, k: nat, m: Meets, id: nat)
    requires k < |s.workers| && WorkerCb(s.workers[k]) == Some(id) && id in s.notified
    ensures var u := Next(s, WorkerStep(k, m));
            && k < |u.workers| && Stage(u.workers[k]) < Stage(s.workers[k]) && id in u.notified
            && (WorkerCb(u.workers[k]) == Some(id) || id in u.reported)
  {
  }

  lemma {:induction false} ReportedForGood(s: State, choices: seq<Choice>, id: nat)
    requires id in s.reported
    ensures id in Run(s, choices).reported
    decreases |choices|
  {
    if choices != [] {
      assert s.reported <= Next(s, choices[0]).reported;
      ReportedForGood(Next(s, choices[0]), choices[1..], id);
    }
  }

  /**
   The wait ends: in any run that gives the holder as many turns as its stage, whatever else is
   interleaved, the callback has been run or skipped, so `wait_until_notified` returns.
   */
  lemma {:induction false} WaitEnds(s: State, choices: seq<Choice>, k: nat, id: nat)
    requires k < |s.workers| && WorkerCb(s.workers[k]) == Some(id) && id in s.notified
    requires Turns(choices, k) >= Stage(s.workers[k])
    ensures id in Run(s, choices).reported
    decreases |choices|
  {
    var c := choices[0];
    var u := Next(s, c);
    if c.WorkerStep? && c.k == k {
      HolderAdvances(s, k, c.meets, id);
      if id in u.reported {
        ReportedForGood(u, choices[1..], id);
      } else {
        WaitEnds(u, choices[1..], k, id);
      }
    } else {
      OthersLeaveHolder(s, k, c);
      WaitEnds(u, choices[1..], k, id);
    }
  }

  lemma WaitingStays(s: State, c: Choice, call: Call)
    requires s.t == TWait(call)
    ensures Next(s, c).t == TWait(call)
            || (call.id in s.reported && Next(s, c).t.TIdle? && Next(s, c).reply == Some(Reply(call.id, Activated)))
    ensures c.TriggerStep? && call.id in s.reported ==> Next(s, c).t.TIdle?
  {
  }

  /** At some point of the run `trigger` has returned `activated` for this call. */
  ghost predicate Returns(s: State, choices: seq<Choice>, id: nat) {
    exists n :: 0 <= n <= |choices| && Run(s, choices[..n]).t.TIdle?
                && Run(s, choices[..n]).reply == Some(Reply(id, Activated))
  }

  lemma ReturnsLater(s: State, c: Choice, rest: seq<Choice>, id: nat)
    requires Returns(Next(s, c), rest, id)
    ensures Returns(s, [c] + rest, id)
  {
    var u := Next(s, c);
    var n :| 0 <= n <= |rest| && Run(u, rest[..n]).t.TIdle? && Run(u, rest[..n]).reply == Some(Reply(id, Activated));
    assert ([c] + rest)[..n + 1] == [c] + rest[..n] && ([c] + rest[..n])[1..] == rest[..n];
    assert Run(s, ([c] + rest)[..n + 1]) == Run(u, rest[..n]);
  }

  lemma ReturnsNow(s: State, c: Choice, rest: seq<Choice>, id: nat)
    requires Next(s, c).t.TIdle? && Next(s, c).reply == Some(Reply(id, Activated))
    ensures Returns(s, [c] + rest, id)
  {
    assert rest[..0] == [];
    assert Run(Next(s, c), rest[..0]) == Next(s, c);
    ReturnsLater(s, c, rest, id);
  }

  /** The callback is reported, or worker `k` holds it and has enough turns in the run. */
  ghost predicate WillReport(s: State, choices: seq<Choice>, id: nat, k: nat) {
    || id in s.reported
    || (k < |s.workers| && WorkerCb(s.workers[k]) == Some(id) && id in s.notified
        && Turns(choices, k) >= Stage(s.workers[k]))
  }

  lemma StillWillReport(s: State, c: Choice, rest: seq<Choice>, id: nat, k: nat)
    requires WillReport(s, [c] + rest, id, k)
    ensures WillReport(Next(s, c), rest, id, k)
  {
    assert ([c] + rest)[1..] == rest;
    if id in s.reported {
      ReportedForGood(s, [c], id);
      assert [c][1..] == [] && Run(s, [c]) == Next(s, c);
    } else if c.WorkerStep? && c.k == k {
      HolderAdvances(s, k, c.meets, id);
    } else {
      OthersLeaveHolder(s, k, c);
    }
  }

  lemma {:induction false} WaitReturns(s: State, choices: seq<Choice>, m: Meets, call: Call, k: nat)
    requires s.t == TWait(call) && WillReport(s, choices, call.id, k)
    ensures Returns(s, choices + [TriggerStep(m)], call.id)
    decreases |choices|
  {
    if choices == [] {
      WaitingStays(s, TriggerStep(m), call);
      ReturnsNow(s, TriggerStep(m), [], call.id);
      assert [] + [TriggerStep(m)] == [TriggerStep(m)] + [];
    } else {
      var c, rest := choices[0], choices[1..] + [TriggerStep(m)];
      assert choices == [c] + choices[1..] && choices + [TriggerStep(m)] == [c] + rest;
      WaitingStays(s, c, call);
      if Next(s, c).t.TIdle? {
        ReturnsNow(s, c, rest, call.id);
      } else {
        StillWillReport(s, c, choices[1..], call.id, k);
        WaitReturns(Next(s, c), choices[1..], m, call, k);
        ReturnsLater(s, c, rest, call.id);
      }
    }
  }

  /**
   `trigger`'s wait always finishes: in every reachable state in which it waits, its callback has
   been run or skipped or some worker `k` holds it, and in any run that gives `k` its turns and
   then `trigger` one, whatever else is interleaved, `trigger` returns `activated`.
   */
  lemma TriggerReturns(s: State, before: seq<Choice>) returns (k: nat)
    requires Constructed(s) && Run(s, before).t.TWait?
    ensures var u := Run(s, before);
            var id := u.t.call.id;
            && (id in u.reported || (k < |u.workers| && WorkerCb(u.workers[k]) == Some(id) && id in u.notified))
            && forall choices, m :: WillReport(u, choices, id, k) ==> Returns(u, choices + [TriggerStep(m)], id)
  {
    ConstructedInv(s);
    RunKeeps(s, before);
    var u := Run(s, before);
    var call := u.t.call;
    k := 0;
    if call.id !in u.reported {
      WaitHasAHolder(u);
      k :| 0 <= k < |u.workers| && WorkerCb(u.workers[k]) == Some(call.id);
    }
    forall choices, m | WillReport(u, choices, call.id, k)
      ensures Returns(u, choices + [TriggerStep(m)], call.id)
    {
      WaitReturns(u, choices, m, call, k);
    }
  }

  // ---- The boundary lock ----------------------------------------------------------------------

  /** How many steps the owner of the boundary takes at most before it lets go. */
  function HoldLeft(s: State): nat {
    match s.owner
    case Nobody => 0
    case Trigger =>
      (match s.t
       case TCheck(_) => 3
       case TRaise(_) => 2
       case TRegister(_) => 1
       case TTake(_, _) => 1
       case TOff(_, _, left) => left + 2
       case _ => 0)
    case Worker(k) =>
      if k >= |s.workers| then 0 else
      (match s.workers[k]
       case WFlag => s.offAttempts + 4
       case WLatch => s.offAttempts + 3
       case WOff(left) => left + 2
       case WTake => 1
       case _ => 0)
  }

  predicate IsTurnOf(c: Choice, owner: Owner) {
    (owner.Trigger? && c.TriggerStep?) || (owner.Worker? && c.WorkerStep? && c.k == owner.k)
  }

  function OwnerTurns(choices: seq<Choice>, owner: Owner): nat {
    if choices == [] then 0 else (if IsTurnOf(choices[0], owner) then 1 else 0) + OwnerTurns(choices[1..], owner)
  }

  lemma TriggerLetsGo(s: State, m: Meets)
    requires LockOk(s) && s.owner.Trigger? && (s.t.TRaise? ==> s.checks != [])
    ensures var u := TriggerNext(s, m); u.owner.Nobody? || (u.owner.Trigger? && HoldLeft(u) < HoldLeft(s))
  {
  }

  lemma WorkerLetsGo(s: State, m: Meets)
    requires LockOk(s) && s.owner.Worker?
    ensures var u := WorkerNext(s, s.owner.k, m); u.owner.Nobody? || (u.owner == s.owner && HoldLeft(u) < HoldLeft(s))
  {
  }

  /** Without the boundary `trigger` cannot change who owns it. */
  lemma TriggerOutside(s: State, m: Meets)
    requires LockOk(s) && s.owner.Worker?
    ensures TriggerNext(s, m).owner == s.owner && TriggerNext(s, m).offAttempts == s.offAttempts
  {
  }

  lemma WorkerOutside(s: State, k: nat, m: Meets)
    requires LockOk(s) && k < |s.workers| && !s.owner.Nobody? && s.owner != Worker(k)
    ensures var u := WorkerNext(s, k, m); u.owner == s.owner && u.t == s.t && u.offAttempts == s.offAttempts
  {
  }

  lemma HoldShrinks(s: State, c: Choice)
    requires Inv(s) && !s.owner.Nobody?
    ensures IsTurnOf(c, s.owner) ==> Next(s, c).owner.Nobody?
                                     || (Next(s, c).owner == s.owner && HoldLeft(Next(s, c)) < HoldLeft(s))
    ensures !IsTurnOf(c, s.owner) ==> Next(s, c).owner == s.owner && HoldLeft(Next(s, c)) == HoldLeft(s)
  {
    match c
    case TriggerStep(m) =>
      if s.owner.Trigger? {
        TriggerLetsGo(s, m);
      } else {
        TriggerOutside(s, m);
        TriggerLeavesWorkers(s, m);
      }
    case WorkerStep(k, m) =>
      if s.owner == Worker(k) {
        WorkerLetsGo(s, m);
      } else if k < |s.workers| {
        WorkerOutside(s, k, m);
        if s.owner.Worker? {
          WorkerLeavesOthers(s, k, s.owner.k, m);
        }
      }
    case _ =>
  }

  /** No owner keeps the boundary: given its turns it lets go, at some point of the run. */
  lemma {:induction false} BoundaryIsReleased(s: State, choices: seq<Choice>)
    requires Inv(s) && !s.owner.Nobody? && OwnerTurns(choices, s.owner) >= HoldLeft(s)
    ensures exists n :: 0 <= n <= |choices| && Run(s, choices[..n]).owner.Nobody?
    decreases |choices|
  {
    assert choices != [];
    var u := Next(s, choices[0]);
    HoldShrinks(s, choices[0]);
    NextKeeps(s, choices[0]);
    if u.owner.Nobody? {
      assert choices[..1] == [choices[0]] && Run(u, []) == u;
      assert Run(s, choices[..1]).owner.Nobody?;
    } else {
      BoundaryIsReleased(u, choices[1..]);
      var n :| 0 <= n <= |choices[1..]| && Run(u, choices[1..][..n]).owner.Nobody?;
      assert choices[..n + 1][1..] == choices[1..][..n] && choices[..n + 1][0] == choices[0];
      assert Run(s, choices[..n + 1]).owner.Nobody?;
    }
  }
}
