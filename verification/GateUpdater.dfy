/**
 The updater's code on the host's state. The process meets the entries of `env` one by one and
 dies where they end; at every point the host is where the machine's run over the entries met so
 far leaves it.
 */
module GateUpdater {
  import opened Prelude
  import opened Releases
  import opened Updater
  import opened UpdaterSafety

  datatype Outcome<+T> = Returned(value: T) | Raised | Died {
    predicate IsFailure() { !Returned? }
    function PropagateFailure<U>(): Outcome<U>
      requires IsFailure()
    {
      if Died? then Died else Raised
    }
    function Extract(): T
      requires !IsFailure()
    {
      value
    }
  }

  /** Nothing that the process still meets fails. */
  predicate AllFine(meets: seq<Meets>) {
    meets == [] || (meets[0].fault == Fine && AllFine(meets[1..]))
  }

  class ReleaseHost {
    const setup: Setup
    var record: Option<Record>
    var link: Option<Sha>
    var dirs: set<Sha>
    var flags: Flags
    var rest: seq<Meets>
    ghost var machine: Host
    ghost const start: Host
    ghost const env: seq<Meets>

    /** The entries met so far. */
    ghost function Met(): seq<Meets>
      reads this
      requires |rest| <= |env|
    {
      env[..|env| - |rest|]
    }

    ghost predicate Valid()
      reads this
    {
      && |rest| <= |env| && rest == env[|env| - |rest|..] && machine == Run(start, Acts(Met()))
      && machine.setup == setup
      && machine.record == record && machine.link == link && machine.dirs == dirs && machine.flags == flags
    }

    /** A host at `h`, on which the updater is launched. */
    constructor (h: Host, meets: seq<Meets>)
      requires h.pc.Off?
      ensures Valid() && start == h && env == rest == meets && machine == Next(h, Launch)
    {
      setup, record, link, dirs, flags, rest := h.setup, h.record, h.link, h.dirs, h.flags, meets;
      start, env, machine := h, meets, Next(h, Launch);
      new;
      assert Acts([]) == [Launch] && [Launch][1..] == [];
    }

    ghost method Step(m: Meets)
      requires |rest| < |env| && rest == env[|env| - |rest|..] && m == env[|env| - |rest| - 1]
      requires machine == Run(start, Acts(env[..|env| - |rest| - 1]))
      modifies this`machine
      ensures machine == Advance(old(machine), m) && machine == Run(start, Acts(Met()))
    {
      var before := env[..|env| - |rest| - 1];
      assert Met()[..|Met()| - 1] == before;
      RunAppend(start, Acts(before), Act(m));
      machine := Advance(machine, m);
    }

    /** The environment of the next step, unless the process dies before it. */
    method Meet() returns (m: Outcome<Meets>)
      requires Valid()
      modifies this`rest
      ensures AllFine(old(rest)) ==> AllFine(rest) && (m.Returned? ==> m.value.fault == Fine)
      ensures m.Died? ==> rest == old(rest) == []
      ensures !m.Raised? && (m.Returned? ==> old(rest) == [m.value] + rest)
      ensures m.Returned? ==>
                |rest| < |env| && rest == env[|env| - |rest|..] && m.value == env[|env| - |rest| - 1]
                && |env| - |rest| - 1 == |env| - |old(rest)|
    {
      if rest == [] {
        return Died;
      }
      m, rest := Returned(rest[0]), rest[1..];
    }

    // ---- One action each -------------------------------------------------------------------

    method LegacyCommandState() returns (r: Outcome<Flags>)
      requires Valid() && machine.pc.Surveying?
      modifies this`rest, this`machine
      ensures AllFine(old(rest)) ==> AllFine(rest) && !r.Raised?
      ensures Valid() && (r.Died? ==> rest == [] && machine == old(machine))
      ensures r.Returned? ==> r.value == flags
      ensures r.Returned? ==>
                machine.pc == Recording(old(machine.pc.rec).(legacy := Some(flags)), old(machine.pc.activating))
      ensures r.Raised? ==> machine.pc == if old(machine.pc.activating) then Off
                                          else Undoing(old(machine.pc.rec), false)
    {
      var m :- Meet();
      Step(m);
      r := if m.fault == Fine then Returned(flags) else Raised;
    }

    method WritePendingActivation(rec: Record) returns (r: Outcome<()>)
      requires Valid() && machine.pc.Recording? && machine.pc.rec == rec
      modifies this`rest, this`record, this`machine
      ensures AllFine(old(rest)) ==> AllFine(rest) && !r.Raised?
      ensures Valid() && (r.Died? ==> rest == [] && machine == old(machine))
      ensures r.Returned? ==> record == Some(rec) && machine.pc == Retiring(rec, old(machine.pc.activating))
      ensures r.Raised? ==> machine.pc == if old(machine.pc.activating) then Off
                                          else Undoing(rec.(legacy := None), false)
    {
      var m :- Meet();
      Step(m);
      if m.fault != RaisesBefore {
        record := Some(rec);
      }
      r := if m.fault == Fine then Returned(()) else Raised;
    }

    /** `known` holds the flags when the caller has read them already. */
    method RetireLegacyCommandService(known: Option<Flags>) returns (r: Outcome<()>)
      requires Valid() && machine.pc.Retiring? && (machine.pc.activating <==> known.Some?)
      requires known.Some? ==> machine.pc.rec.legacy == known
      modifies this`rest, this`flags, this`machine
      ensures AllFine(old(rest)) ==> AllFine(rest) && !r.Raised?
      ensures Valid() && (r.Died? ==> rest == [] && machine == old(machine))
      ensures (flags.enabled ==> old(flags.enabled)) && (flags.active ==> old(flags.active))
      ensures r.Returned? && (known.None? || known == Some(old(flags))) ==> flags == Flags(false, false)
      ensures r.Returned? ==> machine.pc == if known.Some? then Linking(old(machine.pc.rec))
                                            else Confirming(old(machine.pc.rec), false)
      ensures r.Raised? ==> machine.pc == Undoing(old(machine.pc.rec), known.Some?)
    {
      var m :- Meet();
      var seen := if known.Some? then known.value else flags;
      Step(m);
      if !seen.enabled && !seen.active {
        return if known.Some? || m.fault == Fine then Returned(()) else Raised;
      }
      if m.fault == Fine {
        flags := Flags(false, false);
        return Returned(());
      }
      flags := Flags(flags.enabled && m.left.enabled, flags.active && m.left.active);
      return Raised;
    }

    /** `_atomic_symlink` to the release that is due. */
    method AtomicSymlink(target: Sha) returns (r: Outcome<()>)
      requires Valid()
      requires match machine.pc
               case Linking(rec) => target == rec.candidate
               case Undoing(rec, activating) =>
                 && target == rec.previous && target in dirs
                 && (activating ==> link == Some(rec.candidate) && rec.candidate != rec.previous)
               case _ => false
      modifies this`rest, this`link, this`machine
      ensures AllFine(old(rest)) ==> AllFine(rest) && !r.Raised?
      ensures Valid() && (r.Died? ==> rest == [] && machine == old(machine))
      ensures r.Returned? ==> link == Some(target)
      ensures !r.Died? && old(machine.pc).Linking? ==>
                machine.pc == if r.Returned? then Confirming(old(machine.pc.rec), true)
                else Undoing(old(machine.pc.rec), true)
      ensures !r.Died? && old(machine.pc).Undoing? ==>
                machine.pc == if r.Returned? then Restarting(old(machine.pc.rec), false) else Off
    {
      var m :- Meet();
      Step(m);
      if m.fault != RaisesBefore {
        link := Some(target);
      }
      r := if m.fault == Fine then Returned(()) else Raised;
    }

    method RestartAndConfirm() returns (r: Outcome<()>)
      requires Valid() && (machine.pc.Confirming? || machine.pc.Restarting?)
      modifies this`rest, this`machine
      ensures AllFine(old(rest)) ==> AllFine(rest) && !r.Raised?
      ensures Valid() && (r.Died? ==> rest == [] && machine == old(machine))
              && (r.Returned? ==> machine.confirmed == link)
      ensures !r.Died? && old(machine.pc).Confirming? ==>
                machine.pc == if r.Returned? then Clearing(old(machine.pc.rec), old(machine.pc.activating))
                else Undoing(old(machine.pc.rec), old(machine.pc.activating))
      ensures !r.Died? && old(machine.pc).Restarting? ==>
                machine.pc == if r.Returned? then Enabling(old(machine.pc.rec), old(machine.pc.resume)) else Off
    {
      var m :- Meet();
      Step(m);
      r := if m.fault == Fine then Returned(()) else Raised;
    }

    /** `_clear_pending_activation`: removing a missing record raises. */
    method ClearPendingActivation() returns (r: Outcome<()>)
      requires Valid() && (machine.pc.Clearing? || machine.pc.Forgetting?)
      modifies this`rest, this`record, this`machine
      ensures AllFine(old(rest)) ==> AllFine(rest)
      ensures AllFine(old(rest)) && old(record).Some? ==> !r.Raised?
      ensures Valid() && (r.Died? ==> rest == [] && machine == old(machine))
              && (r.Returned? ==> old(record).Some? && record == None)
      ensures !r.Died? && old(machine.pc).Clearing? ==>
                var Clearing(rec, activating) := old(machine.pc);
                machine.pc == if r.Returned? then (if activating then Listing(rec.candidate)
                                                   else Fetching(rec.candidate))
                else if activating then Undoing(rec, true) else Off
      ensures !r.Died? && old(machine.pc).Forgetting? ==>
                machine.pc == if r.Returned? && old(machine.pc.resume) then Fetching(old(machine.pc.rec.previous))
                else Off
    {
      var m :- Meet();
      Step(m);
      if record.None? || m.fault == RaisesBefore {
        return Raised;
      }
      record := None;
      r := if m.fault == Fine then Returned(()) else Raised;
    }

    /** `systemctl enable`, if the record says the unit was enabled. */
    method EnableLegacy(rec: Record, ghost resume: bool) returns (r: Outcome<()>)
      requires Valid() && machine.pc == Enabling(rec, resume) && rec.previous in setup.shipping && rec.legacy.Some?
      modifies this`rest, this`flags, this`machine
      ensures AllFine(old(rest)) ==> AllFine(rest) && !r.Raised?
      ensures Valid() && (r.Died? ==> rest == [] && machine == old(machine))
      ensures r.Returned? ==> flags == old(flags).(enabled := old(flags.enabled) || rec.legacy.value.enabled)
      ensures !r.Died? ==> machine.pc == if r.Returned? then Reactivating(rec, resume) else Off
    {
      var m :- Meet();
      Step(m);
      if !rec.legacy.value.enabled {
        return Returned(());
      }
      if m.fault != RaisesBefore {
        flags := flags.(enabled := true);
      }
      r := if m.fault == Fine then Returned(()) else Raised;
    }

    /** `systemctl restart`, if the record says the unit was active. */
    method RestartLegacy(rec: Record, ghost resume: bool) returns (r: Outcome<()>)
      requires Valid() && machine.pc == Reactivating(rec, resume) && rec.legacy.Some?
      modifies this`rest, this`flags, this`machine
      ensures AllFine(old(rest)) ==> AllFine(rest) && !r.Raised?
      ensures Valid() && (r.Died? ==> rest == [] && machine == old(machine))
      ensures r.Returned? ==> flags == old(flags).(active := old(flags.active) || rec.legacy.value.active)
      ensures !r.Died? ==> machine.pc == if r.Returned? then Forgetting(rec, resume) else Off
    {
      var m :- Meet();
      Step(m);
      if !rec.legacy.value.active {
        return Returned(());
      }
      if m.fault != RaisesBefore {
        flags := flags.(active := true);
      }
      r := if m.fault == Fine then Returned(()) else Raised;
    }

    method RestoreLegacyCommandService(rec: Record, ghost resume: bool) returns (r: Outcome<()>)
      requires Valid() && machine.pc == Enabling(rec, resume)
      modifies this`rest, this`flags, this`machine
      ensures AllFine(old(rest)) ==> AllFine(rest) && !r.Raised?
      ensures Valid()
      ensures r.Died? ==> rest == []
      ensures r.Returned? ==> machine.pc == Forgetting(rec, resume)
      ensures r.Returned? ==>
                var raised := rec.legacy.Some? && rec.previous in setup.shipping;
                && flags.enabled == (old(flags.enabled) || (raised && rec.legacy.value.enabled))
                && flags.active == (old(flags.active) || (raised && rec.legacy.value.active))
      ensures r.Raised? ==> machine.pc.Off?
    {
      if rec.legacy.None? || rec.previous !in setup.shipping {
        var m :- Meet();
        Step(m);
        return Returned(());
      }
      var _ :- EnableLegacy(rec, resume);
      var _ :- RestartLegacy(rec, resume);
      r := Returned(());
    }

    // ---- Reconciliation --------------------------------------------------------------------

    /** The previous release is linked: restart it, restore the unit, clear the record. */
    method RestorePrevious(rec: Record, ghost resume: bool) returns (r: Outcome<()>)
      requires Valid() && machine.pc == Restarting(rec, resume)
      modifies this`rest, this`record, this`flags, this`machine
      ensures AllFine(old(rest)) ==> AllFine(rest)
      ensures Valid() && (r.Returned? ==> record == None)
      ensures r.Died? ==> rest == []
      ensures !r.Died? ==> machine.pc == if r.Returned? && resume then Fetching(rec.previous) else Off
    {
      var _ :- RestartAndConfirm();
      var _ :- RestoreLegacyCommandService(rec, resume);
      var _ :- ClearPendingActivation();
      r := Returned(());
    }

    /** The `try` block of the candidate branch; `inHand` is the record its handler will use. */
    method ConfirmCandidate(rec: Record) returns (r: Outcome<()>, inHand: Record)
      requires Valid() && machine.pc == if rec.legacy.None? then Surveying(rec, false) else Retiring(rec, false)
      modifies this`rest, this`record, this`flags, this`machine
      ensures AllFine(old(rest)) ==> AllFine(rest)
      ensures Valid() && link == old(link) && dirs == old(dirs)
      ensures r.Died? ==> rest == []
      ensures inHand.candidate == rec.candidate && inHand.previous == rec.previous
      ensures r.Returned? ==> machine.pc == Clearing(inHand, false)
      ensures r.Raised? ==> machine.pc == Undoing(inHand, false)
    {
      inHand := rec;
      if rec.legacy.None? {
        var state := LegacyCommandState();
        if state.IsFailure() { return state.PropagateFailure(), inHand; }
        var rewritten := rec.(legacy := Some(state.value));
        r := WritePendingActivation(rewritten);
        if r.Raised? {
          assert rec == rewritten.(legacy := None);
        }
        if r.IsFailure() { return r, inHand; }
        inHand := rewritten;
      }
      r := RetireLegacyCommandService(None);
      if r.IsFailure() { return r, inHand; }
      r := RestartAndConfirm();
    }

    /** `reconcile_pending_activation`. */
    method ReconcilePendingActivation() returns (r: Outcome<Option<Sha>>)
      requires Valid() && machine.pc.Reading?
      modifies this`rest, this`record, this`link, this`flags, this`machine
      ensures AllFine(old(rest)) ==> AllFine(rest)
      ensures Valid()
      ensures AllFine(old(rest)) && old(record).None? && old(link).Some? && old(link).value in dirs ==>
                r.Died? || r == Returned(old(link))
      ensures r.Died? ==> rest == []
      ensures r.Returned? ==> record == None && machine.pc == if r.value.None? then Off else Fetching(r.value.value)
      ensures r.Raised? ==> machine.pc.Off?
    {
      var m :- Meet();
      Step(m);
      if m.fault != Fine || (link.Some? && link.value !in dirs) { return Raised; }
      if record.None? { return Returned(link); }
      var rec := record.value;
      if !IsSha(rec.candidate) || !IsSha(rec.previous) || rec.candidate == rec.previous { return Raised; }
      if rec.candidate !in dirs || rec.previous !in dirs { return Raised; }
      if link == Some(rec.previous) {
        var _ :- RestorePrevious(rec, true);
        return Returned(Some(rec.previous));
      }
      if link != Some(rec.candidate) { return Raised; }
      r := FinishCandidate(rec);
    }

    /** The candidate branch of `reconcile_pending_activation`, with its rollback. */
    method FinishCandidate(rec: Record) returns (r: Outcome<Option<Sha>>)
      requires Valid() && machine.pc == if rec.legacy.None? then Surveying(rec, false) else Retiring(rec, false)
      requires rec.previous in dirs
      modifies this`rest, this`record, this`link, this`flags, this`machine
      ensures AllFine(old(rest)) ==> AllFine(rest)
      ensures Valid()
      ensures r.Died? ==> rest == []
      ensures r.Returned? ==> record == None && r.value == Some(rec.candidate) && machine.pc == Fetching(rec.candidate)
      ensures r.Raised? ==> machine.pc.Off?
    {
      var confirmed, inHand := ConfirmCandidate(rec);
      if confirmed.Died? { return Died; }
      if confirmed.Raised? {
        var _ :- AtomicSymlink(inHand.previous);
        var _ :- RestorePrevious(inHand, false);
        return Raised;
      }
      var _ :- ClearPendingActivation();
      return Returned(Some(inHand.candidate));
    }

    // ---- Activation ------------------------------------------------------------------------

    /** The `try` block of `activate_release` after the record was written. */
    method SwitchTo(rec: Record) returns (r: Outcome<()>)
      requires Valid() && machine.pc == Retiring(rec, true) && rec.legacy == Some(flags) && record == Some(rec)
      modifies this`rest, this`record, this`link, this`flags, this`machine
      ensures AllFine(old(rest)) ==> AllFine(rest) && !r.Raised?
      ensures Valid() && dirs == old(dirs)
      ensures r.Died? ==> rest == []
      ensures r.Returned? ==> machine.pc == Listing(rec.candidate) && link == Some(rec.candidate) && record == None
                              && flags == Flags(false, false)
      ensures r.Raised? ==> machine.pc == Undoing(rec, true)
    {
      var _ :- RetireLegacyCommandService(rec.legacy);
      var _ :- AtomicSymlink(rec.candidate);
      var _ :- RestartAndConfirm();
      var _ :- ClearPendingActivation();
      r := Returned(());
    }

    /**
     `activate_release`; it returns only when the candidate is linked, healthy and unrecorded.
     `untouched` tells that it raised before it changed anything.
     */
    method ActivateRelease(release: Sha, previous: Sha) returns (r: Outcome<()>, untouched: bool)
      requires Valid() && machine.pc == Surveying(Record(release, previous, None), true)
      requires release != previous && previous in dirs
      modifies this`rest, this`record, this`link, this`flags, this`machine
      ensures AllFine(old(rest)) ==> AllFine(rest) && !r.Raised?
      ensures Valid() && dirs == old(dirs)
      ensures r.Died? ==> rest == []
      ensures r.Returned? ==> machine.pc == Listing(release) && link == Some(release) && record == None
                              && flags == Flags(false, false)
      ensures r.Raised? ==> machine.pc.Off?
      ensures untouched ==> r.Raised? && link == old(link) && record == old(record) && flags == old(flags)
    {
      untouched := false;
      var state := LegacyCommandState();
      if state.IsFailure() { return state.PropagateFailure(), state.Raised?; }
      var rec := Record(release, previous, Some(state.value));
      r := WritePendingActivation(rec);
      if r.IsFailure() { return r, false; }
      r := SwitchTo(rec);
      if r.Raised? {
        r := RollBack(rec);
      }
    }

    /** The handler of `activate_release`; it always raises. */
    method RollBack(rec: Record) returns (r: Outcome<()>)
      requires Valid() && machine.pc == Undoing(rec, true) && rec.candidate != rec.previous && rec.previous in dirs
      modifies this`rest, this`record, this`link, this`flags, this`machine
      ensures Valid() && !r.Returned? && (r.Raised? ==> machine.pc.Off?)
      ensures r.Died? ==> rest == []
    {
      if link == Some(rec.candidate) {
        var _ :- AtomicSymlink(rec.previous);
      } else {
        var _ :- ConfirmLink(rec);
      }
      var _ :- RestorePrevious(rec, false);
      r := Raised;
    }

    /** The handler's look at the link when the candidate is not linked. */
    method ConfirmLink(rec: Record) returns (r: Outcome<()>)
      requires Valid() && machine.pc == Undoing(rec, true) && link != Some(rec.candidate)
      modifies this`rest, this`machine
      ensures Valid()
      ensures r.Died? ==> rest == []
      ensures r.Returned? ==> link == Some(rec.previous) && machine.pc == Restarting(rec, false)
      ensures r.Raised? ==> machine.pc.Off?
    {
      var m :- Meet();
      Step(m);
      r := if link == Some(rec.previous) && m.fault == Fine then Returned(()) else Raised;
    }

    // ---- One run -----------------------------------------------------------------------------

    /** The GitHub reads and `decide_update`; None when there is nothing to install. */
    method FindCandidate(current: Sha) returns (r: Outcome<Option<Sha>>)
      requires Valid() && machine.pc == Fetching(current)
      modifies this`rest, this`machine
      ensures Valid()
      ensures r.Died? ==> rest == []
      ensures !r.Died? ==>
                && old(rest) != []
                && var m := old(rest)[0];
                var offered := m.fault == Fine && m.head.Some? && IsSha(m.head.value) && m.head.value != current
                               && m.runs.Some?;
                && (r == Returned(m.head) && m.head.Some? <==>
                    offered && HasQualifyingRun(m.runs.value, m.head.value, setup.branch))
                && (r == Returned(None) <==>
                    || (m.fault == Fine && m.head == Some(current) && IsSha(current))
                    || (offered && !HasQualifyingRun(m.runs.value, m.head.value, setup.branch)))
                && (r.Returned? && r.value.Some? ==> r.value == m.head)
      ensures r.Returned? && r.value.Some? ==> machine.pc == Staging(r.value.value, current)
      ensures r.Raised? || r == Returned(None) ==> machine.pc.Off?
      ensures AllFine(old(rest)) ==> AllFine(rest)
    {
      var m :- Meet();
      Step(m);
      if m.fault != Fine { return Raised; }
      var decision := DecideUpdate(Some(current), m.head, m.runs, setup.branch);
      if decision.Err? { return Raised; }
      r := Returned(if decision.value == Install then m.head else None);
    }

    method StageRelease(candidate: Sha, ghost current: Sha) returns (r: Outcome<()>)
      requires Valid() && machine.pc == Staging(candidate, current) && link.Some?
      modifies this`rest, this`dirs, this`machine
      ensures AllFine(old(rest)) ==> AllFine(rest) && !r.Raised?
      ensures Valid() && old(dirs) <= dirs
      ensures r.Died? ==> rest == []
      ensures r.Returned? ==> candidate in dirs && machine.pc == Surveying(Record(candidate, link.value, None), true)
      ensures r.Raised? ==> machine.pc.Off?
    {
      var m :- Meet();
      Step(m);
      if m.fault != RaisesBefore {
        dirs := dirs + {candidate};
      }
      r := if m.fault == Fine then Returned(()) else Raised;
    }

    /** `prune_releases`. */
    method PruneReleases(current: Sha) returns (r: Outcome<()>)
      requires Valid() && machine.pc == Listing(current) && setup.keep >= 3
      modifies this`rest, this`dirs, this`machine
      ensures AllFine(old(rest)) ==> AllFine(rest) && !r.Raised?
      ensures Valid() && dirs <= old(dirs) && (current in old(dirs) ==> current in dirs)
      ensures r.Died? ==> rest == []
      ensures r.Returned? ==> old(rest) != [] && forall e ::
                                e in Doomed(old(rest)[0].entries, current, setup.keep) ==> e.sha !in dirs
      ensures !r.Died? ==> machine.pc.Off?
    {
      var m :- Meet();
      Step(m);
      if m.fault != Fine { return Raised; }
      PruningKeepsTheNewest(m.entries, current, setup.keep);
      r := RemoveReleases(current, Doomed(m.entries, current, setup.keep));
    }

    method RemoveReleases(current: Sha, doomed: seq<Entry>) returns (r: Outcome<()>)
      requires Valid() && machine.pc == Pruning(current, doomed) && forall e :: e in doomed ==> e.sha != current
      modifies this`rest, this`dirs, this`machine
      ensures AllFine(old(rest)) ==> AllFine(rest) && !r.Raised?
      ensures Valid() && dirs <= old(dirs) && (current in old(dirs) ==> current in dirs)
      ensures r.Died? ==> rest == []
      ensures r.Returned? ==> forall e :: e in doomed ==> e.sha !in dirs
      ensures !r.Died? ==> machine.pc.Off?
    {
      var i := 0;
      while i < |doomed|
        invariant 0 <= i <= |doomed| && Valid() && machine.pc == Pruning(current, doomed[i..])
        invariant dirs <= old(dirs) && (current in old(dirs) ==> current in dirs)
        invariant (forall j :: 0 <= j < i ==> doomed[j].sha !in dirs) && (AllFine(old(rest)) ==> AllFine(rest))
      {
        assert doomed[i] in doomed && doomed[i..][1..] == doomed[i + 1..];
        var _ :- RemoveRelease(current, doomed[i..]);
        i := i + 1;
      }
      var m :- Meet();
      Step(m);
      r := Returned(());
    }

    /** `shutil.rmtree` of the first doomed release. */
    method RemoveRelease(current: Sha, doomed: seq<Entry>) returns (r: Outcome<()>)
      requires Valid() && machine.pc == Pruning(current, doomed) && doomed != []
      modifies this`rest, this`dirs, this`machine
      ensures AllFine(old(rest)) ==> AllFine(rest) && !r.Raised?
      ensures Valid() && (dirs == old(dirs) || dirs == old(dirs) - {doomed[0].sha})
      ensures r.Died? ==> rest == []
      ensures r.Returned? ==> dirs == old(dirs) - {doomed[0].sha} && machine.pc == Pruning(current, doomed[1..])
      ensures r.Raised? ==> machine.pc.Off?
    {
      var m :- Meet();
      Step(m);
      if m.fault == RaisesBefore { return Raised; }
      dirs := dirs - {doomed[0].sha};
      r := if m.fault == Fine then Returned(()) else Raised;
    }

    /** Stage, activate and prune; a failed activation is exit code 1. */
    method InstallCandidate(candidate: Sha, current: Sha) returns (r: Outcome<nat>)
      requires Valid() && machine.pc == Staging(candidate, current) && setup.keep >= 3
      requires link == Some(current) && current in dirs && candidate != current && record == None
      modifies this`rest, this`record, this`link, this`dirs, this`flags, this`machine
      ensures Valid() && !r.Raised?
      ensures AllFine(old(rest)) && r.Returned? ==> r == Returned(0)
      ensures r.Died? ==> rest == []
      ensures r.Returned? ==> machine.pc.Off? && r.value <= 1
      ensures r == Returned(0) ==> record == None && link.Some? && link.value in dirs
    {
      var staged := StageRelease(candidate, current);
      if staged.Died? { return Died; }
      if staged.Raised? { return Returned(0); }
      var activated, untouched := ActivateRelease(candidate, current);
      if activated.Died? { return Died; }
      if activated.Raised? { return Returned(if untouched then 0 else 1); }
      var pruned := PruneReleases(candidate);
      r := if pruned.Died? then Died else Returned(0);
    }

    /**
     `run_once`: exit code 1 for an unsafe state or a failed activation, 0 otherwise. The run
     ends only where the machine stops or the process dies; after exit code 0 no record is
     pending and the linked release exists.
     */
    method RunOnce() returns (r: Outcome<nat>)
      requires Valid() && machine.pc.Reading? && setup.keep >= 3 && Inv(start)
      modifies this
      ensures Valid() && !r.Raised?
      ensures r.Died? ==> rest == []
      ensures r.Returned? ==> machine.pc.Off? && r.value <= 1
      ensures r == Returned(0) ==> record == None && link.Some? && link.value in dirs
      ensures AllFine(old(rest)) && old(record).None? && old(link).Some? ==> !r.Returned? || r == Returned(0)
      ensures r.Returned? ==> forall head :: Offers(start, Met(), head) ==> HeadInstalled(machine, head)
    {
      r := Serve();
      if r.Returned? {
        OfferedIsInstalled();
      }
    }

    method Serve() returns (r: Outcome<nat>)
      requires Valid() && machine.pc.Reading? && setup.keep >= 3 && Inv(start)
      modifies this
      ensures Valid() && !r.Raised?
      ensures r.Died? ==> rest == []
      ensures r.Returned? ==> machine.pc.Off? && r.value <= 1
      ensures r == Returned(0) ==> record == None && link.Some? && link.value in dirs
      ensures AllFine(old(rest)) && old(record).None? && old(link).Some? ==> !r.Returned? || r == Returned(0)
    {
      LinkedExists();
      var reconciled := ReconcilePendingActivation();
      if reconciled.Died? { return Died; }
      if reconciled.Raised? || reconciled.value.None? { return Returned(1); }
      var current := reconciled.value.value;
      LinkedExists();
      var candidate := FindCandidate(current);
      if candidate.Died? { return Died; }
      if candidate.Raised? || candidate.value.None? { return Returned(0); }
      r := InstallCandidate(candidate.value.value, current);
    }

    lemma LinkedExists()
      requires Valid() && Inv(start)
      ensures link.Some? ==> link.value in dirs
      ensures machine.pc.Fetching? ==> record.None? && link == Some(machine.pc.current)
    {
      RunKeeps(start, Acts(Met()));
    }

    /** A head that was offered throughout the run is installed when the process stops. */
    lemma OfferedIsInstalled()
      requires Valid() && machine.pc.Off?
      ensures forall head :: Offers(start, Met(), head) ==> HeadInstalled(machine, head)
    {
      forall head | Offers(start, Met(), head)
        ensures HeadInstalled(machine, head)
      {
        NewHeadIsInstalled(start, Met(), head);
      }
    }
  }
}
