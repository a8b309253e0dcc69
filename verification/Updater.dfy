/**
 Release activation as a machine: a pending record, a symlink, the release directories and the
 legacy unit's flags survive a crash; the updater process may die, or the host reboot, between
 any two steps. A write or a command may raise before or after it took effect.
 */
module Updater {
  import opened Prelude
  import opened Releases

  /** Whether the legacy command unit is enabled, and whether it is active. */
  datatype Flags = Flags(enabled: bool, active: bool)

  /** The pending-activation record; version 1 carries no flags. */
  datatype Record = Record(candidate: Sha, previous: Sha, legacy: Option<Flags>)

  /** `activating` tells `activate_release` from reconciliation; `resume` that `run_once` goes on afterwards. */
  datatype Pc =
    | Off
    | Reading                                      // about to read the record and the link
    | Surveying(rec: Record, activating: bool)     // about to read the legacy flags
    | Recording(rec: Record, activating: bool)     // about to write the version-2 record
    | Retiring(rec: Record, activating: bool)      // about to disable the legacy unit
    | Linking(rec: Record)                         // about to link the candidate
    | Confirming(rec: Record, activating: bool)    // restarting the candidate under the health check
    | Clearing(rec: Record, activating: bool)      // the candidate is healthy, about to clear the record
    | Undoing(rec: Record, activating: bool)       // about to link the previous release again
    | Restarting(rec: Record, resume: bool)        // restarting the previous release under the health check
    | Enabling(rec: Record, resume: bool)
    | Reactivating(rec: Record, resume: bool)
    | Forgetting(rec: Record, resume: bool)        // about to clear the record
    | Fetching(current: Sha)
    | Staging(candidate: Sha, current: Sha)
    | Listing(current: Sha)
    | Pruning(current: Sha, doomed: seq<Entry>)

  datatype Setup = Setup(shipping: set<Sha>, branch: string, keep: nat, trusted: set<Sha>)

  datatype Evidence = Evidence(sha: Sha, runs: seq<CiRun>)

  /** The record as it was cleared, and what was linked, confirmed and flagged at that moment. */
  datatype Clear = Clear(record: Record, link: Option<Sha>, confirmed: Option<Sha>, flags: Flags, rebooted: bool)

  /**
   `confirmed` is the release whose health check this process last saw pass; `rebooted` says the
   host rebooted since the record was written. The logs are read by no step.
   */
  datatype Host = Host(
    setup: Setup, record: Option<Record>, link: Option<Sha>, dirs: set<Sha>, flags: Flags, rebooted: bool,
    pc: Pc, confirmed: Option<Sha>, evidence: seq<Evidence>, linked: seq<Sha>, clears: seq<Clear>)

  /** What one step meets. `left` is what a failed disable command left of the flags. */
  datatype Meets = Meets(fault: Fault, left: Flags, head: Option<Sha>, runs: Option<seq<CiRun>>, entries: seq<Entry>)

  datatype Choice =
    | Launch
    | Act(meets: Meets)
    | Kill
    | Reboot(unitStarts: bool)

  function ReadStep(h: Host): Host {
    if h.link.Some? && h.link.value !in h.dirs then h.(pc := Off)
    else match h.record
         case None => h.(pc := if h.link.None? then Off else Fetching(h.link.value))
         case Some(rec) =>
           if !IsSha(rec.candidate) || !IsSha(rec.previous) || rec.candidate == rec.previous then h.(pc := Off)
           else if rec.candidate !in h.dirs || rec.previous !in h.dirs then h.(pc := Off)
           else if h.link == Some(rec.previous) then h.(pc := Restarting(rec, true))
           else if h.link != Some(rec.candidate) then h.(pc := Off)
           else h.(pc := if rec.legacy.None? then Surveying(rec, false) else Retiring(rec, false))
  }

  function SurveyStep(h: Host, m: Meets): Host
    requires h.pc.Surveying?
  {
    var Surveying(rec, activating) := h.pc;
    if m.fault == Fine then h.(pc := Recording(rec.(legacy := Some(h.flags)), activating))
    else h.(pc := if activating then Off else Undoing(rec, false))
  }

  function RecordStep(h: Host, m: Meets): Host
    requires h.pc.Recording?
  {
    var Recording(rec, activating) := h.pc;
    var written := if m.fault == RaisesBefore then h else h.(record := Some(rec), rebooted := false);
    if m.fault == Fine then written.(pc := Retiring(rec, activating))
    else written.(pc := if activating then Off else Undoing(rec.(legacy := None), false))
  }

  function RetireStep(h: Host, m: Meets): Host
    requires h.pc.Retiring?
  {
    var Retiring(rec, activating) := h.pc;
    var next := if activating then Linking(rec) else Confirming(rec, false);
    var seen := if activating && rec.legacy.Some? then rec.legacy.value else h.flags;
    if !seen.enabled && !seen.active then h.(pc := if activating || m.fault == Fine then next else Undoing(rec, false))
    else if m.fault == Fine then h.(flags := Flags(false, false), pc := next)
    else h.(flags := Flags(h.flags.enabled && m.left.enabled, h.flags.active && m.left.active),
         pc := Undoing(rec, activating))
  }

  function Link(h: Host, sha: Sha, m: Meets): Host {
    if m.fault == RaisesBefore then h else h.(link := Some(sha), confirmed := None, linked := h.linked + [sha])
  }

  function LinkStep(h: Host, m: Meets): Host
    requires h.pc.Linking?
  {
    var rec := h.pc.rec;
    Link(h, rec.candidate, m).(pc := if m.fault == Fine then Confirming(rec, true) else Undoing(rec, true))
  }

  function ConfirmStep(h: Host, m: Meets): Host
    requires h.pc.Confirming?
  {
    var Confirming(rec, activating) := h.pc;
    if m.fault == Fine then h.(confirmed := h.link, pc := Clearing(rec, activating))
    else h.(confirmed := None, pc := Undoing(rec, activating))
  }

  /** Removing the record; a missing record raises. */
  function Forget(h: Host, m: Meets): (r: (Host, bool)) {
    match h.record
    case None => (h, false)
    case Some(rec) =>
      if m.fault == RaisesBefore then (h, false)
      else (h.(record := None, clears := h.clears + [Clear(rec, h.link, h.confirmed, h.flags, h.rebooted)]),
            m.fault == Fine)
  }

  function ClearStep(h: Host, m: Meets): Host
    requires h.pc.Clearing?
  {
    var Clearing(rec, activating) := h.pc;
    var (cleared, ok) := Forget(h, m);
    if ok then cleared.(pc := if activating then Listing(rec.candidate) else Fetching(rec.candidate))
    else cleared.(pc := if activating then Undoing(rec, true) else Off)
  }

  function UndoStep(h: Host, m: Meets): Host
    requires h.pc.Undoing?
  {
    var Undoing(rec, activating) := h.pc;
    if activating && h.link == Some(rec.previous) then h.(pc := if m.fault == Fine then Restarting(rec, false) else Off)
    else if activating && h.link != Some(rec.candidate) then h.(pc := Off)
    else if rec.previous !in h.dirs then h.(pc := Off)
    else Link(h, rec.previous, m).(pc := if m.fault == Fine then Restarting(rec, false) else Off)
  }

  function RestartStep(h: Host, m: Meets): Host
    requires h.pc.Restarting?
  {
    if m.fault == Fine then h.(confirmed := h.link, pc := Enabling(h.pc.rec, h.pc.resume))
    else h.(confirmed := None, pc := Off)
  }

  function EnableStep(h: Host, m: Meets): Host
    requires h.pc.Enabling?
  {
    var Enabling(rec, resume) := h.pc;
    if rec.legacy.None? || rec.previous !in h.setup.shipping then h.(pc := Forgetting(rec, resume))
    else if !rec.legacy.value.enabled then h.(pc := Reactivating(rec, resume))
    else (if m.fault == RaisesBefore then h else h.(flags := h.flags.(enabled := true)))
         .(pc := if m.fault == Fine then Reactivating(rec, resume) else Off)
  }

  function ReactivateStep(h: Host, m: Meets): Host
    requires h.pc.Reactivating?
  {
    var Reactivating(rec, resume) := h.pc;
    if rec.legacy.None? || !rec.legacy.value.active then h.(pc := Forgetting(rec, resume))
    else (if m.fault == RaisesBefore then h else h.(flags := h.flags.(active := true)))
         .(pc := if m.fault == Fine then Forgetting(rec, resume) else Off)
  }

  function ForgetStep(h: Host, m: Meets): Host
    requires h.pc.Forgetting?
  {
    var Forgetting(rec, resume) := h.pc;
    var (cleared, ok) := Forget(h, m);
    cleared.(pc := if ok && resume then Fetching(rec.previous) else Off)
  }

  function FetchStep(h: Host, m: Meets): Host
    requires h.pc.Fetching?
  {
    var current := h.pc.current;
    if m.fault != Fine || m.head.None? || !IsSha(m.head.value) || m.head.value == current then h.(pc := Off)
    else if m.runs.None? || !HasQualifyingRun(m.runs.value, m.head.value, h.setup.branch) then h.(pc := Off)
    else h.(pc := Staging(m.head.value, current), evidence := h.evidence + [Evidence(m.head.value, m.runs.value)])
  }

  function StageStep(h: Host, m: Meets): Host
    requires h.pc.Staging?
  {
    var Staging(candidate, _) := h.pc;
    var staged := if m.fault == RaisesBefore then h else h.(dirs := h.dirs + {candidate});
    staged.(pc := if m.fault == Fine && h.link.Some? then Surveying(Record(candidate, h.link.value, None), true)
    else Off)
  }

  function ListStep(h: Host, m: Meets): Host
    requires h.pc.Listing?
  {
    h.(pc := if m.fault == Fine && h.setup.keep >= 3
    then Pruning(h.pc.current, Doomed(m.entries, h.pc.current, h.setup.keep)) else Off)
  }

  function PruneStep(h: Host, m: Meets): Host
    requires h.pc.Pruning?
  {
    var Pruning(current, doomed) := h.pc;
    if doomed == [] || m.fault == RaisesBefore then h.(pc := Off)
    else h.(dirs := h.dirs - {doomed[0].sha}, pc := if m.fault == Fine then Pruning(current, doomed[1..]) else Off)
  }

  function Advance(h: Host, m: Meets): Host {
    match h.pc
    case Off => h
    case Reading => if m.fault == Fine then ReadStep(h) else h.(pc := Off)
    case Surveying(_, _) => SurveyStep(h, m)
    case Recording(_, _) => RecordStep(h, m)
    case Retiring(_, _) => RetireStep(h, m)
    case Linking(_) => LinkStep(h, m)
    case Confirming(_, _) => ConfirmStep(h, m)
    case Clearing(_, _) => ClearStep(h, m)
    case Undoing(_, _) => UndoStep(h, m)
    case Restarting(_, _) => RestartStep(h, m)
    case Enabling(_, _) => EnableStep(h, m)
    case Reactivating(_, _) => ReactivateStep(h, m)
    case Forgetting(_, _) => ForgetStep(h, m)
    case Fetching(_) => FetchStep(h, m)
    case Staging(_, _) => StageStep(h, m)
    case Listing(_) => ListStep(h, m)
    case Pruning(_, _) => PruneStep(h, m)
  }

  function Next(h: Host, c: Choice): Host {
    match c
    case Launch => if h.pc.Off? then h.(pc := Reading, confirmed := None) else h
    case Act(m) => Advance(h, m)
    case Kill => h.(pc := Off)
    case Reboot(unitStarts) => h.(pc := Off, rebooted := true,
    flags := h.flags.(active := h.flags.enabled && unitStarts))
  }

  function Run(h: Host, choices: seq<Choice>): Host
    decreases |choices|
  {
    if choices == [] then h else Run(Next(h, choices[0]), choices[1..])
  }

  lemma {:induction false} RunAppend(h: Host, cs: seq<Choice>, c: Choice)
    ensures Run(h, cs + [c]) == Next(Run(h, cs), c)
    decreases |cs|
  {
    if cs == [] {
      assert cs + [c] == [c] && [c][1..] == [];
    } else {
      assert (cs + [c])[1..] == cs[1..] + [c];
      RunAppend(Next(h, cs[0]), cs[1..], c);
    }
  }

  /** The choices of a process that was launched and met these entries. */
  ghost function Acts(met: seq<Meets>): seq<Choice> {
    if met == [] then [Launch] else Acts(met[..|met| - 1]) + [Act(met[|met| - 1])]
  }

  // ---- Invariants -------------------------------------------------------------------------

  /** A commit that was trusted at the start, or for which a qualifying run was seen. */
  ghost predicate Vouched(setup: Setup, evidence: seq<Evidence>, sha: Sha) {
    sha in setup.trusted
    || exists i :: 0 <= i < |evidence| && evidence[i].sha == sha
                   && HasQualifyingRun(evidence[i].runs, sha, setup.branch)
  }

  /** What makes a release fit to be linked. */
  datatype Ground = Ground(setup: Setup, evidence: seq<Evidence>, dirs: set<Sha>)

  function GroundOf(h: Host): Ground {
    Ground(h.setup, h.evidence, h.dirs)
  }

  ghost predicate Usable(g: Ground, sha: Sha) {
    IsSha(sha) && sha in g.dirs && Vouched(g.setup, g.evidence, sha)
  }

  ghost predicate PairSound(g: Ground, candidate: Sha, previous: Sha) {
    candidate != previous && Usable(g, candidate) && Usable(g, previous)
  }

  ghost predicate RecordSound(h: Host, rec: Record) {
    && PairSound(GroundOf(h), rec.candidate, rec.previous)
    && (h.link == Some(rec.candidate) || h.link == Some(rec.previous))
  }

  /** The flags never exceed the recorded ones, except that a reboot starts an enabled unit. */
  predicate FlagsWithin(flags: Flags, recorded: Flags, rebooted: bool) {
    && (flags.enabled ==> recorded.enabled)
    && (flags.active ==> recorded.active || (rebooted && recorded.enabled))
  }

  ghost predicate DiskOk(h: Host) {
    && (h.link.Some? ==> Usable(GroundOf(h), h.link.value))
    && (h.record.Some? ==> RecordSound(h, h.record.value))
    && (h.record.Some? && h.record.value.legacy.Some? ==> FlagsWithin(h.flags, h.record.value.legacy.value, h.rebooted))
  }

  /** The recorded flags are back, except that a reboot may have started an enabled unit that was not active. */
  predicate Restored(flags: Flags, recorded: Flags, rebooted: bool) {
    && flags.enabled == recorded.enabled
    && (flags.active == recorded.active || (rebooted && recorded.enabled && !recorded.active))
  }

  ghost predicate ClearOk(c: Clear, setup: Setup) {
    && c.link.Some? && c.confirmed == c.link
    && (c.link.value == c.record.candidate || c.link.value == c.record.previous)
    && (c.link.value == c.record.previous && c.record.previous in setup.shipping && c.record.legacy.Some? ==>
          Restored(c.flags, c.record.legacy.value, c.rebooted))
  }

  ghost predicate LinksVouched(setup: Setup, evidence: seq<Evidence>, linked: seq<Sha>) {
    forall i :: 0 <= i < |linked| ==> Vouched(setup, evidence, linked[i])
  }

  ghost predicate ClearsOk(setup: Setup, clears: seq<Clear>) {
    forall i :: 0 <= i < |clears| ==> ClearOk(clears[i], setup)
  }

  ghost predicate LogsOk(h: Host) {
    LinksVouched(h.setup, h.evidence, h.linked) && ClearsOk(h.setup, h.clears)
  }

  /**
   While the previous release is being put back: the record, if still there, is the one in hand or
   a fresh rewrite of it.
   */
  ghost predicate BackingOut(h: Host, rec: Record) {
    && RecordSound(h, rec)
    && (h.record.Some? ==>
          var disk := h.record.value;
          && disk.candidate == rec.candidate && disk.previous == rec.previous
          && (if rec.legacy.Some? then disk == rec else disk.legacy.Some? ==>
                disk.legacy.value == h.flags && !h.rebooted))
  }

  ghost predicate Confirmed(h: Host, rec: Record) {
    h.link == Some(rec.previous) && h.confirmed == h.link
  }

  ghost predicate PcOk(h: Host) {
    match h.pc
    case Off => true
    case Reading => true
    case Surveying(rec, activating) =>
      && RecordSound(h, rec) && rec.legacy.None?
      && (if activating then h.record.None? && h.link == Some(rec.previous) else h.record == Some(rec)
                                                                                 && h.link == Some(rec.candidate))
    case Recording(rec, activating) =>
      && RecordSound(h, rec) && rec.legacy == Some(h.flags)
      && (if activating then h.record.None? && h.link == Some(rec.previous)
          else h.record == Some(rec.(legacy := None)) && h.link == Some(rec.candidate))
    case Retiring(rec, activating) =>
      h.record == Some(rec) && rec.legacy.Some? && h.link == Some(if activating then rec.previous else rec.candidate)
    case Linking(rec) => h.record == Some(rec) && rec.legacy.Some? && h.link == Some(rec.previous)
    case Confirming(rec, _) => h.record == Some(rec) && rec.legacy.Some? && h.link == Some(rec.candidate)
    case Clearing(rec, _) => h.record == Some(rec) && rec.legacy.Some? && h.link == Some(rec.candidate)
                             && h.confirmed == h.link
    case Undoing(rec, activating) => BackingOut(h, rec) && (activating || h.record.Some?)
    case Restarting(rec, resume) => BackingOut(h, rec) && h.link == Some(rec.previous)
    case Enabling(rec, resume) => BackingOut(h, rec) && Confirmed(h, rec)
    case Reactivating(rec, resume) =>
      && BackingOut(h, rec) && Confirmed(h, rec) && rec.legacy.Some?
      && (h.record.Some? ==> h.flags.enabled == rec.legacy.value.enabled)
    case Forgetting(rec, resume) =>
      && BackingOut(h, rec) && Confirmed(h, rec)
      && (h.record.Some? && rec.legacy.Some? && rec.previous in h.setup.shipping ==>
            Restored(h.flags, rec.legacy.value, h.rebooted))
    case Fetching(current) => h.record.None? && h.link == Some(current)
    case Staging(candidate, current) =>
      h.record.None? && h.link == Some(current) && candidate != current && IsSha(candidate)
      && Vouched(h.setup, h.evidence, candidate)
    case Listing(current) => h.record.None? && h.link == Some(current)
    case Pruning(current, doomed) => h.record.None? && h.link == Some(current) && forall e :: e in doomed ==>
                                                                                                e.sha != current
  }

  ghost predicate Inv(h: Host) {
    DiskOk(h) && LogsOk(h) && PcOk(h)
  }

  // ---- Every step keeps the invariant -----------------------------------------------------

  lemma SurveyKeeps(h: Host, m: Meets)
    requires Inv(h) && h.pc.Surveying?
    ensures Inv(SurveyStep(h, m))
  {
  }

  lemma RecordKeeps(h: Host, m: Meets)
    requires Inv(h) && h.pc.Recording?
    ensures Inv(RecordStep(h, m))
  {
  }

  /** Disabling only lowers flags, whether it works, fails, or fails halfway. */
  lemma LoweredKeeps(h: Host, flags: Flags)
    requires Inv(h) && h.pc.Retiring? && (flags.enabled ==> h.flags.enabled) && (flags.active ==> h.flags.active)
    ensures Inv(h.(flags := flags, pc := Undoing(h.pc.rec, h.pc.activating)))
    ensures Inv(h.(flags := flags, pc := if h.pc.activating then Linking(h.pc.rec) else Confirming(h.pc.rec, false)))
  {
  }

  lemma RetireKeeps(h: Host, m: Meets)
    requires Inv(h) && h.pc.Retiring?
    ensures Inv(RetireStep(h, m))
  {
    LoweredKeeps(h, RetireStep(h, m).flags);
  }

  lemma LinkKeeps(h: Host, m: Meets)
    requires Inv(h) && h.pc.Linking?
    ensures Inv(LinkStep(h, m))
  {
  }

  lemma ConfirmKeeps(h: Host, m: Meets)
    requires Inv(h) && h.pc.Confirming?
    ensures Inv(ConfirmStep(h, m))
  {
  }

  lemma ClearKeeps(h: Host, m: Meets)
    requires Inv(h) && h.pc.Clearing?
    ensures Inv(ClearStep(h, m))
  {
  }

  lemma LinkedBackKeeps(h: Host, m: Meets)
    requires Inv(h) && h.pc.Undoing?
    ensures Inv(Link(h, h.pc.rec.previous, m).(pc := if m.fault == Fine then Restarting(h.pc.rec, false) else Off))
  {
  }

  lemma UndoKeeps(h: Host, m: Meets)
    requires Inv(h) && h.pc.Undoing?
    ensures Inv(UndoStep(h, m))
  {
    LinkedBackKeeps(h, m);
  }

  lemma RestartKeeps(h: Host, m: Meets)
    requires Inv(h) && h.pc.Restarting?
    ensures Inv(RestartStep(h, m))
  {
  }

  /** What enabling the unit again may change. */
  lemma EnabledKeeps(h: Host, flags: Flags, ok: bool)
    requires Inv(h) && h.pc.Enabling? && h.pc.rec.legacy.Some? && h.pc.rec.previous in h.setup.shipping
    requires flags == h.flags || (h.pc.rec.legacy.value.enabled && flags == h.flags.(enabled := true))
    requires ok ==> flags.enabled || !h.pc.rec.legacy.value.enabled
    ensures Inv(h.(flags := flags, pc := if ok then Reactivating(h.pc.rec, h.pc.resume) else Off))
  {
  }

  lemma EnableKeeps(h: Host, m: Meets)
    requires Inv(h) && h.pc.Enabling?
    ensures Inv(EnableStep(h, m))
  {
    var Enabling(rec, resume) := h.pc;
    if rec.legacy.Some? && rec.previous in h.setup.shipping {
      var enabled := rec.legacy.value.enabled;
      var flags := if enabled && m.fault != RaisesBefore then h.flags.(enabled := true) else h.flags;
      EnabledKeeps(h, flags, !enabled || m.fault == Fine);
    }
  }

  lemma ReactivateKeeps(h: Host, m: Meets)
    requires Inv(h) && h.pc.Reactivating?
    ensures Inv(ReactivateStep(h, m))
  {
  }

  lemma ForgetKeeps(h: Host, m: Meets)
    requires Inv(h) && h.pc.Forgetting?
    ensures Inv(ForgetStep(h, m))
  {
  }

  lemma VouchedStays(setup: Setup, evidence: seq<Evidence>, e: Evidence)
    ensures forall sha :: Vouched(setup, evidence, sha) ==> Vouched(setup, evidence + [e], sha)
    ensures HasQualifyingRun(e.runs, e.sha, setup.branch) ==> Vouched(setup, evidence + [e], e.sha)
  {
    var more := evidence + [e];
    assert more[|evidence|] == e;
    forall sha | Vouched(setup, evidence, sha)
      ensures Vouched(setup, more, sha)
    {
      if sha !in setup.trusted {
        var i :| 0 <= i < |evidence| && evidence[i].sha == sha && HasQualifyingRun(evidence[i].runs, sha, setup.branch);
        assert more[i] == evidence[i];
      }
    }
  }

  lemma FetchKeeps(h: Host, m: Meets)
    requires Inv(h) && h.pc.Fetching?
    ensures Inv(FetchStep(h, m))
  {
    if FetchStep(h, m).pc.Staging? {
      VouchedStays(h.setup, h.evidence, Evidence(m.head.value, m.runs.value));
    }
  }

  lemma StageKeeps(h: Host, m: Meets)
    requires Inv(h) && h.pc.Staging?
    ensures Inv(StageStep(h, m))
  {
  }

  lemma ListKeeps(h: Host, m: Meets)
    requires Inv(h) && h.pc.Listing?
    ensures Inv(ListStep(h, m))
  {
    if h.setup.keep >= 3 {
      PruningKeepsTheNewest(m.entries, h.pc.current, h.setup.keep);
    }
  }

  lemma PruneKeeps(h: Host, m: Meets)
    requires Inv(h) && h.pc.Pruning?
    ensures Inv(PruneStep(h, m))
  {
  }

  lemma ReadRecordKeeps(h: Host)
    requires Inv(h) && h.record.Some?
    ensures Inv(ReadStep(h))
  {
  }

  lemma ReadKeeps(h: Host)
    requires Inv(h)
    ensures Inv(ReadStep(h))
  {
    if h.record.Some? {
      ReadRecordKeeps(h);
    }
  }

  lemma ReadingKeeps(h: Host, m: Meets)
    requires Inv(h) && h.pc.Reading?
    ensures Inv(Advance(h, m))
  {
    ReadKeeps(h);
  }

  predicate Forward(pc: Pc) {
    pc.Surveying? || pc.Recording? || pc.Retiring? || pc.Linking? || pc.Confirming? || pc.Clearing? || pc.Undoing?
  }

  lemma ForwardKeeps(h: Host, m: Meets)
    requires Inv(h) && Forward(h.pc)
    ensures Inv(Advance(h, m))
  {
    match h.pc
    case Surveying(_, _) => SurveyKeeps(h, m);
    case Recording(_, _) => RecordKeeps(h, m);
    case Retiring(_, _) => RetireKeeps(h, m);
    case Linking(_) => LinkKeeps(h, m);
    case Confirming(_, _) => ConfirmKeeps(h, m);
    case Clearing(_, _) => ClearKeeps(h, m);
    case Undoing(_, _) => UndoKeeps(h, m);
  }

  predicate Backward(pc: Pc) {
    pc.Restarting? || pc.Enabling? || pc.Reactivating? || pc.Forgetting?
  }

  lemma BackwardKeeps(h: Host, m: Meets)
    requires Inv(h) && Backward(h.pc)
    ensures Inv(Advance(h, m))
  {
    match h.pc
    case Restarting(_, _) => RestartKeeps(h, m);
    case Enabling(_, _) => EnableKeeps(h, m);
    case Reactivating(_, _) => ReactivateKeeps(h, m);
    case Forgetting(_, _) => ForgetKeeps(h, m);
  }

  lemma RestKeeps(h: Host, m: Meets)
    requires Inv(h) && !Forward(h.pc) && !Backward(h.pc)
    ensures Inv(Advance(h, m))
  {
    match h.pc
    case Off =>
    case Reading => ReadingKeeps(h, m);
    case Fetching(_) => FetchKeeps(h, m);
    case Staging(_, _) => StageKeeps(h, m);
    case Listing(_) => ListKeeps(h, m);
    case Pruning(_, _) => PruneKeeps(h, m);
  }

  lemma NextKeeps(h: Host, c: Choice)
    requires Inv(h)
    ensures Inv(Next(h, c))
  {
    if c.Act? {
      if Forward(h.pc) {
        ForwardKeeps(h, c.meets);
      } else if Backward(h.pc) {
        BackwardKeeps(h, c.meets);
      } else {
        RestKeeps(h, c.meets);
      }
    }
  }

  lemma {:induction false} RunKeeps(h: Host, choices: seq<Choice>)
    requires Inv(h)
    ensures Inv(Run(h, choices))
    decreases |choices|
  {
    if choices != [] {
      NextKeeps(h, choices[0]);
      RunKeeps(Next(h, choices[0]), choices[1..]);
    }
  }
}
