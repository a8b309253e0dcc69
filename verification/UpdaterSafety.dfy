/** What release activation guarantees over every run, and what one undisturbed reconciliation reaches. */
module UpdaterSafety {
  import opened Prelude
  import opened Releases
  import opened Updater

  ghost predicate Trusted(h: Host, sha: Sha) {
    IsSha(sha) && sha in h.dirs && sha in h.setup.trusted
  }

  /** A host as the installer or an older updater left it; a record it left names trusted releases. */
  ghost predicate Installed(h: Host) {
    && h.pc.Off? && h.clears == [] && h.evidence == []
    && (h.link.Some? ==> Trusted(h, h.link.value))
    && (forall i :: 0 <= i < |h.linked| ==> h.linked[i] in h.setup.trusted)
    && (h.record.Some? ==>
          var rec := h.record.value;
          && rec.candidate != rec.previous && Trusted(h, rec.candidate) && Trusted(h, rec.previous)
          && (h.link == Some(rec.candidate) || h.link == Some(rec.previous))
          && (rec.legacy.Some? ==> FlagsWithin(h.flags, rec.legacy.value, h.rebooted)))
  }

  lemma InstalledInv(h: Host)
    requires Installed(h)
    ensures Inv(h)
  {
  }

  /**
   Whatever crashed: a pending record names two different releases that both exist, and one of
   them is linked. The linked release exists, so pruning has never removed it.
   */
  lemma PendingRecordIsSound(h: Host, choices: seq<Choice>)
    requires Installed(h)
    ensures var u := Run(h, choices);
            && (u.link.Some? ==> u.link.value in u.dirs)
            && (u.record.Some? ==>
                  var rec := u.record.value;
                  && rec.candidate != rec.previous && rec.candidate in u.dirs && rec.previous in u.dirs
                  && (u.link == Some(rec.candidate) || u.link == Some(rec.previous)))
  {
    InstalledInv(h);
    RunKeeps(h, choices);
  }

  /** Every commit ever linked was trusted at the start or had a qualifying run of exactly that commit. */
  lemma LinkedCommitsAreVouched(h: Host, choices: seq<Choice>, i: nat)
    requires Installed(h) && i < |Run(h, choices).linked|
    ensures var u := Run(h, choices); Vouched(u.setup, u.evidence, u.linked[i])
  {
    InstalledInv(h);
    RunKeeps(h, choices);
  }

  /**
   The record is only cleared while the linked release is its candidate or its previous one and
   has passed the health check in this process; at the previous one, the recorded flags are back.
   */
  lemma ClearedAfterHealth(h: Host, choices: seq<Choice>, i: nat)
    requires Installed(h) && i < |Run(h, choices).clears|
    ensures var u := Run(h, choices);
            var c := u.clears[i];
            && c.link.Some? && c.confirmed == c.link
            && (c.link.value == c.record.candidate || c.link.value == c.record.previous)
            && (c.link.value == c.record.previous && c.record.previous in u.setup.shipping && c.record.legacy.Some?
                && !c.rebooted ==>
                  c.flags == c.record.legacy.value)
  {
    InstalledInv(h);
    RunKeeps(h, choices);
    assert ClearOk(Run(h, choices).clears[i], Run(h, choices).setup);
  }

  // ---- One undisturbed reconciliation -------------------------------------------------------

  /** How many steps a reconciliation still takes at most; 0 when it is over. */
  function Left(pc: Pc): nat {
    match pc
    case Reading => 10
    case Surveying(_, false) => 9
    case Recording(_, false) => 8
    case Retiring(_, false) => 7
    case Confirming(_, false) => 6
    case Undoing(_, false) => 5
    case Restarting(_, _) => 4
    case Enabling(_, _) => 3
    case Reactivating(_, _) => 2
    case Forgetting(_, _) => 1
    case Clearing(_, false) => 1
    case _ => 0
  }

  /**
   A step of an undisturbed reconciliation with working `systemctl` and a healthy previous
   release: the candidate may fail its health check, and reading the flags for an old record or
   rewriting it may raise.
   */
  predicate Undisturbed(h: Host, c: Choice) {
    c.Act? && (c.meets.fault == Fine || h.pc.Confirming? || h.pc.Recording? || h.pc.Surveying?)
  }

  predicate UndisturbedRun(h: Host, choices: seq<Choice>)
    decreases |choices|
  {
    choices == [] || Left(h.pc) == 0 || (Undisturbed(h, choices[0])
                                         && UndisturbedRun(Next(h, choices[0]), choices[1..]))
  }

  /** The previous release is linked and the legacy unit runs though the record says it did not. */
  predicate UnitLeftOver(link: Option<Sha>, flags: Flags, orig: Record) {
    orig.legacy.Some? && link == Some(orig.previous) && flags.active && !orig.legacy.value.active
  }

  /** A reconciliation of the record `orig` under way; `over` is whether the unit was left over at its start. */
  ghost predicate Tracks(h: Host, orig: Record, over: bool) {
    && Left(h.pc) > 0 && h.record.Some?
    && h.record.value.candidate == orig.candidate && h.record.value.previous == orig.previous
    && (orig.legacy.Some? ==> h.record == Some(orig))
    && (h.pc.Reading? ==> (over <==> UnitLeftOver(h.link, h.flags, orig)))
    && (!h.pc.Reading? ==>
          && h.pc.rec.candidate == orig.candidate && h.pc.rec.previous == orig.previous
          && (orig.legacy.Some? ==>
                && h.pc.rec == orig
                && (if h.pc.Retiring? then !over else over <==> h.flags.active && !orig.legacy.value.active)))
  }

  /**
   The reconciliation is over: no record, the candidate or the previous release is linked and
   healthy, and at a previous release that ships the legacy unit the recorded flags are back,
   `over` being the only exception.
   */
  ghost predicate Settled(u: Host, orig: Record, over: bool) {
    && u.record.None? && (u.link == Some(orig.candidate) || u.link == Some(orig.previous)) && u.confirmed == u.link
    && (u.link == Some(orig.previous) && orig.previous in u.setup.shipping && orig.legacy.Some? ==>
          && u.flags.enabled == orig.legacy.value.enabled
          && (u.flags.active == orig.legacy.value.active <==> !over))
  }

  lemma ReadingTracks(h: Host, m: Meets, orig: Record, over: bool)
    requires Inv(h) && h.pc.Reading? && Tracks(h, orig, over) && m.fault == Fine
    ensures Tracks(Advance(h, m), orig, over) && Left(Advance(h, m).pc) < Left(h.pc)
  {
  }

  lemma ForwardTracks(h: Host, m: Meets, orig: Record, over: bool)
    requires Inv(h) && (h.pc.Surveying? || h.pc.Recording? || h.pc.Retiring?) && Tracks(h, orig, over)
             && Undisturbed(h, Act(m))
    ensures Tracks(Advance(h, m), orig, over) && Left(Advance(h, m).pc) < Left(h.pc)
  {
  }

  lemma CandidateTracks(h: Host, m: Meets, orig: Record, over: bool)
    requires Inv(h) && (h.pc.Confirming? || h.pc.Clearing? || h.pc.Undoing?) && Tracks(h, orig, over)
             && Undisturbed(h, Act(m))
    ensures var u := Advance(h, m);
            Left(u.pc) < Left(h.pc) && (if h.pc.Clearing? then Settled(u, orig, over) else Tracks(u, orig, over))
  {
  }

  lemma RestartTracks(h: Host, m: Meets, orig: Record, over: bool)
    requires Inv(h) && (h.pc.Restarting? || h.pc.Enabling?) && Tracks(h, orig, over) && m.fault == Fine
    ensures Tracks(Advance(h, m), orig, over) && Left(Advance(h, m).pc) < Left(h.pc)
  {
  }

  lemma ReactivateTracks(h: Host, m: Meets, orig: Record, over: bool)
    requires Inv(h) && h.pc.Reactivating? && Tracks(h, orig, over) && m.fault == Fine
    ensures Tracks(Advance(h, m), orig, over) && Left(Advance(h, m).pc) < Left(h.pc)
  {
  }

  lemma ForgetSettles(h: Host, m: Meets, orig: Record, over: bool)
    requires Inv(h) && h.pc.Forgetting? && Tracks(h, orig, over) && m.fault == Fine
    ensures Settled(Advance(h, m), orig, over) && Left(Advance(h, m).pc) < Left(h.pc)
  {
  }

  lemma StepTracks(h: Host, c: Choice, orig: Record, over: bool)
    requires Inv(h) && Tracks(h, orig, over) && Undisturbed(h, c)
    ensures Left(Next(h, c).pc) < Left(h.pc)
    ensures Tracks(Next(h, c), orig, over) || Settled(Next(h, c), orig, over)
  {
    var m := c.meets;
    if h.pc.Reading? {
      ReadingTracks(h, m, orig, over);
    } else if h.pc.Surveying? || h.pc.Recording? || h.pc.Retiring? {
      ForwardTracks(h, m, orig, over);
    } else if h.pc.Restarting? || h.pc.Enabling? {
      RestartTracks(h, m, orig, over);
    } else if h.pc.Reactivating? {
      ReactivateTracks(h, m, orig, over);
    } else if h.pc.Forgetting? {
      ForgetSettles(h, m, orig, over);
    } else {
      CandidateTracks(h, m, orig, over);
    }
  }

  lemma BackwardKeepsLink(h: Host, c: Choice)
    requires Undisturbed(h, c)
    ensures Backward(h.pc) ==> Next(h, c).link == h.link && (Left(Next(h, c).pc) > 0 ==> Backward(Next(h, c).pc))
  {
  }

  lemma {:induction false} TracksToTheEnd(h: Host, choices: seq<Choice>, orig: Record, over: bool) returns (n: nat)
    requires Inv(h) && Tracks(h, orig, over) && UndisturbedRun(h, choices) && |choices| >= Left(h.pc)
    ensures n <= |choices| && Settled(Run(h, choices[..n]), orig, over)
    ensures Backward(h.pc) ==> Run(h, choices[..n]).link == h.link
    decreases |choices|
  {
    var u := Next(h, choices[0]);
    StepTracks(h, choices[0], orig, over);
    BackwardKeepsLink(h, choices[0]);
    NextKeeps(h, choices[0]);
    if Tracks(u, orig, over) {
      n := TracksToTheEnd(u, choices[1..], orig, over);
      n := n + 1;
      assert choices[..n][0] == choices[0] && choices[..n][1..] == choices[1..][..n - 1];
    } else {
      n := 1;
      assert choices[..1] == [choices[0]] && choices[..1][1..] == [];
    }
  }

  /**
   From every state a crash or a reboot can leave, one undisturbed reconciliation settles the
   record within ten steps. The recorded flags are restored exactly, unless at its start the
   previous release was linked and the legacy unit ran though the record says it did not.
   */
  lemma ReconciliationConverges(h: Host, before: seq<Choice>, choices: seq<Choice>)
    requires Installed(h) && Run(h, before).pc.Off? && Run(h, before).record.Some?
    requires |choices| >= 10 && UndisturbedRun(Next(Run(h, before), Launch), choices)
    ensures var s := Run(h, before);
            var orig := s.record.value;
            exists n :: 0 <= n <= |choices| && Settled(Run(Next(s, Launch), choices[..n]), orig,
                                                       UnitLeftOver(s.link, s.flags, orig))
  {
    InstalledInv(h);
    RunKeeps(h, before);
    var s := Run(h, before);
    NextKeeps(s, Launch);
    var orig := s.record.value;
    var n := TracksToTheEnd(Next(s, Launch), choices, orig, UnitLeftOver(s.link, s.flags, orig));
  }

  /**
   Every failure between writing the record and clearing it, of an activation or of a reconciliation,
   begins the rollback and keeps the record. Only reconciliation's own clearing, which failed, does not.
   */
  lemma FailureBeginsRollback(h: Host, m: Meets)
    requires Inv(h) && m.fault != Fine
    requires match h.pc
             case Retiring(rec, activating) => activating ==> rec.legacy.value.enabled || rec.legacy.value.active
             case Linking(_) => true
             case Confirming(_, _) => true
             case Clearing(_, activating) => activating && m.fault == RaisesBefore
             case _ => false
    ensures var u := Next(h, Act(m));
            u.pc == Undoing(h.pc.rec, h.pc.Linking? || h.pc.activating) && u.record == Some(h.pc.rec)
  {
  }

  /**
   A failed activation is rolled back: wherever it failed after its record was written, five
   undisturbed steps link the previous release again, confirm it, restore the recorded flags and
   clear the record.
   */
  lemma FailedActivationRollsBack(h: Host, choices: seq<Choice>)
    requires Inv(h) && h.pc.Undoing? && h.pc.activating && h.record == Some(h.pc.rec)
    requires |choices| >= 5 && choices[0].Act? && choices[0].meets.fault == Fine
    requires UndisturbedRun(Next(h, choices[0]), choices[1..])
    ensures var rec := h.pc.rec;
            var over := rec.legacy.Some? && h.flags.active && !rec.legacy.value.active;
            exists n :: 0 <= n <= |choices| && Settled(Run(h, choices[..n]), rec, over)
                        && Run(h, choices[..n]).link == Some(rec.previous)
  {
    var rec := h.pc.rec;
    var over := rec.legacy.Some? && h.flags.active && !rec.legacy.value.active;
    var u := Next(h, choices[0]);
    NextKeeps(h, choices[0]);
    LinkedBackTracks(h, choices[0].meets, over);
    var n := TracksToTheEnd(u, choices[1..], rec, over);
    RunFirstOf(h, choices, n + 1);
  }

  lemma RunFirstOf(h: Host, choices: seq<Choice>, n: nat)
    requires 0 < n <= |choices|
    ensures Run(h, choices[..n]) == Run(Next(h, choices[0]), choices[1..][..n - 1])
  {
    assert choices[..n][0] == choices[0] && choices[..n][1..] == choices[1..][..n - 1];
  }

  lemma LinkedBackTracks(h: Host, m: Meets, over: bool)
    requires Inv(h) && h.pc.Undoing? && h.pc.activating && h.record == Some(h.pc.rec) && m.fault == Fine
    requires over <==> h.pc.rec.legacy.Some? && h.flags.active && !h.pc.rec.legacy.value.active
    ensures Advance(h, m).pc.Restarting? && Advance(h, m).link == Some(h.pc.rec.previous)
            && Tracks(Advance(h, m), h.pc.rec, over)
  {
  }

  // ---- A new head is installed ----------------------------------------------------------------

  /** Nothing is pending, and the process meets no failure and a new head that has a qualifying run. */
  ghost predicate Offers(h: Host, met: seq<Meets>, head: Sha) {
    && h.pc.Off? && h.record.None? && h.link.Some? && h.link.value in h.dirs && IsSha(head) && head != h.link.value
    && (forall i :: 0 <= i < |met| && i < 9 ==> met[i].fault == Fine)
    && (|met| > 1 ==>
          met[1].head == Some(head) && met[1].runs.Some? && HasQualifyingRun(met[1].runs.value, head, h.setup.branch))
  }

  /** Where the process is after `k` steps of an installation. */
  ghost function Due(k: nat, h: Host, head: Sha): Pc
    requires k < 9 && h.link.Some?
  {
    var rec := Record(head, h.link.value, Some(h.flags));
    if k == 0 then Reading
    else if k == 1 then Fetching(h.link.value)
    else if k == 2 then Staging(head, h.link.value)
    else if k == 3 then Surveying(rec.(legacy := None), true)
    else if k == 4 then Recording(rec, true)
    else if k == 5 then Retiring(rec, true)
    else if k == 6 then Linking(rec)
    else if k == 7 then Confirming(rec, true)
    else Clearing(rec, true)
  }

  ghost predicate Underway(h: Host, u: Host, k: nat, head: Sha)
    requires k < 9 && h.link.Some?
  {
    && u.setup == h.setup && u.pc == Due(k, h, head) && u.flags == (if k < 6 then h.flags else Flags(false, false))
    && u.record == (if k < 5 then None else Some(Record(head, h.link.value, Some(h.flags))))
    && u.link == (if k < 7 then h.link else Some(head)) && u.dirs == (if k < 3 then h.dirs else h.dirs + {head})
    && (k == 8 ==> u.confirmed == Some(head))
  }

  /** The head is linked and confirmed, nothing is pending, the legacy unit is down; old releases may be going. */
  ghost predicate HeadInstalled(u: Host, head: Sha) {
    && u.record.None? && u.link == Some(head) && u.confirmed == Some(head) && u.flags == Flags(false, false)
    && head in u.dirs
    && (u.pc.Off? || u.pc == Listing(head)
        || (u.pc.Pruning? && u.pc.current == head && forall e :: e in u.pc.doomed ==> e.sha != head))
  }

  lemma UnderwayStep(h: Host, u: Host, k: nat, head: Sha, m: Meets)
    requires k < 9 && h.record.None? && h.link.Some? && h.link.value in h.dirs && IsSha(head) && head != h.link.value
    requires Underway(h, u, k, head) && m.fault == Fine
    requires k == 1 ==>
               m.head == Some(head) && m.runs.Some? && HasQualifyingRun(m.runs.value, head, h.setup.branch)
    ensures if k < 8 then Underway(h, Advance(u, m), k + 1, head) else HeadInstalled(Advance(u, m), head)
  {
  }

  lemma InstalledStep(u: Host, head: Sha, m: Meets)
    requires HeadInstalled(u, head)
    ensures HeadInstalled(Advance(u, m), head)
  {
    if u.pc.Listing? && u.setup.keep >= 3 {
      PruningKeepsTheNewest(m.entries, head, u.setup.keep);
    }
  }

  /**
   A run that meets no failure and a new head with a qualifying run installs it: the process does
   not stop before the head is linked, confirmed and unrecorded, and pruning keeps it.
   */
  lemma {:induction false} NewHeadIsInstalled(h: Host, met: seq<Meets>, head: Sha)
    requires Offers(h, met, head)
    ensures var u := Run(h, Acts(met));
            if |met| < 9 then Underway(h, u, |met|, head) else HeadInstalled(u, head)
    decreases |met|
  {
    if met == [] {
      assert [Launch][1..] == [];
    } else {
      var k := |met| - 1;
      NewHeadIsInstalled(h, met[..k], head);
      RunAppend(h, Acts(met[..k]), Act(met[k]));
      var u := Run(h, Acts(met[..k]));
      if k < 9 {
        UnderwayStep(h, u, k, head, met[k]);
      } else {
        InstalledStep(u, head, met[k]);
      }
    }
  }

  /** Only a reboot since the record was written leaves the unit over: without one the flags come back exactly. */
  lemma OnlyAReboot(h: Host, choices: seq<Choice>)
    requires Installed(h)
    ensures var u := Run(h, choices);
            u.record.Some? && UnitLeftOver(u.link, u.flags, u.record.value) ==>
              u.rebooted && u.record.value.legacy.value.enabled
  {
    InstalledInv(h);
    RunKeeps(h, choices);
  }

  // ---- A reboot inside the window -------------------------------------------------------------

  /** An enabled but stopped unit, the record written, and then a reboot that starts the unit. */
  lemma RebootStartsTheUnit(a: Sha, b: Sha, m: Meets)
    requires IsSha(a) && IsSha(b) && a != b && m.fault == Fine
    ensures var h := Host(Setup({a}, "master", 3, {a, b}), Some(Record(b, a, Some(Flags(true, false)))), Some(a),
                          {a, b},
                          Flags(true, false), false, Off, None, [], [a], []);
            var act := Act(m);
            var u := Run(h, [Reboot(true), Launch, act, act, act, act, act]);
            Installed(h) && u.record.None? && u.link == Some(a) && u.flags == Flags(true, true)
  {
    var h := Host(Setup({a}, "master", 3, {a, b}), Some(Record(b, a, Some(Flags(true, false)))), Some(a), {a, b},
                  Flags(true, false), false, Off, None, [], [a], []);
    var act := Act(m);
    var h1 := Next(h, Reboot(true));
    var h2 := Next(h1, Launch);
    var h3 := Next(h2, act);
    assert h3.pc.Restarting?;
    var h4 := Next(h3, act);
    var h5 := Next(h4, act);
    assert h5.pc.Reactivating? || h5.pc.Enabling?;
    var h6 := Next(h5, act);
    var h7 := Next(h6, act);
    RunSeven(h, Reboot(true), Launch, act);
  }

  lemma RunSeven(h: Host, a: Choice, b: Choice, c: Choice)
    ensures Run(h, [a, b, c, c, c, c, c]) == Next(Next(Next(Next(Next(Next(Next(h, a), b), c), c), c), c), c)
  {
    RunFirst(h, a, [b, c, c, c, c, c]);
    RunFirst(Next(h, a), b, [c, c, c, c, c]);
    var u := Next(Next(h, a), b);
    RunFirst(u, c, [c, c, c, c]);
    RunFirst(Next(u, c), c, [c, c, c]);
    RunFirst(Next(Next(u, c), c), c, [c, c]);
    RunFirst(Next(Next(Next(u, c), c), c), c, [c]);
    RunFirst(Next(Next(Next(Next(u, c), c), c), c), c, []);
  }

  lemma RunFirst(h: Host, c: Choice, rest: seq<Choice>)
    ensures Run(h, [c] + rest) == Run(Next(h, c), rest)
  {
    assert ([c] + rest)[1..] == rest;
  }
}
