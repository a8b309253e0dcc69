/**
 The decision part of `GateProcessor.process`: at most three frames are read, each clock check
 can end the burst, and only an allowed, fresh decision reaches the actuation coordinator.
 */
module Burst {
  import opened Prelude
  import opened Matching
  import opened Guards

  const MAX_OCR_FRAMES: nat := 3

  datatype Ocr = Busy | DeadlineExceeded | Failed | Seen(observation: PlateObservation)

  /**
   What one frame meets: the elapsed time before it is measured, before OCR, what OCR answers,
   and the elapsed time after the decision on it.
   */
  datatype FrameMeets = FrameMeets(atMeasure: int, atOcr: int, ocr: Ocr, atDecision: int)

  /** The rest of the environment: elapsed and wall clock readings, and the authorised list. */
  datatype Meets = Meets(atStart: int, startedNow: Option<int>, authorised: Option<seq<string>>, atEnd: int,
                         decidedNow: Option<int>, actuationNow: Option<int>)

  datatype Limits = Limits(timeout: int, maxAge: int)

  datatype Why =
    | DecisionTimeout | StaleBurst | AuthorisationError | OcrBusy | OcrError | Unmatched
    | Ruled(reason: Reason)

  datatype Outcome = Skipped(why: Why) | Denied(why: Why, decision: MatchDecision) | Actuates(decision: MatchDecision)

  /** The observations among the first frames, in order. */
  function Observations(frames: seq<FrameMeets>): (obs: seq<PlateObservation>)
    ensures |obs| <= |frames|
  {
    if frames == [] then [] else
    var last := frames[|frames| - 1];
    var before := Observations(frames[..|frames| - 1]);
    if last.ocr.Seen? then before + [last.ocr.observation] else before
  }

  lemma ObservationsStep(frames: seq<FrameMeets>, n: nat)
    requires n < |frames|
    ensures Observations(frames[..n + 1]) ==
            if frames[n].ocr.Seen? then Observations(frames[..n]) + [frames[n].ocr.observation]
            else Observations(frames[..n])
  {
    assert frames[..n + 1][..n] == frames[..n];
  }

  /** The scan's decision is the one for the observations made so far. */
  ghost predicate ScanOk(scan: Scan, obs: seq<PlateObservation>, authorised: seq<string>) {
    && (scan.decision.None? <==> obs == [])
    && (scan.decision.Some? ==> RuledOn(obs, authorised, scan.decision.value))
    && FirstEnough(obs, authorised)
  }

  /** The decision on one more observation. */
  method DecideOn(before: seq<PlateObservation>, o: PlateObservation, authorised: seq<string>, scan: Scan, late: bool)
    returns (next: Scan)
    requires ScanOk(scan, before, authorised) && (scan.decision.Some? ==> !scan.decision.value.allowed)
    ensures ScanOk(next, before + [o], authorised) && next.decision.Some? && next.timedOut == late
            && next.failure == scan.failure
  {
    var d := DecideAccess(before + [o], authorised);
    OneMoreObservation(before, before + [o], authorised, scan.decision);
    next := Scan(Some(d), late, scan.failure);
  }

  ghost predicate RuledOn(obs: seq<PlateObservation>, authorised: seq<string>, d: MatchDecision) {
    Rule(Frames(obs), AuthorisedSet(authorised), d)
  }

  /** The rule allows the gate on these observations. */
  ghost predicate AllowedOn(obs: seq<PlateObservation>, authorised: seq<string>) {
    exists d :: RuledOn(obs, authorised, d) && d.allowed
  }

  /** No proper, non-empty beginning of the observations was enough. */
  ghost predicate FirstEnough(obs: seq<PlateObservation>, authorised: seq<string>) {
    forall n {:trigger AllowedOn(obs[..n], authorised)} :: 0 < n < |obs| ==> !AllowedOn(obs[..n], authorised)
  }

  predicate Smooth(f: FrameMeets, timeout: int) {
    f.atMeasure < timeout && f.atOcr < timeout && f.ocr.Seen? && f.atDecision < timeout
  }

  /** How the loop over the frames stands: the last decision, and why it may have to stop. */
  datatype Scan = Scan(decision: Option<MatchDecision>, timedOut: bool, failure: Option<Why>)

  /** The scan may go on: no decision allowed the gate, and nothing but OCR errors went wrong. */
  predicate GoesOn(scan: Scan) {
    !scan.timedOut && (scan.decision.Some? ==> !scan.decision.value.allowed)
    && (scan.failure.Some? ==> scan.failure == Some(OcrError))
  }

  /** What one round of the loop does with frame `f`; `read` tells that the frame reached OCR. */
  ghost predicate Round(f: FrameMeets, timeout: int, scan: Scan, seen: seq<PlateObservation>,
                        next: Scan, now: seq<PlateObservation>, read: bool, stop: bool) {
    && now == (if read && f.ocr.Seen? then seen + [f.ocr.observation] else seen)
    && (!stop ==> read && GoesOn(next)) && (next.failure.Some? ==>
                                              next.failure.value.OcrBusy? || next.failure.value.OcrError?)
    && (next.decision.Some? && next.decision.value.allowed && !next.timedOut ==>
          read && f.ocr.Seen? && f.atDecision < timeout)
    && (Smooth(f, timeout) ==>
          read && !next.timedOut && next.failure == scan.failure
          && (stop ==> next.decision.Some? && next.decision.value.allowed))
  }

  method ReadFrame(f: FrameMeets, seen: seq<PlateObservation>, authorised: seq<string>, timeout: int, scan: Scan)
    returns (next: Scan, read: bool, stop: bool, now: seq<PlateObservation>)
    requires ScanOk(scan, seen, authorised) && GoesOn(scan)
    ensures ScanOk(next, now, authorised) && Round(f, timeout, scan, seen, next, now, read, stop)
  {
    if f.atMeasure >= timeout || f.atOcr >= timeout {
      return scan.(timedOut := true), false, true, seen;
    }
    match f.ocr
    case Busy => return scan.(failure := Some(OcrBusy)), true, true, seen;
    case DeadlineExceeded => return scan.(timedOut := true), true, true, seen;
    case Failed => return scan.(failure := Some(OcrError)), true, false, seen;
    case Seen(o) =>
      next := DecideOn(seen, o, authorised, scan, f.atDecision >= timeout);
      return next, true, next.timedOut || next.decision.value.allowed, seen + [o];
  }

  ghost predicate AllSmooth(frames: seq<FrameMeets>, timeout: int) {
    forall i :: 0 <= i < |frames| ==> Smooth(frames[i], timeout)
  }

  /** The loop after `used` frames: an allowed decision is timely, and only trouble stops before the last frame. */
  ghost predicate Progress(frames: seq<FrameMeets>, timeout: int, scan: Scan, seen: seq<PlateObservation>, used: nat,
                           stopped: bool) {
    && used <= |frames| && seen == Observations(frames[..used])
    && (scan.decision.Some? && scan.decision.value.allowed && !scan.timedOut ==>
          used > 0 && frames[used - 1].ocr.Seen? && frames[used - 1].atDecision < timeout)
    && (scan.failure.Some? ==> scan.failure.value.OcrBusy? || scan.failure.value.OcrError?)
    && (AllSmooth(frames, timeout) ==>
          !scan.timedOut && scan.failure == None && (stopped ==> scan.decision.Some? && scan.decision.value.allowed))
  }

  lemma RoundProgresses(frames: seq<FrameMeets>, timeout: int, scan: Scan, seen: seq<PlateObservation>, used: nat,
                        next: Scan, now: seq<PlateObservation>, read: bool, stop: bool)
    requires used < |frames| && Progress(frames, timeout, scan, seen, used, false) && GoesOn(scan)
    requires Round(frames[used], timeout, scan, seen, next, now, read, stop)
    ensures Progress(frames, timeout, next, now, if read then used + 1 else used, stop)
  {
    ObservationsStep(frames, used);
  }

  method ReadFrames(frames: seq<FrameMeets>, authorised: seq<string>, timeout: int)
    returns (scan: Scan, used: nat, seen: seq<PlateObservation>)
    requires |frames| <= MAX_OCR_FRAMES
    ensures ScanOk(scan, seen, authorised) && Progress(frames, timeout, scan, seen, used, used < |frames|)
  {
    scan, used, seen := Scan(None, false, None), 0, [];
    while used < |frames|
      invariant ScanOk(scan, seen, authorised) && GoesOn(scan) && Progress(frames, timeout, scan, seen, used, false)
    {
      var next, read, stop, now := ReadFrame(frames[used], seen, authorised, timeout, scan);
      RoundProgresses(frames, timeout, scan, seen, used, next, now, read, stop);
      scan, seen, used := next, now, if read then used + 1 else used;
      if stop {
        return;
      }
    }
  }

  lemma OneMoreObservation(before: seq<PlateObservation>, obs: seq<PlateObservation>, authorised: seq<string>,
                           last: Option<MatchDecision>)
    requires |obs| == |before| + 1 && obs[..|before|] == before && FirstEnough(before, authorised)
    requires before != [] ==> last.Some? && RuledOn(before, authorised, last.value) && !last.value.allowed
    ensures FirstEnough(obs, authorised)
  {
    forall n | 0 < n < |obs|
      ensures !AllowedOn(obs[..n], authorised)
    {
      if n < |before| {
        assert obs[..n] == before[..n];
        assert !AllowedOn(before[..n], authorised);
      } else {
        assert obs[..n] == before;
        SameDecision(before, authorised, last.value);
      }
    }
  }

  /**
   `process` from the clock checks to the call of the coordinator. The gate is only asked for
   with a decision that the rule allows on the plates of at most three frames, made in time,
   on a burst that was fresh at every check; and it is asked for when nothing goes wrong.
   */
  method DecideBurst(paths: seq<FrameMeets>, receivedAt: int, m: Meets, l: Limits)
    returns (out: Outcome, used: nat, seen: seq<PlateObservation>)
    ensures used <= |Take(paths, MAX_OCR_FRAMES)| && seen == Observations(Take(paths, MAX_OCR_FRAMES)[..used])
    ensures out.Actuates? ==>
              var frames := Take(paths, MAX_OCR_FRAMES);
              && out.decision.allowed && m.authorised.Some? && used > 0
              && RuledOn(seen, m.authorised.value, out.decision) && FirstEnough(seen, m.authorised.value)
              && frames[used - 1].atDecision < l.timeout && m.atStart < l.timeout
              && IsFresh(m.startedNow, receivedAt, l.maxAge) && IsFresh(m.decidedNow, receivedAt, l.maxAge)
              && IsFresh(m.actuationNow, receivedAt, l.maxAge)
    ensures out.Denied? && out.why.Ruled? ==>
              !out.decision.allowed && out.why.reason == out.decision.reason
              && m.authorised.Some? && RuledOn(seen, m.authorised.value, out.decision)
    ensures && m.atStart < l.timeout && IsFresh(m.startedNow, receivedAt, l.maxAge) && m.authorised.Some?
            && (forall i :: 0 <= i < |Take(paths, MAX_OCR_FRAMES)| ==>
                              Smooth(Take(paths, MAX_OCR_FRAMES)[i], l.timeout))
            && IsFresh(m.decidedNow, receivedAt, l.maxAge) && IsFresh(m.actuationNow, receivedAt, l.maxAge)
            && AllowedOn(Observations(Take(paths, MAX_OCR_FRAMES)), m.authorised.value)
            ==> out.Actuates?
    ensures m.atStart >= l.timeout ==> out == Skipped(DecisionTimeout) && used == 0
    ensures m.atStart < l.timeout && !IsFresh(m.startedNow, receivedAt, l.maxAge) ==>
              out == Skipped(StaleBurst) && used == 0
    ensures m.atStart < l.timeout && IsFresh(m.startedNow, receivedAt, l.maxAge) && m.authorised.None? ==>
              out == Skipped(AuthorisationError) && used == 0
  {
    used, seen := 0, [];
    if m.atStart >= l.timeout { return Skipped(DecisionTimeout), used, seen; }
    if !IsFresh(m.startedNow, receivedAt, l.maxAge) { return Skipped(StaleBurst), used, seen; }
    if m.authorised.None? { return Skipped(AuthorisationError), used, seen; }
    var frames := Take(paths, MAX_OCR_FRAMES);
    var scan;
    scan, used, seen := ReadBurst(frames, m.authorised.value, l.timeout);
    out := Conclude(scan, receivedAt, m, l);
  }

  /** The loop, and that nothing but trouble stops it before a decision that the whole burst allows. */
  method ReadBurst(frames: seq<FrameMeets>, authorised: seq<string>, timeout: int)
    returns (scan: Scan, used: nat, seen: seq<PlateObservation>)
    requires |frames| <= MAX_OCR_FRAMES
    ensures used <= |frames| && seen == Observations(frames[..used]) && ScanOk(scan, seen, authorised)
    ensures scan.decision.Some? && scan.decision.value.allowed && !scan.timedOut ==>
              used > 0 && frames[used - 1].atDecision < timeout
    ensures scan.failure.Some? ==> scan.failure.value.OcrBusy? || scan.failure.value.OcrError?
    ensures (forall i :: 0 <= i < |frames| ==> Smooth(frames[i], timeout))
            && AllowedOn(Observations(frames), authorised) ==>
              !scan.timedOut && scan.decision.Some? && scan.decision.value.allowed
  {
    scan, used, seen := ReadFrames(frames, authorised, timeout);
    EmptyIsNotAllowed(authorised);
    if used == |frames| {
      assert frames[..used] == frames;
      if scan.decision.Some? {
        SameDecision(seen, authorised, scan.decision.value);
      }
    }
  }

  /** From the scan to the outcome. */
  method Conclude(scan: Scan, receivedAt: int, m: Meets, l: Limits) returns (out: Outcome)
    requires scan.failure.Some? ==> scan.failure.value.OcrBusy? || scan.failure.value.OcrError?
    ensures out.Actuates? <==> scan.decision.Some? && scan.decision.value.allowed && !scan.timedOut
                               && IsFresh(m.decidedNow, receivedAt, l.maxAge)
                               && IsFresh(m.actuationNow, receivedAt, l.maxAge)
    ensures out.Actuates? || out.Denied? ==> scan.decision == Some(out.decision)
    ensures out.Denied? && out.why.Ruled? ==> !out.decision.allowed && out.why.reason == out.decision.reason
                                              && scan.failure != Some(OcrError)
    ensures scan.decision.None? <==>
            out == Skipped(if scan.timedOut || m.atEnd >= l.timeout then DecisionTimeout
                           else if scan.failure.Some? then scan.failure.value else Unmatched)
    ensures scan.decision.Some? ==>
              var d := scan.decision.value;
              var late := scan.timedOut || (!d.allowed && m.atEnd >= l.timeout);
              var timely := IsFresh(m.decidedNow, receivedAt, l.maxAge)
                            && (!d.allowed || IsFresh(m.actuationNow, receivedAt, l.maxAge));
              && (out == Denied(DecisionTimeout, d) <==> late)
              && (out == Denied(StaleBurst, d) <==> !late && !timely)
              && (out == Denied(OcrError, d) <==> !late && timely && !d.allowed && scan.failure == Some(OcrError))
              && (out == Denied(Ruled(d.reason), d) <==>
                  !late && timely && !d.allowed && scan.failure != Some(OcrError))
  {
    var allowed := scan.decision.Some? && scan.decision.value.allowed;
    var timedOut := scan.timedOut || (!allowed && m.atEnd >= l.timeout);
    if scan.decision.None? {
      var failure := if scan.failure.Some? then scan.failure.value else Unmatched;
      return Skipped(if timedOut then DecisionTimeout else failure);
    }
    var d := scan.decision.value;
    if timedOut { return Denied(DecisionTimeout, d); }
    if !IsFresh(m.decidedNow, receivedAt, l.maxAge) { return Denied(StaleBurst, d); }
    if !d.allowed { return Denied(if scan.failure == Some(OcrError) then OcrError else Ruled(d.reason), d); }
    if !IsFresh(m.actuationNow, receivedAt, l.maxAge) { return Denied(StaleBurst, d); }
    out := Actuates(d);
  }

  lemma SameDecision(obs: seq<PlateObservation>, authorised: seq<string>, d: MatchDecision)
    requires RuledOn(obs, authorised, d)
    ensures forall e :: RuledOn(obs, authorised, e) ==> e == d
  {
    forall e | RuledOn(obs, authorised, e)
      ensures e == d
    {
      RuleDetermines(Frames(obs), AuthorisedSet(authorised), e, d);
    }
  }

  lemma EmptyIsNotAllowed(authorised: seq<string>)
    ensures forall d :: RuledOn([], authorised, d) ==> !d.allowed
  {
    forall d | RuledOn([], authorised, d)
      ensures !d.allowed
    {
      assert Frames([]) == [];
    }
  }
}
