/**
 The last-moment checks handed to the relay: a remote command's lifetime, and for a recognised
 plate the burst's freshness, the authorised list and the decision deadline.
 */
module Guards {
  import opened Prelude
  import opened Matching

  /** Times are in microseconds. */
  datatype Guard =
    | NoGuard
    | CommandGuard(expiresAt: int, lifetime: int)
    | PlateGuard(receivedAt: int, maxAge: int, plate: string, deadline: int)

  /**
   What one evaluation reads. `now` is None when the clock cannot be compared with the stored
   time, `authorised` is None when the lookup raised.
   */
  datatype Reading = Reading(now: Option<int>, closed: bool, authorised: Option<seq<string>>, decisionNow: int)

  predicate IsFresh(now: Option<int>, receivedAt: int, maxAge: int) {
    now.Some? && 0 <= now.value - receivedAt <= maxAge
  }

  /** The status and detail of the refusal, if the check refuses. */
  function Inhibition(g: Guard, r: Reading): (i: Option<(string, string)>) {
    match g
    case NoGuard => None
    case CommandGuard(expiresAt, lifetime) =>
      if r.now.None? then Some(("expired", "invalid_expiry_window"))
      else if expiresAt - r.now.value <= 0 then Some(("expired", "expired_before_activation"))
      else if expiresAt - r.now.value > lifetime then Some(("expired", "invalid_expiry_window"))
      else None
    case PlateGuard(receivedAt, maxAge, plate, deadline) =>
      if r.closed then Some(("failed", "processor_closed"))
      else if !IsFresh(r.now, receivedAt, maxAge) then Some(("failed", "stale_burst"))
      else if r.authorised.None? then Some(("failed", "authorisation_error"))
      else if NormalisePlate(plate) !in (set p <- r.authorised.value :: NormalisePlate(p))
      then Some(("failed", "authorisation_revoked"))
      else if r.decisionNow >= deadline then Some(("failed", "decision_timeout"))
        else None
  }

  predicate TimelyAt(now: Option<int>, receivedAt: int, maxAge: int) {
    now.Some? && receivedAt <= now.value <= receivedAt + maxAge
  }

  predicate StillListed(authorised: seq<string>, plate: string) {
    exists k :: 0 <= k < |authorised| && NormalisePlate(authorised[k]) == NormalisePlate(plate)
  }

  /** What a pulse needs at the moment it starts. */
  predicate Permitted(g: Guard, r: Reading) {
    match g
    case NoGuard => true
    case CommandGuard(expiresAt, lifetime) => r.now.Some? && r.now.value < expiresAt <= r.now.value + lifetime
    case PlateGuard(receivedAt, maxAge, plate, deadline) =>
      && !r.closed && TimelyAt(r.now, receivedAt, maxAge) && r.decisionNow < deadline
      && r.authorised.Some? && StillListed(r.authorised.value, plate)
  }

  /** Each refusal of the check has its exact condition; an earlier one hides the later ones. */
  lemma RefusalMeaning(g: Guard, r: Reading)
    ensures var i := Inhibition(g, r);
            match g
            case NoGuard => i == None
            case CommandGuard(expiresAt, lifetime) =>
              && (i == Some(("expired", "expired_before_activation")) <==> r.now.Some? && expiresAt <= r.now.value)
              && (i == Some(("expired", "invalid_expiry_window")) <==>
                  r.now.None? || (expiresAt > r.now.value && expiresAt > r.now.value + lifetime))
              && (i.None? <==> r.now.Some? && r.now.value < expiresAt <= r.now.value + lifetime)
            case PlateGuard(receivedAt, maxAge, plate, deadline) =>
              var timely := !r.closed && TimelyAt(r.now, receivedAt, maxAge);
              var listed := timely && r.authorised.Some? && StillListed(r.authorised.value, plate);
              && (i == Some(("failed", "processor_closed")) <==> r.closed)
              && (i == Some(("failed", "stale_burst")) <==> !r.closed && !timely)
              && (i == Some(("failed", "authorisation_error")) <==> timely && r.authorised.None?)
              && (i == Some(("failed", "authorisation_revoked")) <==> timely && r.authorised.Some? && !listed)
              && (i == Some(("failed", "decision_timeout")) <==> listed && r.decisionNow >= deadline)
              && (i.None? <==> listed && r.decisionNow < deadline)
  {
    InhibitionMeaning(g, r);
    Distinct();
    if g.PlateGuard? && r.authorised.Some? {
      var list := r.authorised.value;
      if p :| p in list && NormalisePlate(p) == NormalisePlate(g.plate) {
        var k :| 0 <= k < |list| && list[k] == p;
        assert NormalisePlate(list[k]) == NormalisePlate(g.plate);
      }
    }
  }

  lemma Distinct()
    ensures "expired_before_activation" != "invalid_expiry_window"
    ensures "processor_closed" != "stale_burst" && "authorisation_error" != "authorisation_revoked"
    ensures "processor_closed" != "authorisation_error" && "processor_closed" != "authorisation_revoked"
    ensures "processor_closed" != "decision_timeout" && "stale_burst" != "authorisation_error"
    ensures "stale_burst" != "authorisation_revoked" && "stale_burst" != "decision_timeout"
    ensures "authorisation_error" != "decision_timeout" && "authorisation_revoked" != "decision_timeout"
  {
    assert "expired_before_activation"[0] != "invalid_expiry_window"[0];
    assert "processor_closed"[0] != "stale_burst"[0] && "processor_closed"[0] != "authorisation_error"[0];
    assert "authorisation_error"[14] != "authorisation_revoked"[14] && "stale_burst"[0] != "decision_timeout"[0];
  }

  lemma InhibitionMeaning(g: Guard, r: Reading)
    ensures Inhibition(g, r).None? <==> Permitted(g, r)
    ensures Inhibition(g, r).Some? && g.CommandGuard? ==> Inhibition(g, r).value.0 == "expired"
    ensures Inhibition(g, r).Some? ==> Inhibition(g, r).value.1 != "relay_latched"
  {
    if g.PlateGuard? && r.authorised.Some? {
      var list := r.authorised.value;
      if p :| p in list && NormalisePlate(p) == NormalisePlate(g.plate) {
        var k :| 0 <= k < |list| && list[k] == p;
        assert NormalisePlate(list[k]) == NormalisePlate(g.plate);
      }
    }
  }
}
