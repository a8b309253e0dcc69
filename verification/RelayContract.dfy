/** What `ActuationCoordinator` relies on is what the relay interlock guarantees. */
module RelayContract {
  import opened Prelude
  import Relay
  import RelaySafety
  import Actuation
  import Coordinator

  /**
   `trigger`'s answer as the coordinator sees it, with the activation time if there is one, and
   whether the pin rose.
   */
  function Seen(answer: Relay.Answer, rose: bool, status: string, at: Option<int>): Coordinator.RelayAnswer {
    if answer.Raised? then (if rose then Coordinator.RaisedPulsed else Coordinator.RaisedQuiet) else
    var t := match answer
      case Refused(detail) =>
        Actuation.Trigger(false, detail, None, if detail == Relay.LATCHED then None else Some((status, detail)))
      case Activated => Actuation.Trigger(true, "activated", at, None)
      case RelayError => Actuation.Trigger(false, "relay_error", at, None)
      case _ => Actuation.Trigger(false, "relay_deenergize_error", at, None);
    if rose then Coordinator.Pulsed(t) else Coordinator.Quiet(t)
  }

  /** Over every interleaving with shutdown, each answer meets the coordinator's assumption about the relay. */
  lemma TriggerMeetsContract(s: Relay.State, choices: seq<Relay.Choice>, env: Coordinator.Environment, status: string,
                             at: Option<int>)
    requires Relay.Constructed(s)
    requires var u := Relay.Run(s, choices);
             && u.t.TIdle? && u.reply.Some?
             && env.relay == Seen(u.reply.value.answer, Relay.HasRise(u.rises, u.reply.value.id), status, at)
    ensures env.RelayContract()
  {
    RelaySafety.AnswersAreTrue(s, choices);
    assert "relay_error"[6] != "relay_latched"[6] && "relay_deenergize_error"[6] != "relay_latched"[6];
  }
}
