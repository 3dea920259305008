/** The older disconnect thread of orchestrator/connection.go, the same
    sweep under the name DisconnectionPeriod. */
module OrchestratorConnection {
  import opened GoTime
  import opened NodeConnections
  import opened Orchestrators

  const DisconnectionPeriod: int := 10 * Second

  datatype Wake = Tick(now: int) | Done

  /** One wake-up of DisconnectThread: only the ticker branch touches the
      registry; the cancellation branch returns. */
  method DisconnectThreadStep(o: Orchestrator, wake: Wake) returns (exit: bool)
    modifies o`nodes
    ensures exit <==> wake.Done?
    ensures wake.Done? ==> o.nodes == old(o.nodes)
    ensures wake.Tick? ==> o.nodes == Survivors(old(o.nodes), wake.now, DisconnectionPeriod)
  {
    if wake.Done? {
      return true;
    }
    o.Sweep(wake.now, DisconnectionPeriod);
    exit := false;
  }
}
