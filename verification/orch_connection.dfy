/** The disconnect thread of orch/connection.go. */
module OrchConnection {
  import opened GoTime
  import opened NodeConnections
  import opened Orchs

  const DisconnectionPeriod: int := 10 * Second

  datatype Wake = Tick(now: int) | Done

  /** One wake-up of DisconnectThread: a tick sweeps the registry, the end
      of the context returns. */
  method DisconnectThreadStep(o: Orch, wake: Wake) returns (exit: bool)
    modifies o`nodes
    ensures exit <==> wake.Done?
    ensures wake.Done? ==> o.nodes == old(o.nodes)
    ensures wake.Tick? ==> o.nodes == Survivors(old(o.nodes), wake.now, DisconnectionPeriod)
  {
    if wake.Done? {
      return true;
    }
    o.Sweep(wake.now, DisconnectionPeriod);
    exit := false;
  }
}
