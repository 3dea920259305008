/** The disconnect thread of orchestrator/connection-mgmt.go: every
    DisconnectStaleNodePeriod it drops the nodes it has not heard from
    within that period. */
module OrchestratorConnectionMgmt {
  import opened GoTime
  import opened NodeConnections
  import opened Orchestrators

  const DisconnectStaleNodePeriod: int := 10 * Second

  /** What wakes the disconnect thread: its ticker (at time `now`) or the
      end of its context. */
  datatype Wake = Tick(now: int) | Done

  /** One wake-up of DisconnectThread. A tick sweeps and the loop goes on;
      the context ending returns with the registry untouched. */
  method DisconnectThreadStep(o: Orchestrator, wake: Wake) returns (exit: bool)
    modifies o`nodes
    ensures exit <==> wake.Done?
    ensures wake.Done? ==> o.nodes == old(o.nodes)
    ensures wake.Tick? ==> o.nodes == Survivors(old(o.nodes), wake.now, DisconnectStaleNodePeriod)
  {
    match wake
    case Tick(now) =>
      o.Sweep(now, DisconnectStaleNodePeriod);
      exit := false;
    case Done =>
      exit := true;
  }
}
