/** The older orchestrator of the orch package (orch/orch.go): a port and
    a registry of nodes by name, swept in place by its disconnect thread. */
module Orchs {
  import opened NodeConnections

  class Orch {
    var port: int
    var nodes: map<string, NodeConnection>

    constructor (port: int)
      ensures this.port == port && nodes == map[]
    {
      this.port := port;
      this.nodes := map[];
    }

    /** Ranges over the registry, deleting each stale entry as it is met. */
    method Sweep(now: int, period: int)
      modifies this`nodes
      ensures nodes == Survivors(old(nodes), now, period)
    {
      var names := nodes.Keys;
      while names != {}
        invariant names <= nodes.Keys <= old(nodes).Keys
        invariant forall name :: name in old(nodes) && name !in names ==>
          (name in nodes <==> !Stale(old(nodes)[name], now, period))
        invariant forall name :: name in nodes ==> nodes[name] == old(nodes)[name]
        decreases names
      {
        var name :| name in names;
        if Stale(nodes[name], now, period) {
          nodes := nodes - {name};
        }
        names := names - {name};
      }
    }
  }
}
