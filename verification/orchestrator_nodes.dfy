/** The orchestrator's state (orchestrator/orch.go): its port, log file,
    certificate directory and registry of nodes keyed by name, and the
    delete-during-range sweep its disconnect threads run over the registry. */
module Orchestrators {
  import opened NodeConnections

  class Orchestrator {
    var port: int
    var nodes: map<string, NodeConnection>
    var logFile: string
    var certPath: string

    /** Run starts from an empty registry when none was given. */
    constructor (port: int, logFile: string, certPath: string)
      ensures this.port == port && this.logFile == logFile && this.certPath == certPath
      ensures nodes == map[]
    {
      this.port := port;
      this.nodes := map[];
      this.logFile := logFile;
      this.certPath := certPath;
    }

    /** Ranges over the registry, deleting each stale entry as it is met.
        The clock is read once for the whole sweep. */
    method Sweep(now: int, period: int)
      modifies this`nodes
      ensures nodes == Survivors(old(nodes), now, period)
    {
      var names := nodes.Keys;
      while names != {}
        invariant names <= nodes.Keys <= old(nodes).Keys
        invariant forall name :: name in old(nodes) && name !in names ==>
          (name in nodes <==> !Stale(old(nodes)[name], now, period))
        invariant forall name :: name in nodes ==> nodes[name] == old(nodes)[name]
        decreases names
      {
        var name :| name in names;
        if Stale(nodes[name], now, period) {
          nodes := nodes - {name};
        }
        names := names - {name};
      }
    }
  }
}
