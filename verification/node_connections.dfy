/** The orchestrator's record of a registered node and the staleness rule
    its disconnect sweeps apply (the NodeConnection type and the sweep
    condition shared by orchestrator/connection-mgmt.go,
    orchestrator/connection.go and orch/connection.go). Times are
    nanoseconds. */
module NodeConnections {

  datatype NodeConnection = NodeConnection(name: string, address: string, port: int, lastInteraction: int)

  /** time.Time.Before is strict: a node is stale when its last interaction
      lies strictly before `now - period`. */
  predicate Stale(nc: NodeConnection, now: int, period: int)
  {
    nc.lastInteraction < now - period
  }

  /** The registry a sweep at `now` leaves behind. */
  function Survivors(nodes: map<string, NodeConnection>, now: int, period: int): (r: map<string, NodeConnection>)
    ensures r.Keys <= nodes.Keys
    ensures forall name :: name in nodes ==> (name in r <==> nodes[name].lastInteraction >= now - period)
    ensures forall name :: name in r ==> r[name] == nodes[name]
  {
    map name | name in nodes && !Stale(nodes[name], now, period) :: nodes[name]
  }

  /** A node whose last interaction is exactly `now - period` is kept. */
  lemma BoundarySurvives(nodes: map<string, NodeConnection>, now: int, period: int, name: string)
    requires name in nodes && nodes[name].lastInteraction == now - period
    ensures name in Survivors(nodes, now, period)
    ensures Survivors(nodes, now, period)[name] == nodes[name]
  {
  }

  /** A second sweep at the same time removes nothing more. */
  lemma SweepIdempotent(nodes: map<string, NodeConnection>, now: int, period: int)
    ensures Survivors(Survivors(nodes, now, period), now, period) == Survivors(nodes, now, period)
  {
    var once := Survivors(nodes, now, period);
    assert Survivors(once, now, period).Keys == once.Keys;
  }

  /** A later sweep with the same period removes at least what an earlier
      one did: the registry can only shrink as time passes without contact. */
  lemma SweepMonotone(nodes: map<string, NodeConnection>, now: int, later: int, period: int)
    requires now <= later
    ensures Survivors(nodes, later, period).Keys <= Survivors(nodes, now, period).Keys
  {
  }
}
