/** The handlers of orch/oserver.go. There is no ping route, so a node's
    last interaction is only ever its registration time. */
module OrchServer {
  import opened Wrappers
  import opened NodeConnections
  import opened Orchs

  /** The entry POST /register/:name/:addr? creates: the address is the
      optional path parameter, falling back to the caller's IP when it is absent
      or empty; the port is
      left at zero. */
  function Registered(name: string, addr: Option<string>, callerIp: string, now: int): (nc: NodeConnection)
    ensures nc.name == name && nc.port == 0 && nc.lastInteraction == now
    ensures addr.Some? && addr.value != "" ==> nc.address == addr.value
    ensures addr.None? || addr.value == "" ==> nc.address == callerIp
  {
    NodeConnection(name, if addr.Some? && addr.value != "" then addr.value else callerIp, 0, now)
  }

  /** POST /register/:name/:addr?: the first registration of a name wins. */
  method Register(o: Orch, name: string, addr: Option<string>, callerIp: string, now: int)
    modifies o`nodes
    ensures name in old(o.nodes) ==> o.nodes == old(o.nodes)
    ensures name !in old(o.nodes) ==> o.nodes == old(o.nodes)[name := Registered(name, addr, callerIp, now)]
  {
    if name !in o.nodes {
      o.nodes := o.nodes[name := Registered(name, addr, callerIp, now)];
    }
  }

  /** GET /nodes answers with the whole registry. */
  method Nodes(o: Orch) returns (listing: map<string, NodeConnection>)
    ensures listing == o.nodes
  {
    listing := o.nodes;
  }

  /** Without a ping route a node is dropped by the first sweep that comes
      more than one period after it registered, however active it is. */
  lemma RegisteredNodeExpires(name: string, addr: Option<string>, callerIp: string, registeredAt: int,
                              nodes: map<string, NodeConnection>, now: int, period: int)
    requires name in nodes && nodes[name] == Registered(name, addr, callerIp, registeredAt)
    ensures name in Survivors(nodes, now, period) <==> now <= registeredAt + period
  {
  }
}
