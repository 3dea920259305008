/** The HTTP handlers of orchestrator/oserver.go over the registry:
    registration, pings, the node listing and forwarding to a node. */
module OrchestratorServer {
  import opened Wrappers
  import opened Http
  import opened Strconv
  import opened NodeConnections
  import opened Orchestrators

  /** The JSON body of /register. */
  datatype NodeRegistration = NodeRegistration(nodeName: string, nodeAddr: string, nodePort: int)

  /** The registry entry a first registration creates. */
  function Registered(r: NodeRegistration, now: int): (nc: NodeConnection)
    ensures nc.name == r.nodeName && nc.address == r.nodeAddr && nc.port == r.nodePort
    ensures nc.lastInteraction == now
  {
    NodeConnection(r.nodeName, r.nodeAddr, r.nodePort, now)
  }

  /** POST /register. `parsed` is what the body parser made of the request;
      a parse error is returned with the registry untouched. The first
      registration of a name wins: a name already present is left exactly
      as it was. */
  method Register(o: Orchestrator, parsed: Result<NodeRegistration, string>, now: int) returns (err: Option<string>)
    modifies o`nodes
    ensures parsed.Err? ==> err == Some(parsed.error) && o.nodes == old(o.nodes)
    ensures parsed.Ok? ==> err.None?
    ensures parsed.Ok? && parsed.value.nodeName in old(o.nodes) ==> o.nodes == old(o.nodes)
    ensures parsed.Ok? && parsed.value.nodeName !in old(o.nodes) ==>
      o.nodes == old(o.nodes)[parsed.value.nodeName := Registered(parsed.value, now)]
  {
    if parsed.Err? {
      return Some(parsed.error);
    }
    var r := parsed.value;
    if r.nodeName !in o.nodes {
      o.nodes := o.nodes[r.nodeName := Registered(r, now)];
    }
    err := None;
  }

  /** POST /ping/:name: a known node's last interaction becomes `now` and
      nothing else changes; an unknown one is answered 404. */
  method Ping(o: Orchestrator, name: string, now: int) returns (reply: Option<Reply>)
    modifies o`nodes
    ensures name in old(o.nodes) ==>
      reply.None? && o.nodes == old(o.nodes)[name := old(o.nodes)[name].(lastInteraction := now)]
    ensures name !in old(o.nodes) ==>
      reply == Some(Text(StatusNotFound, "Node not registered.")) && o.nodes == old(o.nodes)
  {
    if name in o.nodes {
      o.nodes := o.nodes[name := o.nodes[name].(lastInteraction := now)];
      reply := None;
    } else {
      reply := Some(Text(StatusNotFound, "Node not registered."));
    }
  }

  /** GET /nodes answers with the whole registry. */
  method Nodes(o: Orchestrator) returns (listing: map<string, NodeConnection>)
    ensures listing == o.nodes
  {
    listing := o.nodes;
  }

  /** The address a request for a node is sent on to. */
  function NodeUrl(nc: NodeConnection, rest: string): (url: string)
    ensures |url| >= 8 && url[..7] == "http://"
    ensures |url| >= |rest| && url[|url| - |rest|..] == rest
  {
    "http://" + nc.address + ":" + Decimal(nc.port) + "/" + rest
  }

  /** GET and POST on /:node/ and any path below it: a 307 redirect to the node for a registered
      node, 404 otherwise. */
  function ForwardReply(nodes: map<string, NodeConnection>, node: string, rest: string): (r: Reply)
    ensures node !in nodes ==> r == Text(StatusNotFound, "Node " + node + " not registered.")
    ensures node in nodes ==> r.RedirectTo? && r.status == StatusTemporaryRedirect
    ensures node in nodes ==> r.location == NodeUrl(nodes[node], rest)
  {
    if node !in nodes then Text(StatusNotFound, "Node " + node + " not registered.")
    else RedirectTo(StatusTemporaryRedirect, NodeUrl(nodes[node], rest))
  }

  /** The URL names the node's host and port: between "http://" + address
      + ":" and "/" + rest stands a port text with no slash or colon that
      Atoi reads back as the registered port. */
  lemma NodeUrlTarget(nc: NodeConnection, rest: string)
    requires MinInt64 <= nc.port <= MaxInt64
    ensures exists p ::
              NodeUrl(nc, rest) == "http://" + nc.address + ":" + p + "/" + rest
              && Atoi(p) == Ok(nc.port) && '/' !in p && ':' !in p
  {
    var p := Decimal(nc.port);
    DecimalRoundTrip(nc.port);
    assert Atoi(p).Ok?;
    assert forall i :: 0 <= i < |Unsigned(p)| ==> IsDigit(Unsigned(p)[i]);
    assert '/' !in p && ':' !in p by {
      forall i | 0 <= i < |p|
        ensures p[i] != '/' && p[i] != ':'
      {
        if i > 0 || p[0] != '-' {
          assert p[i] == Unsigned(p)[if p[0] == '-' then i - 1 else i];
        }
      }
    }
  }

  /** A request for a registered node is redirected to that node's own
      address and port. */
  lemma RedirectReachesNode(nodes: map<string, NodeConnection>, node: string, rest: string)
    requires node in nodes && MinInt64 <= nodes[node].port <= MaxInt64
    ensures ForwardReply(nodes, node, rest).RedirectTo?
    ensures exists p ::
              ForwardReply(nodes, node, rest).location == "http://" + nodes[node].address + ":" + p + "/" + rest
              && Atoi(p) == Ok(nodes[node].port)
  {
    NodeUrlTarget(nodes[node], rest);
  }

  /** A node that has just registered or pinged survives every sweep held
      within the stale period after that. */
  lemma ContactedNodeSurvives(nodes: map<string, NodeConnection>, name: string, contact: int, now: int, period: int)
    requires name in nodes && nodes[name].lastInteraction == contact
    requires now <= contact + period
    ensures name in Survivors(nodes, now, period)
  {
  }
}
