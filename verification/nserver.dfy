/** The request logic of the node's HTTP server (node/nserver.go): the body
    parser of the action endpoints, the status each action endpoint answers
    with, and the key listings of the data endpoints. */
module NodeServer {
  import opened Wrappers
  import opened Json
  import opened Http
  import opened Strconv
  import opened NodeCore

  /** The port the server listens on when none is configured. */
  const DefaultServerPort: int := 3000

  /** The request body as the handler sees it: absent, or what
      json.Unmarshal made of it into a map[string]interface{}. */
  datatype RequestBody = NoBody | Body(parsed: Result<map<string, Json>, string>)

  datatype ParseError =
    | JsonError(msg: string)          // json.Unmarshal failed
    | InvalidStreamPort(port: string) // stream_port is not an integer

  /** What parseActionBody ends with: the string fields and the stream
      destination, an error, or a panic in the unchecked type assertion. */
  datatype ParseOutcome = Parsed(body: map<string, string>, dest: string) | ParseFailed(err: ParseError) | Panicked

  /** Every field other than "action" holds a JSON string. */
  predicate StringValued(m: map<string, Json>)
  {
    forall k :: k in m && k != "action" ==> m[k].JString?
  }

  /** The body map parseActionBody builds: every field but "action", as a string. */
  function StringFields(m: map<string, Json>): (body: map<string, string>)
    requires StringValued(m)
    ensures body.Keys == m.Keys - {"action"}
    ensures forall k :: k in body ==> m[k] == JString(body[k])
  {
    map k | k in m && k != "action" :: m[k].s
  }

  /** A Go map read: the value, or "" for a missing key. */
  function Lookup(body: map<string, string>, k: string): string
  {
    if k in body then body[k] else ""
  }

  /** The host a stream goes to: "loopback" stands for the caller. */
  function StreamHost(addr: string, callerIp: string): string
  {
    if addr == "loopback" then callerIp else addr
  }

  /** The stream destination: "" unless both stream_addr and stream_port
      are set; then host ":" and the port as the integer it parses to. */
  function StreamDest(body: map<string, string>, callerIp: string): (r: Result<string, ParseError>)
    ensures Lookup(body, "stream_addr") == "" || Lookup(body, "stream_port") == "" ==> r == Ok("")
    ensures r.Err? <==> Lookup(body, "stream_addr") != "" && Lookup(body, "stream_port") != ""
                        && Atoi(Lookup(body, "stream_port")).Err?
    ensures r.Err? ==> r.error == InvalidStreamPort(Lookup(body, "stream_port"))
  {
    var addr := Lookup(body, "stream_addr");
    var port := Lookup(body, "stream_port");
    if addr == "" || port == "" then Ok("")
    else match Atoi(port)
      case Err(_) => Err(InvalidStreamPort(port))
      case Ok(n) => Ok(StreamHost(addr, callerIp) + ":" + Decimal(n))
  }

  /** What parseActionBody yields for a request body and the caller's address. */
  function ParseSpec(req: RequestBody, callerIp: string): (r: ParseOutcome)
    ensures r.Panicked? <==> req.Body? && req.parsed.Ok? && !StringValued(req.parsed.value)
    ensures req.Body? && req.parsed.Err? ==> r == ParseFailed(JsonError(req.parsed.error))
    ensures req.NoBody? ==> r == Parsed(map[], "")
  {
    match req
    case NoBody => Parsed(map[], "")
    case Body(Err(e)) => ParseFailed(JsonError(e))
    case Body(Ok(m)) =>
      if !StringValued(m) then Panicked
      else
        var body := StringFields(m);
        match StreamDest(body, callerIp)
        case Err(e) => ParseFailed(e)
        case Ok(d) => Parsed(body, d)
  }

  /** A stream port written as a decimal integer reaches the destination
      verbatim, after the (possibly substituted) host. */
  lemma DecimalPortDest(body: map<string, string>, callerIp: string, n: int)
    requires MinInt64 <= n <= MaxInt64
    requires Lookup(body, "stream_addr") != "" && Lookup(body, "stream_port") == Decimal(n)
    ensures StreamDest(body, callerIp) == Ok(StreamHost(Lookup(body, "stream_addr"), callerIp) + ":" + Decimal(n))
  {
    DecimalRoundTrip(n);
  }

  /** The port is canonicalised: a leading zero on a digit string changes
      neither whether the request is accepted nor where it streams to. */
  lemma LeadingZeroPortDest(body: map<string, string>, callerIp: string, digits: string)
    requires |digits| > 0 && AllDigits(digits)
    requires Lookup(body, "stream_port") == "0" + digits
    ensures StreamDest(body, callerIp).Ok? == StreamDest(body["stream_port" := digits], callerIp).Ok?
    ensures StreamDest(body, callerIp).Ok? ==> StreamDest(body, callerIp) == StreamDest(body["stream_port" := digits], callerIp)
  {
    LeadingZeroIgnored(digits);
    assert Lookup(body["stream_port" := digits], "stream_addr") == Lookup(body, "stream_addr");
  }

  /** parseActionBody: every field but "action" is copied with an unchecked
      string assertion, in Go's unspecified map order; then the stream
      destination is assembled. */
  method ParseActionBody(req: RequestBody, callerIp: string) returns (out: ParseOutcome)
    ensures out == ParseSpec(req, callerIp)
  {
    var body: map<string, string> := map[];
    if req.Body? {
      if req.parsed.Err? {
        return ParseFailed(JsonError(req.parsed.error));
      }
      var m := req.parsed.value;
      var rest := m.Keys;
      while rest != {}
        invariant rest <= m.Keys
        invariant body.Keys == (m.Keys - rest) - {"action"}
        invariant forall k :: k in body ==> m[k] == JString(body[k])
        decreases rest
      {
        var k :| k in rest;
        if k != "action" {
          var v := m[k];
          if !v.JString? {
            assert !StringValued(m);
            return Panicked;
          }
          body := body[k := v.s];
        }
        rest := rest - {k};
      }
      assert StringValued(m) by {
        forall k | k in m && k != "action"
          ensures m[k].JString?
        {
          assert k in body;
        }
      }
      assert body == StringFields(m);
    }
    var addr := Lookup(body, "stream_addr");
    var sDest := "";
    if addr != "" && Lookup(body, "stream_port") != "" {
      if addr == "loopback" {
        addr := callerIp;
      }
      var portText := Lookup(body, "stream_port");
      var port := Atoi(portText);
      if port.Err? {
        return ParseFailed(InvalidStreamPort(portText));
      }
      sDest := addr + ":" + Decimal(port.value);
    }
    out := Parsed(body, sDest);
  }

  /** The text of a parse error as the 400 reply carries it. */
  function ErrorText(e: ParseError): string
  {
    match e
    case JsonError(msg) => msg
    case InvalidStreamPort(port) => "invalid stream port: " + port
  }

  /** The reply of an action endpoint once RunAction has answered. */
  function ActionStatus(maxNumActions: int, res: ActionResult): Reply
  {
    if !res.semOk then Text(StatusServiceUnavailable, Decimal(maxNumActions) + " actions already running")
    else if res.err.Some? then Text(StatusBadRequest, res.err.value)
    else Text(StatusOK, res.out)
  }

  /** An action that was run answers 503 exactly when admission refused it,
      400 exactly when a synchronous run failed, and 200 otherwise. */
  lemma ActionStatusMeaning(maxNumActions: int, admission: Admission, dest: string, run: Result<seq<string>, string>)
    ensures ActionStatus(maxNumActions, Respond(admission, dest, run)).Text?
    ensures ActionStatus(maxNumActions, Respond(admission, dest, run)).status == StatusServiceUnavailable
            <==> admission.Refused?
    ensures ActionStatus(maxNumActions, Respond(admission, dest, run)).status == StatusBadRequest
            <==> admission.Admitted? && dest == "" && run.Err?
    ensures ActionStatus(maxNumActions, Respond(admission, dest, run)).status == StatusOK
            <==> admission.Admitted? && (dest != "" || run.Ok?)
  {
  }

  /** The reply of POST /action for an ad hoc action. */
  function AdhocReply(arbitraryActions: bool, maxNumActions: int, parse: ParseOutcome, adhoc: Result<Action, string>,
                      admission: Admission, run: Result<seq<string>, string>): Reply
  {
    if !arbitraryActions then Text(StatusForbidden, "Remote actions are disabled.")
    else match parse
      case Panicked => HandlerPanic
      case ParseFailed(e) => Text(StatusBadRequest, ErrorText(e))
      case Parsed(_, dest) =>
        if adhoc.Err? then Text(StatusBadRequest, adhoc.error)
        else ActionStatus(maxNumActions, Respond(admission, dest, run))
  }

  /** Whether POST /action gets as far as running the action. */
  predicate AdhocRuns(arbitraryActions: bool, parse: ParseOutcome, adhoc: Result<Action, string>)
  {
    arbitraryActions && parse.Parsed? && adhoc.Ok?
  }

  /** An ad hoc request succeeds only when remote actions are enabled, the
      body parses, the definition decodes and admission succeeds; with
      remote actions disabled it is forbidden whatever it holds. */
  lemma AdhocOkNeedsAll(arbitraryActions: bool, maxNumActions: int, parse: ParseOutcome, adhoc: Result<Action, string>,
                        admission: Admission, run: Result<seq<string>, string>)
    ensures !arbitraryActions ==>
      AdhocReply(arbitraryActions, maxNumActions, parse, adhoc, admission, run) == Text(StatusForbidden, "Remote actions are disabled.")
    ensures AdhocReply(arbitraryActions, maxNumActions, parse, adhoc, admission, run).Text?
            && AdhocReply(arbitraryActions, maxNumActions, parse, adhoc, admission, run).status == StatusOK
            <==> AdhocRuns(arbitraryActions, parse, adhoc) && admission.Admitted? && (parse.dest != "" || run.Ok?)
  {
    if AdhocRuns(arbitraryActions, parse, adhoc) {
      ActionStatusMeaning(maxNumActions, admission, parse.dest, run);
    }
  }

  /** The reply of POST /action/:name. */
  function NamedReply(actions: map<string, Action>, name: string, maxNumActions: int, parse: ParseOutcome,
                      admission: Admission, run: Result<seq<string>, string>): Reply
  {
    match parse
    case Panicked => HandlerPanic
    case ParseFailed(e) => Text(StatusBadRequest, ErrorText(e))
    case Parsed(_, dest) =>
      if name !in actions then HandlerError("unable to find action '" + name + "'")
      else ActionStatus(maxNumActions, Respond(admission, dest, run))
  }

  /** A named request that parses runs nothing for an unknown name and
      answers with the lookup error; for a known name the status follows
      admission and the run. */
  lemma NamedReplyMeaning(actions: map<string, Action>, name: string, maxNumActions: int, parse: ParseOutcome,
                          admission: Admission, run: Result<seq<string>, string>)
    requires parse.Parsed?
    ensures name !in actions ==>
      NamedReply(actions, name, maxNumActions, parse, admission, run) == HandlerError("unable to find action '" + name + "'")
    ensures name in actions ==>
      NamedReply(actions, name, maxNumActions, parse, admission, run).Text?
      && (NamedReply(actions, name, maxNumActions, parse, admission, run).status == StatusServiceUnavailable
          <==> admission.Refused?)
  {
    if name in actions {
      ActionStatusMeaning(maxNumActions, admission, parse.dest, run);
    }
  }

  /** POST /action: `adhoc` is what decoding the body as an ad hoc action
      definition yields; `admission` and `run` are what RunAction meets. */
  method HandleAdhoc(node: Node, req: RequestBody, callerIp: string, adhoc: Result<Action, string>,
                     admission: Admission, run: Result<seq<string>, string>)
    returns (reply: Reply)
    requires node.Valid()
    requires admission.Admitted? ==> admission.handle !in node.acquired
    modifies node`acquired, node`released, node`streaming
    ensures node.Valid()
    ensures reply == AdhocReply(node.arbitraryActions, node.maxNumActions, ParseSpec(req, callerIp), adhoc, admission, run)
    ensures !AdhocRuns(node.arbitraryActions, ParseSpec(req, callerIp), adhoc) ==>
      node.acquired == old(node.acquired) && node.released == old(node.released) && node.streaming == old(node.streaming)
    ensures AdhocRuns(node.arbitraryActions, ParseSpec(req, callerIp), adhoc) && admission.Admitted? ==>
      node.acquired == old(node.acquired) + [admission.handle]
  {
    if !node.arbitraryActions {
      return Text(StatusForbidden, "Remote actions are disabled.");
    }
    var parsed := ParseActionBody(req, callerIp);
    if parsed.Panicked? {
      return HandlerPanic;
    }
    if parsed.ParseFailed? {
      return Text(StatusBadRequest, ErrorText(parsed.err));
    }
    if adhoc.Err? {
      return Text(StatusBadRequest, adhoc.error);
    }
    var out, ok, err := node.RunAction(parsed.dest, admission, run);
    reply := ActionStatus(node.maxNumActions, ActionResult(out, ok, err));
  }

  /** POST /action/:name. */
  method HandleNamed(node: Node, name: string, req: RequestBody, callerIp: string,
                     admission: Admission, run: Result<seq<string>, string>)
    returns (reply: Reply)
    requires node.Valid()
    requires admission.Admitted? ==> admission.handle !in node.acquired
    modifies node`acquired, node`released, node`streaming
    ensures node.Valid()
    ensures reply == NamedReply(node.actions, name, node.maxNumActions, ParseSpec(req, callerIp), admission, run)
    ensures !(ParseSpec(req, callerIp).Parsed? && name in node.actions) ==>
      node.acquired == old(node.acquired) && node.released == old(node.released) && node.streaming == old(node.streaming)
    ensures ParseSpec(req, callerIp).Parsed? && name in node.actions && admission.Admitted? ==>
      node.acquired == old(node.acquired) + [admission.handle]
  {
    var parsed := ParseActionBody(req, callerIp);
    if parsed.Panicked? {
      return HandlerPanic;
    }
    if parsed.ParseFailed? {
      return Text(StatusBadRequest, ErrorText(parsed.err));
    }
    if name !in node.actions {
      return HandlerError("unable to find action '" + name + "'");
    }
    var out, ok, err := node.RunAction(parsed.dest, admission, run);
    reply := ActionStatus(node.maxNumActions, ActionResult(out, ok, err));
  }

  /** The key listing of GET /list and GET /list/:file: a slice of the map's
      size filled by index in Go's map order. */
  method ListKeys<V>(m: map<string, V>) returns (keys: seq<string>)
    ensures |keys| == |m|
    ensures forall k :: k in keys <==> k in m
    ensures forall i, j :: 0 <= i < j < |keys| ==> keys[i] != keys[j]
  {
    var a := new string[|m|];
    var i := 0;
    var rest := m.Keys;
    while rest != {}
      invariant rest <= m.Keys
      invariant 0 <= i <= a.Length && i + |rest| == |m|
      invariant forall k :: k in a[..i] <==> k in m.Keys - rest
      invariant forall p, q :: 0 <= p < q < i ==> a[p] != a[q]
      decreases rest
    {
      var k :| k in rest;
      forall p | 0 <= p < i
        ensures a[p] != k
      {
        assert a[..i][p] in a[..i];
      }
      a[i] := k;
      assert a[..i + 1] == a[..i] + [k];
      i := i + 1;
      rest := rest - {k};
    }
    keys := a[..];
    assert keys == a[..i];
  }

  /** GET /list/:file: the keys of that file's data, none for an unknown file. */
  method ListFile(data: Data, file: string) returns (keys: seq<string>)
    ensures file !in data ==> keys == []
    ensures file in data ==> |keys| == |data[file]| && forall k :: k in keys <==> k in data[file]
  {
    var fileData := if file in data then data[file] else map[];
    keys := ListKeys(fileData);
  }

  /** The port defaulting before the server starts listening. */
  method DefaultPort(node: Node)
    modifies node`serverPort
    ensures node.serverPort == if old(node.serverPort) == 0 then DefaultServerPort else old(node.serverPort)
  {
    if node.serverPort == 0 {
      node.serverPort := DefaultServerPort;
    }
  }
}
