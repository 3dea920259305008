/** The older liveness machine of node/client.go: four states and a fixed
    five-second tick, with no quick polling. */
module NodeClients {
  import opened Wrappers
  import opened GoTime
  import opened Http

  const ClientPollPeriod: int := 5 * Second

  /** ClientState is an int in Go (Polling = 0 … Disconnected = 3); any
      other value is `Unknown`. */
  datatype ClientState = Polling | Registered | Disconnecting | Disconnected | Unknown(code: int)

  /** The error register or ping returns for an HTTP exchange: a transport
      error as it came, any status other than 200 as "request not OK". */
  function RequestError(o: HttpOutcome): (err: Option<string>)
    ensures err.None? <==> o == Status(StatusOK)
    ensures o.TransportError? ==> err == Some(o.msg)
    ensures o.Status? && o.code != StatusOK ==> err == Some("request not OK")
  {
    match o
    case TransportError(msg) => Some(msg)
    case Status(code) => if code == StatusOK then None else Some("request not OK")
  }

  datatype ClientTick = ClientTick(next: ClientState, exit: bool)

  /** One tick of ClientThread's switch, given the outcome the register or
      ping exchange would have. */
  function ClientStep(s: ClientState, register: HttpOutcome, ping: HttpOutcome): (r: ClientTick)
    ensures r.exit <==> s == Disconnecting || s == Disconnected
    ensures s == Polling ==> r.next == (if register == Status(StatusOK) then Registered else Polling)
    ensures s == Registered ==> r.next == (if ping == Status(StatusOK) then Registered else Polling)
    ensures s == Disconnecting || s == Disconnected ==> r.next == Disconnected
    ensures s.Unknown? ==> r.next == Disconnecting
  {
    match s
    case Polling => ClientTick(if RequestError(register).None? then Registered else Polling, false)
    case Registered => ClientTick(if RequestError(ping).Some? then Polling else Registered, false)
    case Disconnecting => ClientTick(Disconnected, true)
    case Disconnected => ClientTick(Disconnected, true)
    case Unknown(_) => ClientTick(Disconnecting, false)
  }

  /** The state after a run of ticks with the given exchange outcomes, or
      where the loop returned. */
  function ClientRun(s: ClientState, outcomes: seq<(HttpOutcome, HttpOutcome)>): ClientState
    decreases |outcomes|
  {
    if |outcomes| == 0 then s
    else
      var t := ClientStep(s, outcomes[0].0, outcomes[0].1);
      if t.exit then t.next else ClientRun(t.next, outcomes[1..])
  }

  /** Starting from Polling, no sequence of exchanges ever leaves Polling
      and Registered: nothing inside the loop moves to Disconnecting. */
  lemma {:induction false} ClientNeverDisconnects(s: ClientState, outcomes: seq<(HttpOutcome, HttpOutcome)>)
    requires s == Polling || s == Registered
    ensures ClientRun(s, outcomes) == Polling || ClientRun(s, outcomes) == Registered
    decreases |outcomes|
  {
    if |outcomes| > 0 {
      ClientNeverDisconnects(ClientStep(s, outcomes[0].0, outcomes[0].1).next, outcomes[1..]);
    }
  }

  /** The client thread over a node's OrchConnState. */
  class ClientThread {
    var orchConnState: ClientState
    var running: bool

    /** The thread starts in Polling. */
    constructor ()
      ensures orchConnState == Polling && running
    {
      orchConnState := Polling;
      running := true;
    }

    method Tick(register: HttpOutcome, ping: HttpOutcome)
      requires running
      modifies this
      ensures orchConnState == ClientStep(old(orchConnState), register, ping).next
      ensures running <==> !ClientStep(old(orchConnState), register, ping).exit
    {
      match orchConnState
      case Polling =>
        if RequestError(register).None? {
          orchConnState := Registered;
        }
      case Registered =>
        if RequestError(ping).Some? {
          orchConnState := Polling;
        }
      case Disconnecting =>
        orchConnState := Disconnected;
        running := false;
      case Disconnected =>
        running := false;
      case Unknown(_) =>
        orchConnState := Disconnecting;
    }
  }
}
