/** The node's liveness machine (node/nstate.go): on start-up it registers
    with the orchestrator if it has one, then on every tick registers,
    pings, or falls back to quick polling. Register and ping answers are
    inputs; time is in nanoseconds. */
module NodeStates {
  import opened GoTime
  import OrchestratorConnectionMgmt

  const NodePollPeriod: int := OrchestratorConnectionMgmt.DisconnectStaleNodePeriod / 2
  const QuickPollThreshold: int := 25
  const NodeQuickPollPeriod: int := NodePollPeriod / QuickPollThreshold

  /** The states are strings in Go; any string other than the six named
      ones is `Other`. */
  datatype CommState = Polling | QuickPolling | Registered | Disconnecting | Disconnected | Idle
                     | Other(text: string)

  /** The machine's state and its ticker period. */
  datatype Liveness = Liveness(state: CommState, pollCount: int, period: int)

  /** What one tick leaves: the new state, and whether the loop returns. */
  datatype TickResult = TickResult(next: Liveness, exit: bool)

  /** The state reached before the first tick. */
  function Startup(hasOrch: bool, registerOk: bool): (l: Liveness)
    ensures !hasOrch ==> l.state == Idle
    ensures hasOrch ==> l.state == (if registerOk then Registered else Polling)
    ensures l.pollCount == 0 && l.period == NodePollPeriod
  {
    Liveness(if !hasOrch then Idle else if registerOk then Registered else Polling, 0, NodePollPeriod)
  }

  /** One tick of the switch. `registerOk` and `pingOk` are what register
      and ping would answer if called on this tick. QuickPolling counts the
      tick, gives up quick polling once the count passes the threshold, and
      then falls through to Polling's register attempt. */
  function Step(l: Liveness, hasOrch: bool, registerOk: bool, pingOk: bool): (r: TickResult)
    ensures r.exit <==> l.state == Disconnecting || l.state == Disconnected
    ensures l.state != QuickPolling ==> r.next.pollCount == l.pollCount
    ensures l.state == Polling ==> r.next == l.(state := if registerOk then Registered else Polling)
    ensures l.state == Registered && pingOk ==> r.next == l
    ensures l.state == Registered && !pingOk ==> r.next == Liveness(QuickPolling, l.pollCount, NodeQuickPollPeriod)
    ensures l.state == Idle ==> r.next == l.(state := if hasOrch then QuickPolling else Idle)
    ensures l.state == Disconnecting ==> r.next == l.(state := Disconnected)
    ensures l.state == Disconnected ==> r.next == l
    ensures l.state.Other? ==> r.next == l.(state := Disconnecting)
  {
    match l.state
    case QuickPolling =>
      var count := l.pollCount + 1;
      var counted := if count > QuickPollThreshold then Liveness(Polling, 0, NodePollPeriod)
                     else l.(pollCount := count);
      TickResult(if registerOk then counted.(state := Registered) else counted, false)
    case Polling => TickResult(if registerOk then l.(state := Registered) else l, false)
    case Registered => TickResult(if pingOk then l else Liveness(QuickPolling, l.pollCount, NodeQuickPollPeriod), false)
    case Idle => TickResult(if hasOrch then l.(state := QuickPolling) else l, false)
    case Disconnecting => TickResult(l.(state := Disconnected), true)
    case Disconnected => TickResult(l, true)
    case Other(_) => TickResult(l.(state := Disconnecting), false)
  }

  /** The four states a running node moves between. */
  predicate Live(s: CommState)
  {
    s == Idle || s == Polling || s == QuickPolling || s == Registered
  }

  /** The invariant of every state reached from start-up: a live state, a
      poll count within the threshold, one of the two periods. */
  predicate Reachable(l: Liveness)
  {
    Live(l.state) && 0 <= l.pollCount <= QuickPollThreshold
    && (l.period == NodePollPeriod || l.period == NodeQuickPollPeriod)
  }

  lemma StartupReachable(hasOrch: bool, registerOk: bool)
    ensures Reachable(Startup(hasOrch, registerOk))
  {
  }

  /** Ticks keep the invariant, so no tick ever leaves the live states: the
      loop only ends when its context is done. */
  lemma StepKeepsReachable(l: Liveness, hasOrch: bool, registerOk: bool, pingOk: bool)
    requires Reachable(l)
    ensures !Step(l, hasOrch, registerOk, pingOk).exit
    ensures Reachable(Step(l, hasOrch, registerOk, pingOk).next)
  {
  }

  /** The state after `n` ticks on which every register attempt fails. */
  function FailingTicks(l: Liveness, hasOrch: bool, n: nat): Liveness
    decreases n
  {
    if n == 0 then l else FailingTicks(Step(l, hasOrch, false, false).next, hasOrch, n - 1)
  }

  /** Quick polling that keeps failing gives up after the count passes the
      threshold: from count c, the 26 - c'th failing tick lands in Polling
      with the count reset and the normal period. */
  lemma {:induction false} QuickPollingGivesUp(l: Liveness, hasOrch: bool)
    requires l.state == QuickPolling && 0 <= l.pollCount <= QuickPollThreshold
    ensures FailingTicks(l, hasOrch, QuickPollThreshold + 1 - l.pollCount) == Liveness(Polling, 0, NodePollPeriod)
    ensures forall k :: 0 < k <= QuickPollThreshold - l.pollCount ==>
      FailingTicks(l, hasOrch, k) == Liveness(QuickPolling, l.pollCount + k, l.period)
    decreases QuickPollThreshold - l.pollCount
  {
    var next := Step(l, hasOrch, false, false).next;
    if l.pollCount == QuickPollThreshold {
      assert FailingTicks(l, hasOrch, 1) == FailingTicks(next, hasOrch, 0);
    } else {
      assert next == Liveness(QuickPolling, l.pollCount + 1, l.period);
      QuickPollingGivesUp(next, hasOrch);
      forall k | 0 < k <= QuickPollThreshold - l.pollCount
        ensures FailingTicks(l, hasOrch, k) == Liveness(QuickPolling, l.pollCount + k, l.period)
      {
        assert FailingTicks(l, hasOrch, k) == FailingTicks(next, hasOrch, k - 1);
      }
    }
  }

  /** A register that succeeds while quick polling keeps the count and the
      quick period: a later failed ping resumes quick polling with the count
      left over from before. */
  lemma QuickPollCountCarriesOver(l: Liveness, hasOrch: bool)
    requires l.state == QuickPolling && 0 <= l.pollCount < QuickPollThreshold
    ensures var registered := Step(l, hasOrch, true, false).next;
      registered == Liveness(Registered, l.pollCount + 1, l.period)
      && Step(registered, hasOrch, false, false).next == Liveness(QuickPolling, l.pollCount + 1, NodeQuickPollPeriod)
  {
  }

  /** The periods divide exactly: the threshold of quick polls takes the
      normal period, and the orchestrator's stale period is two normal
      periods, so one missed ping never gets a node dropped. */
  lemma PeriodArithmetic()
    ensures NodePollPeriod == 5 * Second && NodeQuickPollPeriod == 200 * Millisecond
    ensures NodeQuickPollPeriod * QuickPollThreshold == NodePollPeriod
    ensures OrchestratorConnectionMgmt.DisconnectStaleNodePeriod == 2 * NodePollPeriod
  {
  }

  /** The node state thread, with the ticker's period as a field. */
  class NodeStateThread {
    var commState: CommState
    var pollCount: int
    var period: int
    var running: bool

    function State(): Liveness
      reads this
    {
      Liveness(commState, pollCount, period)
    }

    /** Start-up: the zero-valued node state, then the start-up transition. */
    constructor (hasOrch: bool, registerOk: bool)
      ensures State() == Startup(hasOrch, registerOk) && running
    {
      commState := if !hasOrch then Idle else if registerOk then Registered else Polling;
      pollCount := 0;
      period := NodePollPeriod;
      running := true;
    }

    /** One ticker wake-up of the loop. */
    method Tick(hasOrch: bool, registerOk: bool, pingOk: bool)
      requires running
      modifies this
      ensures State() == Step(old(State()), hasOrch, registerOk, pingOk).next
      ensures running <==> !Step(old(State()), hasOrch, registerOk, pingOk).exit
    {
      match commState
      case QuickPolling =>
        pollCount := pollCount + 1;
        if pollCount > QuickPollThreshold {
          pollCount := 0;
          commState := Polling;
          period := NodePollPeriod;
        }
        if registerOk {
          commState := Registered;
        }
      case Polling =>
        if registerOk {
          commState := Registered;
        }
      case Registered =>
        if !pingOk {
          commState := QuickPolling;
          period := NodeQuickPollPeriod;
        }
      case Idle =>
        if hasOrch {
          commState := QuickPolling;
        }
      case Disconnecting =>
        commState := Disconnected;
        running := false;
      case Disconnected =>
        running := false;
      case Other(_) =>
        commState := Disconnecting;
    }

    /** The context ends: the loop returns with the state as it is. */
    method Cancel()
      modifies this`running
      ensures !running
    {
      running := false;
    }
  }
}
