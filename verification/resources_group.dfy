/** The weighted semaphore of golang.org/x/sync/semaphore, reduced to its
    permit counter: `size` permits in all, `cur` of them handed out. The
    model is sequential, so no caller is ever queued as a waiter. */
module Semaphore {
  datatype Weighted = Weighted(size: int, cur: int)
  {
    /** TryAcquire(n) and a non-blocking Acquire(n) grant n permits exactly when this holds. */
    predicate CanGrant(n: nat) { size - cur >= n }
  }

  function NewWeighted(n: int): Weighted
  {
    Weighted(n, 0)
  }
}

/** A named capacity pool (node/resources/group.go): a weighted semaphore
    plus a `Held` counter kept beside it. */
module ResourceGroups {
  import opened Wrappers
  import opened Semaphore

  /** The observable state of a group: its capacity and how much of it is held. */
  datatype Holding = Holding(count: int, held: int)

  /** The bookkeeping invariant: held is never negative and never above a
      non-negative count. A group made with a negative count (NewWeighted
      takes any int64) never grants, so it holds nothing. */
  predicate Within(h: Holding)
  {
    0 <= h.held && (h.count >= 0 ==> h.held <= h.count) && (h.count < 0 ==> h.held == 0)
  }

  /** What TryAcquire(n) does to the holding; the boolean says whether it succeeded. */
  function TryStep(h: Holding, n: nat): (r: (bool, Holding))
    ensures r.0 <==> n <= h.count - h.held
    ensures r.1.count == h.count
    ensures r.0 ==> r.1.held == h.held + n
    ensures !r.0 ==> r.1 == h
    ensures Within(h) ==> Within(r.1)
  {
    if h.held + n <= h.count then (true, Holding(h.count, h.held + n)) else (false, h)
  }

  /** What Release(n) does to the holding: held drops by n, clamped at zero. */
  function ReleaseStep(h: Holding, n: nat): (r: Holding)
    ensures r.count == h.count
    ensures r.held >= 0
    ensures h.held >= n ==> r.held == h.held - n
    ensures Within(h) ==> Within(r)
  {
    Holding(h.count, if h.held - n < 0 then 0 else h.held - n)
  }

  datatype Op = TryAcquireOp(n: nat) | ReleaseOp(n: nat)

  /** Replays a sequence of TryAcquire/Release calls on one group. None when
      some Release gives back more than is held: the semaphore panics there. */
  function Replay(h: Holding, ops: seq<Op>): Option<Holding>
    decreases |ops|
  {
    if |ops| == 0 then Some(h)
    else match ops[0]
      case TryAcquireOp(n) => Replay(TryStep(h, n).1, ops[1..])
      case ReleaseOp(n) => if n > h.held then None else Replay(ReleaseStep(h, n), ops[1..])
  }

  /** Every TryAcquire/Release sequence that never releases more than it
      holds keeps the holding within its count and the capacity fixed. */
  lemma {:induction false} ReplayStaysWithin(h: Holding, ops: seq<Op>)
    requires Within(h)
    ensures Replay(h, ops).Some? ==> Within(Replay(h, ops).value) && Replay(h, ops).value.count == h.count
    decreases |ops|
  {
    if |ops| > 0 {
      match ops[0]
      case TryAcquireOp(n) =>
        ReplayStaysWithin(TryStep(h, n).1, ops[1..]);
      case ReleaseOp(n) =>
        if n <= h.held {
          ReplayStaysWithin(ReleaseStep(h, n), ops[1..]);
        }
    }
  }

  /** A group with a negative count grants nothing, whatever is asked of
      it: every call sequence that does not panic leaves it as it was. */
  lemma {:induction false} NegativeCountNeverGrants(h: Holding, ops: seq<Op>)
    requires h.count < 0 && h.held == 0
    ensures Replay(h, ops).Some? ==> Replay(h, ops).value == h
    decreases |ops|
  {
    if |ops| > 0 {
      match ops[0]
      case TryAcquireOp(n) =>
        NegativeCountNeverGrants(TryStep(h, n).1, ops[1..]);
      case ReleaseOp(n) =>
        if n <= h.held {
          NegativeCountNeverGrants(ReleaseStep(h, n), ops[1..]);
        }
    }
  }

  /** The number of permits a sequence of calls acquires minus what it releases. */
  function Granted(h: Holding, ops: seq<Op>): int
    decreases |ops|
  {
    if |ops| == 0 then 0
    else match ops[0]
      case TryAcquireOp(n) =>
        var s := TryStep(h, n);
        (if s.0 then n else 0) + Granted(s.1, ops[1..])
      case ReleaseOp(n) => Granted(ReleaseStep(h, n), ops[1..]) - n
  }

  /** Held moves by exactly what was granted and given back: the counter
      never drifts from the permits the semaphore has handed out. */
  lemma {:induction false} ReplayHeldIsNet(h: Holding, ops: seq<Op>)
    requires Replay(h, ops).Some?
    ensures Replay(h, ops).value.held == h.held + Granted(h, ops)
    decreases |ops|
  {
    if |ops| > 0 {
      match ops[0]
      case TryAcquireOp(n) =>
        ReplayHeldIsNet(TryStep(h, n).1, ops[1..]);
      case ReleaseOp(n) =>
        ReplayHeldIsNet(ReleaseStep(h, n), ops[1..]);
    }
  }

  class ResourceGroup {
    var name: string
    var count: int
    var sem: Weighted
    var held: int

    /** Held mirrors the semaphore's handed-out permits, and the semaphore's
        size is the group's count. */
    ghost predicate Valid()
      reads this
    {
      sem.size == count && held == sem.cur && Within(Holding(count, held))
    }

    function State(): Holding
      reads this
    {
      Holding(count, held)
    }

    /** NewResourceGroup: nothing held, the semaphore sized to the count. */
    constructor (name: string, count: int)
      ensures Valid()
      ensures this.name == name && this.count == count && held == 0
      ensures sem == NewWeighted(count)
    {
      this.name := name;
      this.count := count;
      this.sem := NewWeighted(count);
      this.held := 0;
    }

    function GetCount(): (c: int)
      reads this
      requires Valid()
      ensures c >= 0 ==> held <= c
      ensures c < 0 ==> held == 0
    {
      count
    }

    function GetHeld(): (h: int)
      reads this
      requires Valid()
      ensures 0 <= h && (count >= 0 ==> h <= count) && (count < 0 ==> h == 0)
    {
      held
    }

    /** Acquire with a context: permits available are granted at once;
        otherwise the call waits, and in a sequential model the wait can only
        end with the context being done, which returns its error. */
    method Acquire(ctxDone: bool, n: nat) returns (err: Option<string>)
      requires Valid()
      requires sem.CanGrant(n) || ctxDone
      modifies this
      ensures Valid() && name == old(name)
      ensures err.None? <==> old(sem.CanGrant(n))
      ensures err.None? ==> State() == TryStep(old(State()), n).1
      ensures err.Some? ==> State() == old(State()) && sem == old(sem)
    {
      if sem.CanGrant(n) {
        sem := sem.(cur := sem.cur + n);
        held := held + n;
        err := None;
      } else {
        err := Some("context canceled");
      }
    }

    /** Release hands n permits back. The semaphore panics when more is
        released than is held, so callers must not. */
    method Release(n: nat)
      requires Valid()
      requires n <= sem.cur
      modifies this
      ensures Valid() && name == old(name)
      ensures State() == ReleaseStep(old(State()), n)
      ensures held == old(held) - n
    {
      sem := sem.(cur := sem.cur - n);
      var left := held - n;
      held := if left < 0 then 0 else left;
    }

    method TryAcquire(n: nat) returns (ok: bool)
      requires Valid()
      modifies this
      ensures Valid() && name == old(name)
      ensures ok <==> old(held) + n <= count
      ensures (ok, State()) == TryStep(old(State()), n)
    {
      ok := sem.CanGrant(n);
      if ok {
        sem := sem.(cur := sem.cur + n);
        held := held + n;
      }
    }
  }

  /** NewResourceGroupMap: one fresh group per configured name, keyed by that name. */
  method NewResourceGroupMap(m: map<string, int>) returns (groups: map<string, ResourceGroup>)
    ensures groups.Keys == m.Keys
    ensures forall name :: name in groups ==>
      fresh(groups[name]) && groups[name].Valid() && groups[name].name == name
      && groups[name].count == m[name] && groups[name].held == 0
    ensures forall a, b :: a in groups && b in groups && a != b ==> groups[a] != groups[b]
  {
    groups := map[];
    var rest := m.Keys;
    while rest != {}
      invariant rest <= m.Keys
      invariant groups.Keys == m.Keys - rest
      invariant forall name :: name in groups ==>
        fresh(groups[name]) && groups[name].Valid() && groups[name].name == name
        && groups[name].count == m[name] && groups[name].held == 0
      invariant forall a, b :: a in groups && b in groups && a != b ==> groups[a] != groups[b]
      decreases rest
    {
      var name :| name in rest;
      var g := new ResourceGroup(name, m[name]);
      groups := groups[name := g];
      rest := rest - {name};
    }
  }
}
