/** The per-node admission controller of node/resources/manager.go: a map
    from resource name to group, every operation delegating to the named
    group. A name that is not configured looks up a nil group and the call
    dereferences it, so every operation requires a configured name. */
module ResourceManagers {
  import opened Wrappers
  import opened ResourceGroups

  class ResourceManager {
    var groups: map<string, ResourceGroup>
    ghost var Repr: set<object>

    /** Each group is valid and keyed by its own name, and no two names
        share a group object. */
    ghost predicate Valid()
      reads this, Repr
    {
      Repr == groups.Values
      && (forall name :: name in groups ==> groups[name].Valid() && groups[name].name == name)
      && (forall a, b :: a in groups && b in groups && a != b ==> groups[a] != groups[b])
    }

    /** The count and held value of every group. */
    function Holdings(): map<string, Holding>
      reads this, Repr
      requires Valid()
    {
      map name | name in groups :: groups[name].State()
    }

    /** NewResourceManager: a group for exactly the configured names, with
        the configured counts and nothing held. */
    constructor (m: map<string, int>)
      ensures Valid() && fresh(Repr)
      ensures groups.Keys == m.Keys
      ensures forall name :: name in m ==> Holdings()[name] == Holding(m[name], 0)
    {
      var g := NewResourceGroupMap(m);
      groups := g;
      Repr := g.Values;
    }

    function GetCount(name: string): (c: int)
      reads this, Repr
      requires Valid() && name in groups
      ensures c == Holdings()[name].count
      ensures c >= 0 ==> Holdings()[name].held <= c
      ensures c < 0 ==> Holdings()[name].held == 0
    {
      groups[name].GetCount()
    }

    function GetHeld(name: string): (h: int)
      reads this, Repr
      requires Valid() && name in groups
      ensures h == Holdings()[name].held && 0 <= h
      ensures GetCount(name) >= 0 ==> h <= GetCount(name)
      ensures GetCount(name) < 0 ==> h == 0
    {
      groups[name].GetHeld()
    }

    method Acquire(name: string, ctxDone: bool, n: nat) returns (err: Option<string>)
      requires Valid() && name in groups
      requires groups[name].sem.CanGrant(n) || ctxDone
      modifies groups[name]
      ensures Valid() && groups == old(groups)
      ensures err.None? <==> old(Holdings()[name].held) + n <= old(Holdings()[name].count)
      ensures Holdings() == old(Holdings())[name := if err.None? then TryStep(old(Holdings()[name]), n).1 else old(Holdings()[name])]
    {
      err := groups[name].Acquire(ctxDone, n);
      assert forall k :: k in groups && k != name ==> groups[k].State() == old(groups[k].State());
    }

    method Release(name: string, n: nat)
      requires Valid() && name in groups
      requires n <= groups[name].held
      modifies groups[name]
      ensures Valid() && groups == old(groups)
      ensures Holdings() == old(Holdings())[name := ReleaseStep(old(Holdings()[name]), n)]
    {
      groups[name].Release(n);
      assert forall k :: k in groups && k != name ==> groups[k].State() == old(groups[k].State());
    }

    /** TryAcquire changes the named group's held value and no other group's. */
    method TryAcquire(name: string, n: nat) returns (ok: bool)
      requires Valid() && name in groups
      modifies groups[name]
      ensures Valid() && groups == old(groups)
      ensures (ok, Holdings()[name]) == TryStep(old(Holdings()[name]), n)
      ensures forall k :: k in groups && k != name ==> Holdings()[k] == old(Holdings()[k])
    {
      ok := groups[name].TryAcquire(n);
      assert forall k :: k in groups && k != name ==> groups[k].State() == old(groups[k].State());
    }
  }
}
