/** The state shared by all tasks of the gateway, updated in place
    (src/gateway-state/src/lib.rs:11-280). Each method is one critical section. */
module GatewayState {
  import opened Basics
  import opened G = Gateway

  /** The clients of one poller. The source shares it as `Arc<DashMap<..>>`: object identity is `Arc` identity. */
  class PollerState<S> {
    ghost const gen: nat  // its place in the order of allocation
    var clients: map<ClientKey, S>

    constructor (ghost gen: nat)
      ensures this.gen == gen && clients == map[]
    {
      this.gen := gen;
      clients := map[];
    }
  }

  ghost function Generations<S>(data: map<CanisterId, PollerState<S>>): map<CanisterId, nat> {
    map c | c in data :: data[c].gen
  }

  ghost function Contents<S>(states: seq<PollerState<S>>): (heap: seq<map<ClientKey, S>>)
    reads states
    ensures |heap| == |states| && forall g :: 0 <= g < |heap| ==> heap[g] == states[g].clients
  {
    seq(|states|, g requires 0 <= g < |states| reads states => states[g].clients)
  }

  class GatewayState<S> {
    var data: map<CanisterId, PollerState<S>>
    // every poller state ever allocated, in order
    ghost var states: seq<PollerState<S>>

    ghost predicate Valid()
      reads this, states
    {
      && (forall g :: 0 <= g < |states| ==> states[g].gen == g)
      && (forall c :: c in data ==> data[c].gen < |states| && states[data[c].gen] == data[c])
      && (forall c, d :: c in data && d in data && data[c].gen == data[d].gen ==> c == d)
    }

    ghost function View(): (gw: Gateway<S>)
      requires Valid()
      reads this, states
      ensures WellFormed(gw)
    {
      Gateway(Generations(data), Contents(states))
    }

    constructor ()
      ensures Valid() && fresh(this) && states == [] && View() == Initial()
    {
      data := map[];
      states := [];
    }

    /** Where the poller state of a canister in the map lives. */
    lemma Lookup(c: CanisterId)
      requires Valid() && c in data
      ensures View().data[c] == data[c].gen < |states| && states[data[c].gen] == data[c]
      ensures View().heap[data[c].gen] == data[c].clients
    {}

    method InsertClientChannelAndGetNewPollerState(c: CanisterId, k: ClientKey, tx: S)
      returns (newPollerState: Option<PollerState<S>>)
      requires Valid()
      modifies this, states
      ensures Valid()
      ensures View() == Insert(old(View()), c, k, tx).0
      ensures newPollerState.None? <==> c in old(data)
      ensures newPollerState.None? ==> states == old(states) && data == old(data)
      ensures newPollerState.Some? ==>
                && fresh(newPollerState.value)
                && newPollerState.value.gen == |old(states)|
                && states == old(states) + [newPollerState.value]
                && data == old(data)[c := newPollerState.value]
    {
      if c in data {
        // one more client for an entry that is there
        var pollerState := data[c];
        Lookup(c);
        pollerState.clients := pollerState.clients[k := tx];
        newPollerState := None;
        assert View().data == old(View()).data;
        assert View().heap == Insert(old(View()), c, k, tx).0.heap;
      } else {
        var pollerState := new PollerState<S>(|states|);
        pollerState.clients := pollerState.clients[k := tx];
        Publish(c, pollerState);
        newPollerState := Some(pollerState);
        assert View().heap == Insert(old(View()), c, k, tx).0.heap;
      }
    }

    /** Puts a newly allocated poller state into the map, under a canister that is not there. */
    method Publish(c: CanisterId, pollerState: PollerState<S>)
      requires Valid() && c !in data && pollerState.gen == |states|
      modifies this
      ensures Valid()
      ensures data == old(data)[c := pollerState] && states == old(states) + [pollerState]
      ensures View().data == old(View()).data[c := |old(states)|]
      ensures View().heap == old(View()).heap + [pollerState.clients]
    {
      data := data[c := pollerState];
      states := states + [pollerState];
      assert Generations(data) == Generations(old(data))[c := |old(states)|];
      assert Contents(states) == Contents(old(states)) + [pollerState.clients];
      assert forall g :: 0 <= g < |old(states)| ==> states[g] == old(states)[g];
    }

    /** `ok` is false where the source panics with `unreachable!`. */
    method RemoveClient(c: CanisterId, k: ClientKey) returns (ok: bool)
      requires Valid()
      modifies states
      ensures Valid() && data == old(data) && states == old(states)
      ensures (View(), ok) == G.RemoveClient(old(View()), c, k)
    {
      ok := true;
      if c in data {
        var pollerState := data[c];
        Lookup(c);
        if k in pollerState.clients {
          pollerState.clients := pollerState.clients - {k};
        } else {
          ok := false;
        }
        assert View().heap == G.RemoveClient(old(View()), c, k).0.heap;
      }
    }

    method GetActivePollersCount() returns (n: nat)
      requires Valid()
      ensures n == |View().data|
    {
      n := |data|;
      assert View().data.Keys == data.Keys;
    }

    method RemoveClientIfExists(c: CanisterId, k: ClientKey) returns (r: ClientRemovalResult)
      requires Valid()
      modifies states
      ensures Valid() && data == old(data) && states == old(states)
      ensures (View(), r) == G.RemoveClientIfExists(old(View()), c, k)
    {
      if c in data {
        var pollerState := data[c];
        Lookup(c);
        if k in pollerState.clients {
          pollerState.clients := pollerState.clients - {k};
          r := Removed(k);
        } else {
          r := Vacant;
        }
        assert View().heap == G.RemoveClientIfExists(old(View()), c, k).0.heap;
        return;
      }
      r := Vacant;
    }

    method RemoveCanisterIfEmpty(c: CanisterId) returns (r: CanisterRemovalResult)
      requires Valid()
      modifies this
      ensures Valid() && states == old(states)
      ensures (View(), r) == G.RemoveCanisterIfEmpty(old(View()), c)
      ensures data == if r.Empty? then old(data) - {c} else old(data)
      ensures r.Empty? <==> c in old(data) && old(data[c].clients) == map[]
    {
      if c in data && data[c].clients.Keys == {} {
        Lookup(c);
        data := data - {c};
        r := Empty;
        assert Generations(data) == Generations(old(data)) - {c};
      } else {
        if c in data { Lookup(c); }
        r := NotEmpty;
      }
    }

    /** `ok` is false where the source panics with `unreachable!`. */
    method RemoveFailedCanister(c: CanisterId) returns (ok: bool)
      requires Valid()
      modifies this
      ensures Valid() && states == old(states)
      ensures (View(), ok) == G.RemoveFailedCanister(old(View()), c)
      ensures data == old(data) - {c} && (ok <==> c in old(data))
    {
      ok := c in data;
      data := data - {c};
      assert Generations(data) == Generations(old(data)) - {c};
      assert !ok ==> data == old(data);
    }
  }
}
