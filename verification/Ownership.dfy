/** Who is responsible for each poller state, in every reachable world: a handler that still has to start the poller,
    the poller itself, or nobody any more. Nothing here depends on client keys. */
module Ownership {
  import opened Basics
  import opened World

  /** A poller that has not yet taken its canister out of the map. */
  predicate Active(p: PollerTask) {
    !p.pc.Stopped? && !p.pc.Gone? && !p.pc.PollerCrashed?
  }

  ghost predicate InMap(w: World, g: nat)
    requires g < |w.gens|
  {
    w.gens[g].canister in w.gw.data && w.gw.data[w.gens[g].canister] == g
  }

  /** The poller `p` polls, or has polled, the poller state `g`. */
  ghost predicate PollerOf(w: World, g: nat, p: nat)
    requires g < |w.gens|
  {
    p < |w.pollers| && w.pollers[p].gen == g && w.pollers[p].canister == w.gens[g].canister
  }

  ghost predicate GenOk(w: World, g: nat)
    requires g < |w.gens|
  {
    match w.gens[g].role
    case Owed(s) =>
      InMap(w, g) && s < |w.handlers| && w.handlers[s].owed == Some(g)
      && w.handlers[s].session.canisterId == Some(w.gens[g].canister)
    case Polled(p) => InMap(w, g) && PollerOf(w, g, p) && Active(w.pollers[p])
    case Orphaned => InMap(w, g)
    case Emptied(p) =>
      !InMap(w, g) && PollerOf(w, g, p) && !Active(w.pollers[p]) && g < |w.gw.heap| && w.gw.heap[g].Keys == {}
    case FailedBy(p) => !InMap(w, g) && PollerOf(w, g, p) && !Active(w.pollers[p])
  }

  ghost predicate CanisterOk(w: World, c: CanisterId) {
    c in w.gw.data ==> w.gw.data[c] < |w.gens| && w.gens[w.gw.data[c]].canister == c
  }

  ghost predicate HandlerOwes(w: World, s: nat)
    requires s < |w.handlers|
  {
    var h := w.handlers[s];
    && (h.owed.Some? ==>
          && h.owed.value < |w.gens| && w.gens[h.owed.value].role == Owed(s)
          && h.gen == h.owed
          && (h.pc.RelayingOpen? || h.pc.StartingPoller? || h.pc.UndoingSetup?))
    && (h.pc.StartingPoller? ==> h.owed.Some?)
  }

  ghost predicate PollerOwns(w: World, p: nat)
    requires p < |w.pollers|
  {
    var t := w.pollers[p];
    && t.gen < |w.gens| && PollerOf(w, t.gen, p)
    && !t.pc.PollerCrashed?
    && (if Active(t) then w.gens[t.gen].role == Polled(p)
        else w.gens[t.gen].role == Emptied(p) || w.gens[t.gen].role == FailedBy(p))
  }

  ghost predicate OwnershipInv(w: World) {
    && |w.gens| == |w.gw.heap|
    && (forall g :: 0 <= g < |w.gens| ==> GenOk(w, g))
    && (forall c :: CanisterOk(w, c))
    && (forall s :: 0 <= s < |w.handlers| ==> HandlerOwes(w, s))
    && (forall p :: 0 <= p < |w.pollers| ==> PollerOwns(w, p))
  }

  /** A poller that is about to take its canister out of the map finds its own poller state there. */
  lemma ActivePollerIsInMap(w: World, p: nat)
    requires OwnershipInv(w) && p < |w.pollers| && Active(w.pollers[p])
    ensures w.pollers[p].canister in w.gw.data && w.gw.data[w.pollers[p].canister] == w.pollers[p].gen < |w.gens|
  {
    assert PollerOwns(w, p);
    assert GenOk(w, w.pollers[p].gen);
  }

  // ---- The invariant is kept ----

  /** Steps that change neither the map, nor roles, nor what a handler owes, nor any poller. */
  lemma HandlerStepKeeps(w: World, w': World, sid: nat)
    requires OwnershipInv(w) && sid < |w.handlers|
    requires w'.gw == w.gw && w'.gens == w.gens && w'.pollers == w.pollers
    requires |w'.handlers| == |w.handlers| && w'.handlers == w.handlers[sid := w'.handlers[sid]]
    requires w'.handlers[sid].owed == w.handlers[sid].owed && w'.handlers[sid].gen == w.handlers[sid].gen
    requires w.handlers[sid].owed.Some? ==> w'.handlers[sid].session == w.handlers[sid].session
    requires w.handlers[sid].owed.Some? ==> w'.handlers[sid].pc.UndoingSetup? || w'.handlers[sid].pc.StartingPoller?
    requires w'.handlers[sid].pc.StartingPoller? ==> w'.handlers[sid].owed.Some?
    ensures OwnershipInv(w')
  {
    assert HandlerOwes(w, sid);
    forall g | 0 <= g < |w'.gens|
      ensures GenOk(w', g)
    {
      assert GenOk(w, g);
    }
    forall c
      ensures CanisterOk(w', c)
    {
      assert CanisterOk(w, c);
    }
    forall s | 0 <= s < |w'.handlers|
      ensures HandlerOwes(w', s)
    {
      assert HandlerOwes(w, s);
    }
    forall p | 0 <= p < |w'.pollers|
      ensures PollerOwns(w', p)
    {
      assert PollerOwns(w, p);
    }
  }

  /** Steps of a handler that change clients of one poller state in the map, and may orphan what the handler owed. */
  lemma HandlerEndKeeps(w: World, w': World, sid: nat)
    requires OwnershipInv(w) && sid < |w.handlers|
    requires w'.gw.data == w.gw.data && |w'.gw.heap| == |w.gw.heap|
    requires forall g :: 0 <= g < |w.gw.heap| ==> w'.gw.heap[g].Keys <= w.gw.heap[g].Keys
    requires w'.pollers == w.pollers
    requires |w'.handlers| == |w.handlers| && w'.handlers == w.handlers[sid := w'.handlers[sid]]
    requires w'.handlers[sid].owed == None && !w'.handlers[sid].pc.StartingPoller?
    requires w'.gens == if w.handlers[sid].owed.Some? then SetRole(w.gens, w.handlers[sid].owed.value, Orphaned)
                        else w.gens
    ensures OwnershipInv(w')
  {
    assert HandlerOwes(w, sid);
    forall g | 0 <= g < |w'.gens|
      ensures GenOk(w', g)
    {
      assert GenOk(w, g);
    }
    forall c
      ensures CanisterOk(w', c)
    {
      assert CanisterOk(w, c);
    }
    forall s | 0 <= s < |w'.handlers|
      ensures HandlerOwes(w', s)
    {
      assert HandlerOwes(w, s);
    }
    forall p | 0 <= p < |w'.pollers|
      ensures PollerOwns(w', p)
    {
      assert PollerOwns(w, p);
      assert GenOk(w, w.pollers[p].gen);
    }
  }

  /** Steps of a poller that stays active and leaves the gateway state alone, or of one that stays inactive. */
  lemma PollerStepKeeps(w: World, w': World, pid: nat)
    requires OwnershipInv(w) && pid < |w.pollers|
    requires w'.gw == w.gw && w'.gens == w.gens
    requires |w'.handlers| == |w.handlers|
    requires forall s :: 0 <= s < |w.handlers| ==>
               && w'.handlers[s].owed == w.handlers[s].owed && w'.handlers[s].gen == w.handlers[s].gen
               && w'.handlers[s].pc == w.handlers[s].pc && w'.handlers[s].session == w.handlers[s].session
    requires |w'.pollers| == |w.pollers| && w'.pollers == w.pollers[pid := w'.pollers[pid]]
    requires w'.pollers[pid].gen == w.pollers[pid].gen && w'.pollers[pid].canister == w.pollers[pid].canister
    requires Active(w'.pollers[pid]) <==> Active(w.pollers[pid])
    requires !w'.pollers[pid].pc.PollerCrashed?
    ensures OwnershipInv(w')
  {
    forall g | 0 <= g < |w'.gens|
      ensures GenOk(w', g)
    {
      assert GenOk(w, g);
    }
    forall c
      ensures CanisterOk(w', c)
    {
      assert CanisterOk(w, c);
    }
    forall s | 0 <= s < |w'.handlers|
      ensures HandlerOwes(w', s)
    {
      assert HandlerOwes(w, s);
    }
    forall p | 0 <= p < |w'.pollers|
      ensures PollerOwns(w', p)
    {
      assert PollerOwns(w, p);
    }
  }

  lemma AcceptKeeps(w: World)
    requires OwnershipInv(w)
    ensures OwnershipInv(Apply(w, Accept))
  {
    var w' := Apply(w, Accept);
    forall g | 0 <= g < |w'.gens|
      ensures GenOk(w', g)
    {
      assert GenOk(w, g);
    }
    forall c
      ensures CanisterOk(w', c)
    {
      assert CanisterOk(w, c);
    }
    forall s | 0 <= s < |w'.handlers|
      ensures HandlerOwes(w', s)
    {
      assert s < |w.handlers| ==> HandlerOwes(w, s);
    }
    forall p | 0 <= p < |w'.pollers|
      ensures PollerOwns(w', p)
    {
      assert PollerOwns(w, p);
    }
  }

  /** Registration: the first client of a canister makes its handler owe the poller. */
  lemma RegisterKeeps(w: World, sid: nat)
    requires OwnershipInv(w) && Enabled(w, Register(sid))
    ensures OwnershipInv(Apply(w, Register(sid)))
  {
    var w' := Apply(w, Register(sid));
    var h := w.handlers[sid];
    assert HandlerOwes(w, sid);
    if h.session.canisterId.None? || h.session.clientKey.None? || !h.holdsSender {
      HandlerEndKeeps(w, w', sid);
      return;
    }
    var c := h.session.canisterId.value;
    assert CanisterOk(w, c);
    forall g | 0 <= g < |w'.gens|
      ensures GenOk(w', g)
    {
      if g < |w.gens| {
        assert GenOk(w, g);
      }
    }
    forall d
      ensures CanisterOk(w', d)
    {
      assert CanisterOk(w, d);
    }
    forall s | 0 <= s < |w'.handlers|
      ensures HandlerOwes(w', s)
    {
      assert HandlerOwes(w, s);
    }
    forall p | 0 <= p < |w'.pollers|
      ensures PollerOwns(w', p)
    {
      assert PollerOwns(w, p);
    }
  }

  /** Starting the poller hands the poller state over to it. */
  lemma StartPollerKeeps(w: World, sid: nat)
    requires OwnershipInv(w) && Enabled(w, StartPoller(sid))
    ensures OwnershipInv(Apply(w, StartPoller(sid)))
  {
    var w' := Apply(w, StartPoller(sid));
    var h := w.handlers[sid];
    assert HandlerOwes(w, sid);
    var g0 := h.owed.value;
    assert GenOk(w, g0);
    forall g | 0 <= g < |w'.gens|
      ensures GenOk(w', g)
    {
      assert GenOk(w, g);
    }
    forall c
      ensures CanisterOk(w', c)
    {
      assert CanisterOk(w, c);
    }
    forall s | 0 <= s < |w'.handlers|
      ensures HandlerOwes(w', s)
    {
      assert HandlerOwes(w, s);
    }
    forall p | 0 <= p < |w'.pollers|
      ensures PollerOwns(w', p)
    {
      if p < |w.pollers| {
        assert PollerOwns(w, p);
      }
    }
  }

  /** A poller stops by taking its own poller state out of the map. */
  lemma StopKeeps(w: World, w': World, pid: nat, role: Role)
    requires OwnershipInv(w) && pid < |w.pollers| && Active(w.pollers[pid])
    requires w'.gw.data == w.gw.data - {w.pollers[pid].canister} && w'.gw.heap == w.gw.heap
    requires w'.handlers == w.handlers
    requires w'.pollers == w.pollers[pid := w.pollers[pid].(pc := Stopped)]
    requires role == FailedBy(pid) || (role == Emptied(pid) && w.pollers[pid].canister in w.gw.data
                                       && w.gw.heap[w.gw.data[w.pollers[pid].canister]].Keys == {})
    requires w.pollers[pid].canister in w.gw.data ==>
               w'.gens == SetRole(w.gens, w.gw.data[w.pollers[pid].canister], role)
    ensures OwnershipInv(w')
  {
    ActivePollerIsInMap(w, pid);
    var g0 := w.pollers[pid].gen;
    assert PollerOwns(w, pid);
    assert GenOk(w, g0);
    forall g | 0 <= g < |w'.gens|
      ensures GenOk(w', g)
    {
      assert GenOk(w, g);
    }
    forall c
      ensures CanisterOk(w', c)
    {
      assert CanisterOk(w, c);
    }
    forall s | 0 <= s < |w'.handlers|
      ensures HandlerOwes(w', s)
    {
      assert HandlerOwes(w, s);
    }
    forall p | 0 <= p < |w'.pollers|
      ensures PollerOwns(w', p)
    {
      assert PollerOwns(w, p);
    }
  }

  /** What removing a client can change, whatever its outcome. */
  lemma RemoveClientShape(w: World, sid: nat)
    requires sid < |w.handlers|
    ensures var w' := RemoveClientStep(w, sid);
            && w'.gw.data == w.gw.data && |w'.gw.heap| == |w.gw.heap|
            && (forall g :: 0 <= g < |w.gw.heap| ==> w'.gw.heap[g].Keys <= w.gw.heap[g].Keys)
            && w'.pollers == w.pollers
            && |w'.handlers| == |w.handlers| && w'.handlers == w.handlers[sid := w'.handlers[sid]]
            && !w'.handlers[sid].pc.StartingPoller?
            && (!w'.handlers[sid].pc.CallingWsClose? ==>
                  && w'.handlers[sid].owed == None
                  && w'.gens == if w.handlers[sid].owed.Some? then SetRole(w.gens, w.handlers[sid].owed.value, Orphaned)
                                else w.gens)
            && (w'.handlers[sid].pc.CallingWsClose? ==>
                  w.handlers[sid].pc.Closing? && w'.gens == w.gens && w'.handlers[sid].owed == w.handlers[sid].owed)
  {}

  lemma RemoveFailedShape(w: World, sid: nat)
    requires sid < |w.handlers| && w.handlers[sid].owed == None
    ensures var w' := RemoveFailedStep(w, sid);
            && w'.gw.data == w.gw.data && |w'.gw.heap| == |w.gw.heap|
            && (forall g :: 0 <= g < |w.gw.heap| ==> w'.gw.heap[g].Keys <= w.gw.heap[g].Keys)
            && w'.pollers == w.pollers && w'.gens == w.gens
            && |w'.handlers| == |w.handlers| && w'.handlers == w.handlers[sid := w'.handlers[sid]]
            && !w'.handlers[sid].pc.StartingPoller? && w'.handlers[sid].owed == None
  {}

  /** Every step of every task keeps the invariant. */
  lemma OwnershipKept(w: World, a: Action)
    requires OwnershipInv(w) && Enabled(w, a)
    ensures OwnershipInv(Apply(w, a))
  {
    match a {
      case Accept => AcceptKeeps(w);
      case Register(sid) => RegisterKeeps(w, sid);
      case StartPoller(sid) => StartPollerKeeps(w, sid);
      case Update(_, _) => HandlerActionKeeps(w, a, a.sid);
      case RelayOpen(_) => HandlerActionKeeps(w, a, a.sid);
      case UndoSetup(_) => HandlerActionKeeps(w, a, a.sid);
      case RemoveClosed(_) => HandlerActionKeeps(w, a, a.sid);
      case RemoveFailed(_) => HandlerActionKeeps(w, a, a.sid);
      case CallWsClose(_) => HandlerActionKeeps(w, a, a.sid);
      case _ => PollerActionKeeps(w, a, a.pid);
    }
  }

  lemma HandlerActionKeeps(w: World, a: Action, sid: nat)
    requires OwnershipInv(w) && Enabled(w, a)
    requires a.Update? || a.RelayOpen? || a.UndoSetup? || a.RemoveClosed? || a.RemoveFailed? || a.CallWsClose?
    requires a.sid == sid
    ensures OwnershipInv(Apply(w, a))
  {
    var w' := Apply(w, a);
    assert HandlerOwes(w, sid);
    if a.RelayOpen? && !w'.handlers[sid].pc.Crashed? {
      HandlerStepKeeps(w, w', sid);
    } else {
      if a.UndoSetup? || a.RemoveClosed? {
        RemoveClientShape(w, sid);
      } else if a.RemoveFailed? {
        RemoveFailedShape(w, sid);
      }
      HandlerEndKeeps(w, w', sid);
    }
  }

  lemma PollerActionKeeps(w: World, a: Action, pid: nat)
    requires OwnershipInv(w) && Enabled(w, a)
    requires a.PollAnswered? || a.LookUpClient? || a.SendToClient? || a.CheckClients? || a.RemoveCanister?
             || a.DropPoller?
    requires a.pid == pid
    ensures OwnershipInv(Apply(w, a))
  {
    var w' := Apply(w, a);
    assert PollerOwns(w, pid);
    if w'.pollers[pid].pc.Stopped? {
      ActivePollerIsInMap(w, pid);
      StopKeeps(w, w', pid, if a.CheckClients? then Emptied(pid) else FailedBy(pid));
    } else {
      if a.RemoveCanister? {
        ActivePollerIsInMap(w, pid);
      }
      PollerStepKeeps(w, w', pid);
    }
  }
}
