/** What clients a canister's entry holds, which sessions can panic, and how far the failure of a poller reaches,
    in every run in which clients connected to a canister at the same time have different keys. */
module Isolation {
  import opened Basics
  import opened Gateway
  import opened ClientSession
  import opened World
  import opened Steps
  import opened Ownership
  import opened Sessions
  import opened Entries
  import opened Conversation
  import opened Registration

  /** The poller state was taken out of the map by the poller that failed. */
  ghost predicate PollerFailed(w: World, g: nat) {
    g < |w.gens| && w.gens[g].role.FailedBy?
  }

  // ---- Registration ----

  /** The entry of a canister holds exactly its connected sessions, each under its key. */
  lemma EntryHoldsConnectedSessions(ws: seq<World>, actions: seq<Action>, i: nat, c: CanisterId, k: ClientKey, s: nat)
    requires Run(ws, actions) && DistinctKeys(ws, actions) && i < |ws|
    requires c in ws[i].gw.data
    ensures var w := ws[i];
            k in w.gw.heap[w.gw.data[c]] && w.gw.heap[w.gw.data[c]][k] == s <==>
            s < |w.handlers| && w.handlers[s].gen == Some(w.gw.data[c])
            && w.handlers[s].session.clientKey == Some(k) && Connected(w.handlers[s])
  {
    var w := ws[i];
    RunKeysInv(ws, actions, i);
    var g := w.gw.data[c];
    assert CanisterOk(w, c);
    if k in w.gw.heap[g] && w.gw.heap[g][k] == s {
      assert EntryOk(w, g, k) && NotLeft(w, g, k) && ListedIsConnected(w, s);
    }
    if s < |w.handlers| && w.handlers[s].gen == Some(g) && w.handlers[s].session.clientKey == Some(k)
       && Connected(w.handlers[s])
    {
      assert HandlerOk(w.handlers[s]) && RegisteredOk(w, s);
    }
  }

  /** A connected session whose poller state is no longer in the map has lost it to a failure of its poller. */
  lemma RetiredMeansFailed(w: World, s: nat)
    requires KeysInv(w) && s < |w.handlers| && w.handlers[s].gen.Some? && Connected(w.handlers[s])
    ensures IsCurrent(w, w.handlers[s].gen.value) || PollerFailed(w, w.handlers[s].gen.value)
  {
    var g := w.handlers[s].gen.value;
    assert HandlerOk(w.handlers[s]) && RegisteredOk(w, s) && GenIsOwnCanister(w, s) && GenOk(w, g);
  }

  lemma FailingStep(w: World, a: Action, g: nat)
    requires SessionsInv(w) && Enabled(w, a) && PollerFailed(Apply(w, a), g) && !PollerFailed(w, g)
    ensures a.RemoveCanister? && a.pid < |w.pollers| && w.pollers[a.pid].gen == g
  {
    if g < |w.gens| {
      RolesMove(w, a, g);
      if RemovesCanister(a) {
        assert PollerOwns(w, a.pid);
        ActivePollerIsInMap(w, a.pid);
      }
    } else if HandlerAction(a) && RemovesClient(a) && !a.RemoveFailed? {
      RemoveClientFrame(w, a.sid);
    }
  }

  /** The step is that of the poller of `g` taking it out of the map because a poll has failed. */
  ghost predicate Fails(w: World, a: Action, g: nat) {
    a.RemoveCanister? && a.pid < |w.pollers| && w.pollers[a.pid].gen == g
  }

  lemma FailureStep(w: World, a: Action, g: nat)
    requires SessionsInv(w) && Enabled(w, a)
    ensures PollerFailed(Apply(w, a), g) <==> PollerFailed(w, g) || Fails(w, a, g)
  {
    if PollerFailed(w, g) {
      RolesMove(w, a, g);
    } else if PollerFailed(Apply(w, a), g) {
      FailingStep(w, a, g);
    } else if Fails(w, a, g) {
      assert PollerOwns(w, a.pid);
      ActivePollerIsInMap(w, a.pid);
    }
  }

  /** A poller state has failed if and only if its own poller has taken it out of the map after a failed poll. */
  lemma {:induction false} FailedExactly(ws: seq<World>, actions: seq<Action>, i: nat, g: nat)
    requires Run(ws, actions) && i < |ws|
    ensures PollerFailed(ws[i], g) <==> exists j :: 0 <= j < i && Fails(ws[j], actions[j], g)
  {
    hide Apply;
    if i > 0 {
      FailedExactly(ws, actions, i - 1, g);
      RunInv(ws, actions, i - 1);
      FailureStep(ws[i - 1], actions[i - 1], g);
    }
  }

  /** A session connected to a canister has its entry in the canister's current poller state, if and only if the poller
      of its own poller state has not failed. The failures of other pollers, also of earlier ones of the canister, are
      of no consequence. */
  lemma ExactWithoutFailures(ws: seq<World>, actions: seq<Action>, i: nat, c: CanisterId, s: nat)
    requires Run(ws, actions) && DistinctKeys(ws, actions) && i < |ws| && s < |ws[i].handlers|
    requires ws[i].handlers[s].gen.Some? && ws[i].handlers[s].session.canisterId == Some(c)
             && Connected(ws[i].handlers[s])
    ensures ws[i].handlers[s].session.clientKey.Some?
    ensures c in ws[i].gw.data && ws[i].gw.data[c] == ws[i].handlers[s].gen.value && HasEntry(ws[i], s) <==>
              forall j :: 0 <= j < i ==> !Fails(ws[j], actions[j], ws[i].handlers[s].gen.value)
  {
    hide Apply;
    var w, g := ws[i], ws[i].handlers[s].gen.value;
    RunKeysInv(ws, actions, i);
    RetiredMeansFailed(w, s);
    FailedExactly(ws, actions, i, g);
    assert HandlerOk(w.handlers[s]) && RegisteredOk(w, s) && GenIsOwnCanister(w, s);
    FailedIsNotCurrent(w, g);
  }

  // ---- Panics ----

  /** A session handler panics in exactly two situations. One: the client closes, fails or sends anything but a
      well-formed open message while the session is in Init. Two: a removal that expects to find its client (after a
      close or an open message that could not be relayed) comes after the session's poller has failed and another
      client has re-created the canister's entry. */
  lemma PanicsExactly(ws: seq<World>, actions: seq<Action>, i: nat)
    requires Run(ws, actions) && DistinctKeys(ws, actions) && i < |actions| && HandlerAction(actions[i])
    ensures var w, a, s := ws[i], actions[i], actions[i].sid;
            s < |w.handlers| && s < |ws[i + 1].handlers| &&
            (ws[i + 1].handlers[s].pc.Crashed? <==>
               || (a.Update? && w.handlers[s].session.state.Init? && StartsBadly(a.event))
               || ((a.RemoveClosed? || a.UndoSetup?)
                   && w.handlers[s].gen.Some? && PollerFailed(w, w.handlers[s].gen.value)
                   && w.handlers[s].session.canisterId.Some? && w.handlers[s].session.canisterId.value in w.gw.data))
  {
    var w, a, s := ws[i], actions[i], actions[i].sid;
    RunKeysInv(ws, actions, i);
    EnabledHandler(w, a, s);
    assert HandlerOk(w.handlers[s]);
    if RemovesClient(a) {
      RemovalIsExact(w, a, s);
      RetiredMeansFailed(w, s);
      assert GenIsOwnCanister(w, s);
      FailedIsNotCurrent(w, w.handlers[s].gen.value);
    } else if a.Update? {
      UpdatePanics(w, s, a.event);
    } else {
      OthersDoNotPanic(w, a, s);
    }
  }

  lemma FailedIsNotCurrent(w: World, g: nat)
    requires OwnershipInv(w) && g < |w.gens|
    ensures PollerFailed(w, g) ==> !IsCurrent(w, g)
  {
    assert GenOk(w, g);
  }

  lemma ApplyUpdate(w: World, s: nat, e: Event)
    requires Enabled(w, Update(s, e))
    ensures Apply(w, Update(s, e)) == UpdateStep(w, s, e)
  {}

  lemma UpdatePanics(w: World, s: nat, e: Event)
    requires Enabled(w, Update(s, e)) && HandlerOk(w.handlers[s])
    ensures UpdateStep(w, s, e).handlers[s].pc.Crashed? <==> w.handlers[s].session.state.Init? && StartsBadly(e)
  {
    hide UpdateStep;
    UpdateLeadsTo(w, s, e);
    ApplyUpdate(w, s, e);
  }

  lemma OthersDoNotPanic(w: World, a: Action, s: nat)
    requires Enabled(w, a) && ByHandler(a, s) && !a.Update? && !RemovesClient(a)
    requires HandlerOk(w.handlers[s])
    ensures !Apply(w, a).handlers[s].pc.Crashed?
  {
    assert Consistent(w.handlers[s].session);
  }

  // ---- Failed pollers ----

  /** A session of a failed poller changes nothing in the gateway state, however it ends, even if the canister has been
      registered again. */
  lemma FailedSessionsAreHarmless(ws: seq<World>, actions: seq<Action>, i: nat)
    requires Run(ws, actions) && DistinctKeys(ws, actions) && i < |actions| && HandlerAction(actions[i])
    requires actions[i].sid < |ws[i].handlers| && ws[i].handlers[actions[i].sid].gen.Some?
    requires PollerFailed(ws[i], ws[i].handlers[actions[i].sid].gen.value)
    ensures ws[i + 1].gw == ws[i].gw
  {
    hide Apply;
    var w, a, s := ws[i], actions[i], actions[i].sid;
    RunKeysInv(ws, actions, i);
    assert HandlerOk(w.handlers[s]);
    GatewayFrame(w, a);
    if RemovesClient(a) {
      RemovalIsExact(w, a, s);
      FailedIsNotCurrent(w, w.handlers[s].gen.value);
    } else if a.Register? {
      RegisterShape(w, s);
    }
  }

  /** The channel of a session that has registered is open exactly as long as the session has its own entry and some
      reference to its poller state is left. With distinct keys it has its own entry until it takes itself out. */
  lemma ChannelOpenIffHeld(ws: seq<World>, actions: seq<Action>, i: nat, s: nat)
    requires Run(ws, actions) && i < |ws| && s < |ws[i].handlers| && ws[i].handlers[s].gen.Some?
    ensures ChannelOpen(ws[i], s) <==> HasOwnEntry(ws[i], s) && Held(ws[i], ws[i].handlers[s].gen.value)
    ensures DistinctKeys(ws, actions) ==> (HasOwnEntry(ws[i], s) <==> ws[i].handlers[s].left.None?)
  {
    hide Apply;
    RunInv(ws, actions, i);
    OpenIffHeld(ws[i], s);
    if DistinctKeys(ws, actions) {
      RunKeysInv(ws, actions, i);
      assert HandlerOk(ws[i].handlers[s]) && RegisteredOk(ws[i], s);
      if ws[i].handlers[s].left.Some? {
        LeftHasNoEntry(ws[i], s);
      }
    }
  }

  lemma OpenIffHeld(w: World, s: nat)
    requires SessionsInv(w) && s < |w.handlers| && w.handlers[s].gen.Some?
    ensures ChannelOpen(w, s) <==> HasOwnEntry(w, s) && Held(w, w.handlers[s].gen.value)
  {
    assert HandlerOk(w.handlers[s]);
    if ChannelOpen(w, s) {
      var g, k :| 0 <= g < |w.gw.heap| && k in w.gw.heap[g] && w.gw.heap[g][k] == s && Held(w, g);
      assert EntryOk(w, g, k);
    }
  }

  /** A poller state is dropped when its poller is gone, and not before. */
  lemma HeldUntilPollerIsGone(w: World, g: nat)
    requires OwnershipInv(w) && g < |w.gens|
    ensures Held(w, g) <==>
            match w.gens[g].role
            case Owed(_) => true
            case Orphaned => true
            case Polled(_) => true
            case Emptied(p) => p < |w.pollers| && w.pollers[p].pc.Stopped?
            case FailedBy(p) => p < |w.pollers| && w.pollers[p].pc.Stopped?
  {
    assert GenOk(w, g);
    if InMap(w, g) {
      assert Current(w.gw, g);
    } else {
      forall c | c in w.gw.data
        ensures w.gw.data[c] != g
      {
        assert CanisterOk(w, c);
      }
      forall s | 0 <= s < |w.handlers|
        ensures w.handlers[s].owed != Some(g)
      {
        assert HandlerOwes(w, s);
      }
      forall p | 0 <= p < |w.pollers|
        ensures w.pollers[p].gen == g ==> IsPolledBy(w.gens[g].role, p) && !w.pollers[p].pc.PollerCrashed?
      {
        assert PollerOwns(w, p);
      }
    }
  }

  /** When the task of a poller ends, the last reference to its poller state goes with it. */
  lemma PollerLetsGo(ws: seq<World>, actions: seq<Action>, i: nat)
    requires Run(ws, actions) && i < |actions| && actions[i].DropPoller?
    ensures actions[i].pid < |ws[i].pollers| && Held(ws[i], ws[i].pollers[actions[i].pid].gen)
    ensures !Held(ws[i + 1], ws[i].pollers[actions[i].pid].gen)
  {
    var p := actions[i].pid;
    RunInv(ws, actions, i);
    RunInv(ws, actions, i + 1);
    assert PollerOwns(ws[i], p) && PollerOwns(ws[i + 1], p);
    HeldUntilPollerIsGone(ws[i], ws[i].pollers[p].gen);
    HeldUntilPollerIsGone(ws[i + 1], ws[i].pollers[p].gen);
  }

  /** Once a failed poller and its task are over, each of its sessions can still read what was sent to it, and then sees
      its channel closed: at any time exactly one of the two can happen to a waiting session. */
  lemma FailureIsSeen(ws: seq<World>, actions: seq<Action>, i: nat, s: nat, p: nat)
    requires Run(ws, actions) && i < |ws| && s < |ws[i].handlers| && p < |ws[i].pollers|
    requires ws[i].handlers[s].gen == Some(ws[i].pollers[p].gen) && PollerFailed(ws[i], ws[i].pollers[p].gen)
    requires ws[i].pollers[p].pc.Gone?
    ensures !ChannelOpen(ws[i], s)
    ensures forall closes :: EventPossible(ws[i], s, ChannelClosed(closes)) <==>
            ws[i].handlers[s].taken == |ws[i].handlers[s].sent|
    ensures forall write :: EventPossible(ws[i], s, FromCanister(write)) <==>
            ws[i].handlers[s].taken < |ws[i].handlers[s].sent|
  {
    hide Apply;
    var w := ws[i];
    RunInv(ws, actions, i);
    OpenIffHeld(w, s);
    assert PollerOwns(w, p) && HandlerOk(w.handlers[s]);
    HeldUntilPollerIsGone(w, w.pollers[p].gen);
  }

  lemma SentToByOwnPoller(w: World, a: Action, s: nat, p: nat)
    requires SessionsInv(w) && SendsTo(w, a, s) && s < |w.handlers| && p < |w.pollers|
    requires w.handlers[s].gen == Some(w.pollers[p].gen)
    ensures a.pid == p && Active(w.pollers[p])
  {
    var t := w.pollers[a.pid];
    assert GuardOk(w, a.pid) && EntryOk(w, t.gen, t.pc.packet.clientKey) && PollerOwns(w, a.pid) && PollerOwns(w, p);
  }

  lemma InactiveSendsNothing(w: World, a: Action, s: nat, p: nat)
    requires SessionsInv(w) && Enabled(w, a) && s < |w.handlers| && p < |w.pollers| && !Active(w.pollers[p])
    requires w.handlers[s].gen == Some(w.pollers[p].gen)
    ensures s < |Apply(w, a).handlers| && Apply(w, a).handlers[s].sent == w.handlers[s].sent
    ensures Apply(w, a).handlers[s].gen == w.handlers[s].gen
    ensures p < |Apply(w, a).pollers| && Apply(w, a).pollers[p].gen == w.pollers[p].gen
            && !Active(Apply(w, a).pollers[p])
  {
    hide Apply;
    HandlersFrame(w, a);
    PollerFrame(w, a, p);
    StaysInactive(w, a, p);
    assert HandlerOk(w.handlers[s]);
    StepKeepsIdentity(w, a, s);
    if SendsTo(w, a, s) {
      SentToByOwnPoller(w, a, s, p);
    }
    SentStays(w, a, s);
  }

  lemma StaysInactive(w: World, a: Action, p: nat)
    requires Enabled(w, a) && p < |w.pollers| && !Active(w.pollers[p])
    ensures p < |Apply(w, a).pollers| && !Active(Apply(w, a).pollers[p])
  {
    PollersFrame(w, a);
  }

  /** From the moment its poller has failed or stopped, nothing more is put into a session's channel: what
      `FailureIsSeen` says is left to read is all there will ever be. */
  lemma {:induction false} BufferIsFinal(ws: seq<World>, actions: seq<Action>, i: nat, j: nat, s: nat, p: nat)
    requires Run(ws, actions) && i <= j < |ws| && s < |ws[i].handlers| && p < |ws[i].pollers|
    requires ws[i].handlers[s].gen == Some(ws[i].pollers[p].gen) && !Active(ws[i].pollers[p])
    ensures s < |ws[j].handlers| && ws[j].handlers[s].sent == ws[i].handlers[s].sent
    ensures p < |ws[j].pollers| && ws[j].handlers[s].gen == Some(ws[j].pollers[p].gen) && !Active(ws[j].pollers[p])
    decreases j
  {
    hide Apply;
    if i < j {
      BufferIsFinal(ws, actions, i, j - 1, s, p);
      RunInv(ws, actions, j - 1);
      InactiveSendsNothing(ws[j - 1], actions[j - 1], s, p);
    }
  }

  /** A session sees its channel closed only after its poller has failed and is gone. */
  lemma ClosedChannelMeansFailure(ws: seq<World>, actions: seq<Action>, i: nat)
    requires Run(ws, actions) && DistinctKeys(ws, actions) && i < |actions|
    requires actions[i].Update? && actions[i].event.ChannelClosed?
    ensures var h := ws[i].handlers[actions[i].sid];
            h.gen.Some? && PollerFailed(ws[i], h.gen.value)
            && ws[i].gens[h.gen.value].role.pid < |ws[i].pollers|
            && ws[i].pollers[ws[i].gens[h.gen.value].role.pid].pc.Gone?
  {
    hide Apply;
    var w, s := ws[i], actions[i].sid;
    RunKeysInv(ws, actions, i);
    assert HandlerOk(w.handlers[s]);
    OpenIffHeld(w, s);
    assert RegisteredOk(w, s) && GenIsOwnCanister(w, s);
    RetiredMeansFailed(w, s);
    var g := w.handlers[s].gen.value;
    HeldUntilPollerIsGone(w, g);
    assert GenOk(w, g);
    assert PollerOwns(w, w.gens[g].role.pid);
  }
}
