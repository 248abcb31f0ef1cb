/** What holds of every session handler, every poller and every entry of a poller state in every reachable world,
    whatever keys clients use. */
module Sessions {
  import opened Basics
  import opened Gateway
  import opened ClientSession
  import opened Polling
  import opened World
  import opened Steps
  import opened Ownership

  /** Where the handler is agrees with the session, the channel and what has been done so far. */
  ghost predicate HandlerOk(h: Handler) {
    && Consistent(h.session)
    && h.taken <= |h.sent|
    && h.written <= h.sent[..h.taken]
    && (h.gen.None? ==> h.sent == [] && h.left.None? && h.owed.None? && !h.relayedOpen)
    && (h.gen.Some? ==> !h.holdsSender && h.session.clientKey.Some?)
    && (h.left.Some? ==> h.gen.Some? && (h.pc.CallingWsClose? || h.pc.Ended? || h.pc.Crashed?))
    && (h.wsCloses > 0 ==> h.pc.Ended? && h.gen.Some?)
    && h.wsCloses <= 1
    && (!Alive(h) ==> !h.holdsSender && h.owed.None?)
    && (h.owed.Some? ==> h.pc.RelayingOpen? || h.pc.StartingPoller? || h.pc.UndoingSetup?)
    && match h.pc
       case Awaiting =>
         && !h.session.state.Closed?
         && (h.session.state.Init? <==> h.gen.None?)
         && (h.session.state.Init? ==> h.holdsSender)
         && h.written == h.sent[..h.taken]
         && h.owed.None?
       case Registering(m) => h.session.state == Setup(m) && h.gen.None? && h.holdsSender
       case RelayingOpen(m) => h.session.state == Setup(m) && h.gen.Some? && h.taken == 0
       case StartingPoller => h.session.state.Setup? && h.owed.Some? && h.taken == 0 && h.relayedOpen
       case UndoingSetup =>
         h.session.state.Setup? && h.gen.Some? && h.taken == 0
         && RelayClientMessage(h.session, h.session.state.openMessage) == Fail(WebSocket)
       case Closing => h.gen.Some?
       case Failing => h.gen.Some?
       case CallingWsClose => h.gen.Some?
       case Ended => h.gen.Some?
       case Crashed => true
  }

  function Pending(p: PollerTask): seq<Packet> {
    match p.pc
    case Relaying(rest) => rest
    case Sending(packet, _, rest) => [packet] + rest
    case _ => []
  }

  /** Everything that went or is going through the relay loop passed the nonce check as one sequence. */
  ghost predicate PollerOk(p: PollerTask) {
    UpdateNonce(0, p.log + Pending(p)) == Ok(p.next)
  }

  /** An entry belongs to the session that was added there under that key. */
  ghost predicate EntryOk(w: World, g: nat, k: ClientKey)
    requires g < |w.gw.heap| && k in w.gw.heap[g]
  {
    var sid := w.gw.heap[g][k];
    sid < |w.handlers| && w.handlers[sid].gen == Some(g) && w.handlers[sid].session.clientKey == Some(k)
  }

  /** The canister of a session is the canister of the poller state it was added to. */
  ghost predicate GenIsOwnCanister(w: World, s: nat)
    requires s < |w.handlers|
  {
    var h := w.handlers[s];
    h.gen.Some? ==> h.gen.value < |w.gens| && h.session.canisterId == Some(w.gens[h.gen.value].canister)
  }

  /** The guard of a poller that is sending keeps the entry it was taken on. */
  ghost predicate GuardOk(w: World, p: nat)
    requires p < |w.pollers|
  {
    var t := w.pollers[p];
    t.pc.Sending? ==>
      t.gen < |w.gw.heap| && t.pc.packet.clientKey in w.gw.heap[t.gen]
      && w.gw.heap[t.gen][t.pc.packet.clientKey] == t.pc.sid
  }

  ghost predicate SessionsInv(w: World) {
    && OwnershipInv(w)
    && (forall s :: 0 <= s < |w.handlers| ==> HandlerOk(w.handlers[s]))
    && (forall p :: 0 <= p < |w.pollers| ==> PollerOk(w.pollers[p]))
    && (forall g, k :: 0 <= g < |w.gw.heap| && k in w.gw.heap[g] ==> EntryOk(w, g, k))
    && (forall s :: 0 <= s < |w.handlers| ==> GenIsOwnCanister(w, s))
    && (forall p :: 0 <= p < |w.pollers| ==> GuardOk(w, p))
  }

  // ---- Handlers ----

  /** In Init the handler holds the sender and nothing was sent: only the client can be heard of. */
  lemma OnlyClientEventsInInit(w: World, sid: nat, e: Event)
    requires sid < |w.handlers| && HandlerOk(w.handlers[sid])
    requires w.handlers[sid].pc.Awaiting? && EventPossible(w, sid, e) && w.handlers[sid].session.state.Init?
    ensures e.FromClient?
  {}

  lemma UpdateKeepsHandler(w: World, sid: nat, e: Event)
    requires Enabled(w, Update(sid, e)) && HandlerOk(w.handlers[sid])
    ensures HandlerOk(UpdateStep(w, sid, e).handlers[sid])
  {
    match e {
      case FromClient(_, _) => ClientUpdateKeepsHandler(w, sid, e);
      case FromCanister(_) => CanisterUpdateKeepsHandler(w, sid, e);
      case ChannelClosed(_) => ClosedChannelKeepsHandler(w, sid, e);
    }
  }

  lemma ClientUpdateKeepsHandler(w: World, sid: nat, e: Event)
    requires Enabled(w, Update(sid, e)) && HandlerOk(w.handlers[sid]) && e.FromClient?
    ensures HandlerOk(UpdateStep(w, sid, e).handlers[sid])
  {
    UpdateMovesForward(w.handlers[sid].session, e);
  }

  lemma CanisterUpdateKeepsHandler(w: World, sid: nat, e: Event)
    requires Enabled(w, Update(sid, e)) && HandlerOk(w.handlers[sid]) && e.FromCanister?
    ensures HandlerOk(UpdateStep(w, sid, e).handlers[sid])
  {
    var h := w.handlers[sid];
    UpdateMovesForward(h.session, e);
    assert h.sent[..h.taken + 1] == h.sent[..h.taken] + [h.sent[h.taken]];
  }

  lemma ClosedChannelKeepsHandler(w: World, sid: nat, e: Event)
    requires Enabled(w, Update(sid, e)) && HandlerOk(w.handlers[sid]) && e.ChannelClosed?
    ensures HandlerOk(UpdateStep(w, sid, e).handlers[sid])
  {
    UpdateMovesForward(w.handlers[sid].session, e);
  }

  lemma OwnStepKeepsHandler(w: World, a: Action, sid: nat)
    requires Enabled(w, a) && ByHandler(a, sid) && !a.Update? && HandlerOk(w.handlers[sid])
    ensures HandlerOk(Apply(w, a).handlers[sid])
  {
    if RemovesClient(a) {
      RemovalKeepsHandler(w, a, sid);
    } else {
      ProgressKeepsHandler(w, a, sid);
    }
  }

  lemma ProgressKeepsHandler(w: World, a: Action, sid: nat)
    requires Enabled(w, a) && ByHandler(a, sid) && !a.Update? && !RemovesClient(a) && HandlerOk(w.handlers[sid])
    ensures HandlerOk(Apply(w, a).handlers[sid])
  {
    assert Consistent(w.handlers[sid].session);
  }

  lemma RemovalKeepsHandler(w: World, a: Action, sid: nat)
    requires Enabled(w, a) && ByHandler(a, sid) && RemovesClient(a) && HandlerOk(w.handlers[sid])
    ensures HandlerOk(Apply(w, a).handlers[sid])
  {
    if a.RemoveFailed? {
      RemoveFailedKeepsHandler(w, sid);
    } else {
      RemoveClientKeepsHandler(w, sid);
    }
  }

  lemma RemoveFailedKeepsHandler(w: World, sid: nat)
    requires sid < |w.handlers| && w.handlers[sid].pc.Failing? && HandlerOk(w.handlers[sid])
    ensures HandlerOk(RemoveFailedStep(w, sid).handlers[sid])
  {}

  lemma RemoveClientKeepsHandler(w: World, sid: nat)
    requires sid < |w.handlers| && HandlerOk(w.handlers[sid])
    requires w.handlers[sid].pc.Closing? || w.handlers[sid].pc.UndoingSetup?
    ensures HandlerOk(RemoveClientStep(w, sid).handlers[sid])
  {}

  /** Every step keeps each handler in order; a message sent to a session only extends its channel. */
  lemma StepKeepsHandler(w: World, a: Action, s: nat)
    requires Enabled(w, a) && s < |Apply(w, a).handlers|
    requires s < |w.handlers| ==> HandlerOk(w.handlers[s]) && (SendsTo(w, a, s) ==> w.handlers[s].gen.Some?)
    ensures HandlerOk(Apply(w, a).handlers[s])
  {
    HandlersFrame(w, a);
    if s < |w.handlers| {
      if a.Update? && a.sid == s {
        UpdateKeepsHandler(w, s, a.event);
      } else if ByHandler(a, s) {
        OwnStepKeepsHandler(w, a, s);
      } else if SendsTo(w, a, s) {
        var h, h' := w.handlers[s], Apply(w, a).handlers[s];
        assert h'.sent[..h.taken] == h.sent[..h.taken];
      }
    }
  }

  // ---- Pollers ----

  lemma AnswerKeepsPoller(t: PollerTask, answer: Answer)
    requires PollerOk(t) && t.pc.Asking?
    ensures PollerOk(PollAnsweredStep(t, answer))
  {
    assert t.log + [] == t.log;
    if answer.Output? {
      UpdateNonceConcat(0, t.log, Packets(answer.output));
    }
  }

  lemma RelayKeepsPending(w: World, a: Action, p: nat)
    requires Enabled(w, a) && p < |w.pollers| && ByPoller(a, p) && !a.PollAnswered?
    ensures var t, t' := w.pollers[p], Apply(w, a).pollers[p];
            t'.log + Pending(t') == t.log + Pending(t) && t'.next == t.next
  {}

  lemma StepKeepsPoller(w: World, a: Action, p: nat)
    requires Enabled(w, a) && p < |Apply(w, a).pollers|
    requires p < |w.pollers| ==> PollerOk(w.pollers[p])
    ensures PollerOk(Apply(w, a).pollers[p])
  {
    PollersFrame(w, a);
    if p < |w.pollers| && ByPoller(a, p) {
      if a.PollAnswered? {
        AnswerKeepsPoller(w.pollers[p], a.answer);
      } else {
        RelayKeepsPending(w, a, p);
      }
    }
  }

  // ---- Entries and guards ----

  /** The poller state a session was added to, its canister and its key never change once known. */
  lemma StepKeepsIdentity(w: World, a: Action, s: nat)
    requires Enabled(w, a) && s < |w.handlers| && HandlerOk(w.handlers[s])
    ensures s < |Apply(w, a).handlers|
    ensures var h, h' := w.handlers[s], Apply(w, a).handlers[s];
            && (h.gen.Some? ==> h'.gen == h.gen)
            && (h.session.clientKey.Some? ==>
                  h'.session.clientKey == h.session.clientKey && h'.session.canisterId == h.session.canisterId)
  {
    hide Apply;
    HandlerFields(w, a, s);
    if a.Update? && a.sid == s && w.handlers[s].session.clientKey.Some? {
      UpdateKeepsIdentity(w, s, a.event);
    }
  }

  lemma UpdateKeepsIdentity(w: World, s: nat, e: Event)
    requires Enabled(w, Update(s, e)) && HandlerOk(w.handlers[s]) && w.handlers[s].session.clientKey.Some?
    ensures var h, h' := w.handlers[s], Apply(w, Update(s, e)).handlers[s];
            h'.session.clientKey == h.session.clientKey && h'.session.canisterId == h.session.canisterId
  {
    UpdateMovesForward(w.handlers[s].session, e);
  }

  lemma StepKeepsEntry(w: World, a: Action, g: nat, k: ClientKey)
    requires SessionsInv(w) && Enabled(w, a)
    requires g < |Apply(w, a).gw.heap| && k in Apply(w, a).gw.heap[g]
    ensures EntryOk(Apply(w, a), g, k)
  {
    hide Apply;
    EntriesFrame(w, a, g, k);
    HandlersFrame(w, a);
    if g < |w.gw.heap| && k in w.gw.heap[g] && Apply(w, a).gw.heap[g][k] == w.gw.heap[g][k] {
      assert EntryOk(w, g, k);
      StepKeepsIdentity(w, a, w.gw.heap[g][k]);
    }
  }

  lemma RegisterKeepsOwnCanister(w: World, sid: nat)
    requires Enabled(w, Register(sid)) && GenIsOwnCanister(w, sid)
    requires |w.gens| == |w.gw.heap| && forall c :: CanisterOk(w, c)
    ensures GenIsOwnCanister(RegisterStep(w, sid), sid)
  {
    var s := w.handlers[sid].session;
    assert s.canisterId.Some? ==> CanisterOk(w, s.canisterId.value);
  }

  lemma OnlyRegisterSetsGen(w: World, a: Action, s: nat)
    requires Enabled(w, a) && s < |w.handlers| && w.handlers[s].gen.None? && !(a.Register? && a.sid == s)
    ensures s < |Apply(w, a).handlers| && Apply(w, a).handlers[s].gen.None?
  {
    hide Apply;
    HandlerFields(w, a, s);
  }

  lemma StepKeepsOwnCanister(w: World, a: Action, s: nat)
    requires SessionsInv(w) && Enabled(w, a) && s < |Apply(w, a).handlers|
    ensures GenIsOwnCanister(Apply(w, a), s)
  {
    hide Apply;
    HandlersFrame(w, a);
    if s < |w.handlers| {
      assert GenIsOwnCanister(w, s) && HandlerOk(w.handlers[s]);
      if w.handlers[s].gen.Some? {
        StepKeepsIdentity(w, a, s);
        GensFrame(w, a);
      } else if a.Register? && a.sid == s {
        RegisterKeepsOwnCanister(w, s);
        assert Apply(w, a) == RegisterStep(w, s) by { ApplyRegister(w, s); }
      } else {
        OnlyRegisterSetsGen(w, a, s);
      }
    }
  }

  lemma ApplyRegister(w: World, sid: nat)
    requires Enabled(w, Register(sid))
    ensures Apply(w, Register(sid)) == RegisterStep(w, sid)
  {}

  lemma MapIsUnshared(w: World)
    requires OwnershipInv(w)
    ensures Unshared(w.gw)
  {
    forall c, d | c in w.gw.data && d in w.gw.data && w.gw.data[c] == w.gw.data[d]
      ensures c == d
    {
      assert CanisterOk(w, c) && CanisterOk(w, d);
    }
  }

  /** Nobody can touch the entry a poller is sending to. */
  lemma StepKeepsGuard(w: World, a: Action, p: nat)
    requires SessionsInv(w) && Enabled(w, a) && p < |Apply(w, a).pollers|
    ensures GuardOk(Apply(w, a), p)
  {
    hide Apply;
    PollersFrame(w, a);
    if p < |w.pollers| {
      if ByPoller(a, p) {
        OwnStepKeepsGuard(w, a, p);
      } else if w.pollers[p].pc.Sending? {
        var t := w.pollers[p];
        assert GuardOk(w, p);
        ActivePollerIsInMap(w, p);
        MapIsUnshared(w);
        if a.Register? || RemovesClient(a) {
          EntryFreeAvoidsGuard(w, a.sid, p, a);
        }
        EntryStays(w, a, t.canister, t.pc.packet.clientKey);
      }
    }
  }

  lemma EntryFreeAvoidsGuard(w: World, sid: nat, p: nat, a: Action)
    requires Enabled(w, a) && (a.Register? || RemovesClient(a)) && a.sid == sid
    requires p < |w.pollers| && w.pollers[p].pc.Sending?
    requires w.pollers[p].canister in w.gw.data && w.gw.data[w.pollers[p].canister] == w.pollers[p].gen
    ensures var s := w.handlers[sid].session;
            s.canisterId.Some? && s.clientKey.Some? ==>
              s.canisterId.value != w.pollers[p].canister || s.clientKey.value != w.pollers[p].pc.packet.clientKey
  {
    assert EntryFree(w, sid);
  }

  lemma OwnStepKeepsGuard(w: World, a: Action, p: nat)
    requires Enabled(w, a) && p < |w.pollers| && ByPoller(a, p)
    ensures p < |Apply(w, a).pollers| && GuardOk(Apply(w, a), p)
  {}

  lemma SentToIsRegistered(w: World, p: nat)
    requires SessionsInv(w) && p < |w.pollers| && w.pollers[p].pc.Sending?
    ensures var sid := w.pollers[p].pc.sid;
            sid < |w.handlers| && w.handlers[sid].gen == Some(w.pollers[p].gen)
            && w.handlers[sid].session.clientKey == Some(w.pollers[p].pc.packet.clientKey)
  {
    var t := w.pollers[p];
    assert GuardOk(w, p);
    assert EntryOk(w, t.gen, t.pc.packet.clientKey);
  }

  lemma SessionsKept(w: World, a: Action)
    requires SessionsInv(w) && Enabled(w, a)
    ensures SessionsInv(Apply(w, a))
  {
    var w' := Apply(w, a);
    OwnershipKept(w, a);
    forall s | 0 <= s < |w'.handlers|
      ensures HandlerOk(w'.handlers[s]) && GenIsOwnCanister(w', s)
    {
      if SendsTo(w, a, s) {
        SentToIsRegistered(w, a.pid);
      }
      StepKeepsHandler(w, a, s);
      StepKeepsOwnCanister(w, a, s);
    }
    forall p | 0 <= p < |w'.pollers|
      ensures PollerOk(w'.pollers[p]) && GuardOk(w', p)
    {
      StepKeepsPoller(w, a, p);
      StepKeepsGuard(w, a, p);
    }
    forall g, k | 0 <= g < |w'.gw.heap| && k in w'.gw.heap[g]
      ensures EntryOk(w', g, k)
    {
      StepKeepsEntry(w, a, g, k);
    }
  }

  /** Every world of every run satisfies the invariant. */
  lemma {:induction false} RunInv(ws: seq<World>, actions: seq<Action>, i: nat)
    requires Run(ws, actions) && i < |ws|
    ensures SessionsInv(ws[i])
  {
    if i > 0 {
      RunInv(ws, actions, i - 1);
      SessionsKept(ws[i - 1], actions[i - 1]);
    }
  }
}
