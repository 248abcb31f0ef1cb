/** What a step leaves alone, read off the steps themselves. */
module Steps {
  import opened Basics
  import opened Gateway
  import opened World

  predicate HandlerAction(a: Action) {
    a.Update? || a.Register? || a.RelayOpen? || a.StartPoller? || a.UndoSetup? || a.RemoveClosed? || a.RemoveFailed?
    || a.CallWsClose?
  }

  predicate PollerAction(a: Action) { !a.Accept? && !HandlerAction(a) }

  /** The step is taken by the handler of `s`. */
  predicate ByHandler(a: Action, s: nat) { HandlerAction(a) && a.sid == s }

  predicate ByPoller(a: Action, p: nat) { PollerAction(a) && a.pid == p }

  /** The step puts a message into the channel of `s`. */
  ghost predicate SendsTo(w: World, a: Action, s: nat) {
    a.SendToClient? && a.pid < |w.pollers| && w.pollers[a.pid].pc.Sending? && w.pollers[a.pid].pc.sid == s
  }

  predicate RemovesClient(a: Action) { a.UndoSetup? || a.RemoveClosed? || a.RemoveFailed? }

  predicate RemovesCanister(a: Action) { a.CheckClients? || a.RemoveCanister? }

  lemma HandlersFrame(w: World, a: Action)
    requires Enabled(w, a)
    ensures var w' := Apply(w, a);
            && |w'.handlers| == |w.handlers| + (if a.Accept? then 1 else 0)
            && (a.Accept? ==> w'.handlers[|w.handlers|] == NEW_HANDLER)
            && forall s :: 0 <= s < |w.handlers| && !ByHandler(a, s) && !SendsTo(w, a, s) ==>
                 w'.handlers[s] == w.handlers[s]
  {
    match a {
      case UndoSetup(_) => RemoveClientFrame(w, a.sid);
      case RemoveClosed(_) => RemoveClientFrame(w, a.sid);
      case _ =>
    }
  }

  /** What a handler's own step keeps of it. */
  ghost predicate FieldsKept(h: Handler, h': Handler, a: Action) {
    && h'.sent == h.sent
    && (!a.Register? ==> h'.joined == h.joined && h'.gen == h.gen)
    && (!RemovesClient(a) ==> h'.left == h.left)
    && (h.relayedOpen ==> h'.relayedOpen)
    && (Connected(h') ==> Connected(h))
    && (!a.Update? ==> h'.session == h.session)
  }

  lemma OwnFields(w: World, a: Action, s: nat)
    requires Enabled(w, a) && ByHandler(a, s)
    ensures s < |w.handlers| && FieldsKept(w.handlers[s], Apply(w, a).handlers[s], a)
  {
    if RemovesClient(a) {
      RemovalFields(w, a, s);
    }
  }

  lemma RemovalFields(w: World, a: Action, s: nat)
    requires s < |w.handlers| && RemovesClient(a) && Alive(w.handlers[s])
    ensures FieldsKept(w.handlers[s], RemoveClientStep(w, s).handlers[s], a)
    ensures FieldsKept(w.handlers[s], RemoveFailedStep(w, s).handlers[s], a)
  {}

  lemma OthersFields(w: World, a: Action, s: nat)
    requires Enabled(w, a) && !ByHandler(a, s) && s < |w.handlers|
    ensures var h, h' := w.handlers[s], Apply(w, a).handlers[s];
            h' == h.(sent := h'.sent) && (!SendsTo(w, a, s) ==> h' == h)
  {
    HandlersFrame(w, a);
  }

  /** What any step keeps of any handler. */
  lemma HandlerFields(w: World, a: Action, s: nat)
    requires Enabled(w, a) && s < |w.handlers|
    ensures s < |Apply(w, a).handlers|
    ensures var h, h' := w.handlers[s], Apply(w, a).handlers[s];
            if ByHandler(a, s) then FieldsKept(h, h', a)
            else h' == h.(sent := h'.sent) && (!SendsTo(w, a, s) ==> h' == h)
  {
    hide Apply;
    HandlersFrame(w, a);
    if ByHandler(a, s) {
      OwnFields(w, a, s);
    } else {
      OthersFields(w, a, s);
    }
  }

  lemma RemoveClientFrame(w: World, sid: nat)
    requires sid < |w.handlers|
    ensures var w' := RemoveClientStep(w, sid);
            && w'.handlers == w.handlers[sid := w'.handlers[sid]]
            && w'.pollers == w.pollers && |w'.gens| == |w.gens|
            && (forall g :: 0 <= g < |w.gens| ==> w'.gens[g].canister == w.gens[g].canister)
  {}

  lemma PollersFrame(w: World, a: Action)
    requires Enabled(w, a)
    ensures var w' := Apply(w, a);
            && |w.pollers| <= |w'.pollers|
            && (|w'.pollers| == |w.pollers| || (a.StartPoller? && |w'.pollers| == |w.pollers| + 1))
            && (|w'.pollers| > |w.pollers| ==>
                  && w.handlers[a.sid].owed.Some? && w.handlers[a.sid].session.canisterId.Some?
                  && w'.pollers[|w.pollers|] == PollerTask(w.handlers[a.sid].session.canisterId.value,
                                                          w.handlers[a.sid].owed.value, 0, Asking, []))
            && forall p :: 0 <= p < |w.pollers| && !ByPoller(a, p) ==> w'.pollers[p] == w.pollers[p]
  {
    match a {
      case UndoSetup(_) => RemoveClientFrame(w, a.sid);
      case RemoveClosed(_) => RemoveClientFrame(w, a.sid);
      case _ =>
    }
  }

  lemma GensFrame(w: World, a: Action)
    requires Enabled(w, a)
    ensures var w' := Apply(w, a);
            && |w.gens| <= |w'.gens|
            && forall g :: 0 <= g < |w.gens| ==> w'.gens[g].canister == w.gens[g].canister
  {
    match a {
      case UndoSetup(_) => RemoveClientFrame(w, a.sid);
      case RemoveClosed(_) => RemoveClientFrame(w, a.sid);
      case _ =>
    }
  }

  /** The poller of a step stays the poller of its canister and poller state. */
  lemma PollerFrame(w: World, a: Action, p: nat)
    requires Enabled(w, a) && p < |w.pollers|
    ensures var t, t' := w.pollers[p], Apply(w, a).pollers[p];
            p < |Apply(w, a).pollers| && t'.canister == t.canister && t'.gen == t.gen && t.log <= t'.log
  {
    PollersFrame(w, a);
  }

  /** How a step changes the gateway state. */
  lemma GatewayFrame(w: World, a: Action)
    requires Enabled(w, a)
    ensures var gw, gw' := w.gw, Apply(w, a).gw;
            && (a.Register? ==>
                  gw' == gw ||
                  (var s := w.handlers[a.sid].session;
                   s.canisterId.Some? && s.clientKey.Some?
                   && gw' == Insert(gw, s.canisterId.value, s.clientKey.value, a.sid).0))
            && (RemovesClient(a) ==>
                  gw' == gw ||
                  (var s := w.handlers[a.sid].session;
                   s.canisterId.Some? && s.clientKey.Some?
                   && gw' == RemoveClientIfExists(gw, s.canisterId.value, s.clientKey.value).0))
            && (RemovesCanister(a) ==> gw'.heap == gw.heap)
            && (!a.Register? && !RemovesClient(a) && !RemovesCanister(a) ==> gw' == gw)
  {}

  /** The entries after a step are entries from before, or the one of the session that registers. */
  lemma EntriesFrame(w: World, a: Action, g: nat, k: ClientKey)
    requires Enabled(w, a)
    requires g < |Apply(w, a).gw.heap| && k in Apply(w, a).gw.heap[g]
    ensures var w' := Apply(w, a);
            || (g < |w.gw.heap| && k in w.gw.heap[g] && w'.gw.heap[g][k] == w.gw.heap[g][k])
            || (a.Register? && w'.gw.heap[g][k] == a.sid && w'.handlers[a.sid].gen == Some(g)
                && w'.handlers[a.sid].session == w.handlers[a.sid].session
                && w.handlers[a.sid].session.clientKey == Some(k))
  {
    GatewayFrame(w, a);
    if a.Register? {
      RegisterEntries(w, a.sid, g, k);
    }
  }

  lemma RegisterEntries(w: World, sid: nat, g: nat, k: ClientKey)
    requires Enabled(w, Register(sid))
    requires g < |RegisterStep(w, sid).gw.heap| && k in RegisterStep(w, sid).gw.heap[g]
    ensures var w' := RegisterStep(w, sid);
            || (g < |w.gw.heap| && k in w.gw.heap[g] && w'.gw.heap[g][k] == w.gw.heap[g][k])
            || (w'.gw.heap[g][k] == sid && w'.handlers[sid].gen == Some(g)
                && w'.handlers[sid].session == w.handlers[sid].session
                && w.handlers[sid].session.clientKey == Some(k))
  {}

  /** An entry can only go, or change, in a critical section on its own canister and key. */
  lemma EntryStays(w: World, a: Action, c: CanisterId, k: ClientKey)
    requires Enabled(w, a)
    requires Unshared(w.gw) && c in w.gw.data && k in w.gw.heap[w.gw.data[c]]
    requires a.Register? || RemovesClient(a) ==>
               w.handlers[a.sid].session.canisterId != Some(c) || w.handlers[a.sid].session.clientKey != Some(k)
    ensures var g := w.gw.data[c];
            g < |Apply(w, a).gw.heap| && k in Apply(w, a).gw.heap[g] && Apply(w, a).gw.heap[g][k] == w.gw.heap[g][k]
  {
    GatewayFrame(w, a);
  }
}
