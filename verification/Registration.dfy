/** Which clients a poller state holds, and what exactly their channels carry, when clients connected to a canister at
    the same time have different keys. */
module Registration {
  import opened Basics
  import opened Gateway
  import opened World
  import opened Steps
  import opened Ownership
  import opened Sessions
  import opened Entries

  /** A session that has not taken itself out has its own entry. */
  ghost predicate RegisteredOk(w: World, s: nat)
    requires s < |w.handlers|
  {
    var h := w.handlers[s];
    h.gen.Some? && h.session.clientKey.Some? && h.left.None? ==> HasEntry(w, s)
  }

  ghost predicate NotLeft(w: World, g: nat, k: ClientKey)
    requires g < |w.gw.heap| && k in w.gw.heap[g]
  {
    w.gw.heap[g][k] < |w.handlers| && w.handlers[w.gw.heap[g][k]].left.None?
  }

  ghost predicate Differ(w: World, s: nat, t: nat)
    requires s < |w.handlers| && t < |w.handlers|
  {
    var h, i := w.handlers[s], w.handlers[t];
    s != t && h.gen.Some? && i.gen.Some? && Connected(h) && Connected(i)
        && h.session.canisterId == i.session.canisterId ==>
      h.session.clientKey != i.session.clientKey
  }

  /** One that has was sent everything with its key until then, and nothing since. */
  ghost predicate LeftOk(w: World, s: nat)
    requires s < |w.handlers|
  {
    w.handlers[s].gen.Some? && w.handlers[s].left.Some? ==> SentUpTo(w, s, w.handlers[s].left.value)
  }

  ghost predicate KeysInv(w: World) {
    && EntriesInv(w)
    && (forall s :: 0 <= s < |w.handlers| ==> RegisteredOk(w, s))
    && (forall g, k :: 0 <= g < |w.gw.heap| && k in w.gw.heap[g] ==> NotLeft(w, g, k))
    && (forall s, t :: 0 <= s < |w.handlers| && 0 <= t < |w.handlers| ==> Differ(w, s, t))
    && (forall s :: 0 <= s < |w.handlers| ==> LeftOk(w, s))
  }

  // ---- What a removal does ----

  /** A connected session that finds its key under its canister finds its own entry. */
  lemma FindsOwnEntry(w: World, s: nat)
    requires KeysInv(w) && s < |w.handlers| && w.handlers[s].gen.Some? && Connected(w.handlers[s])
    ensures w.handlers[s].session.canisterId.Some? && w.handlers[s].session.clientKey.Some?
    ensures var c, k := w.handlers[s].session.canisterId.value, w.handlers[s].session.clientKey.value;
            (c in w.gw.data && k in w.gw.heap[w.gw.data[c]] <==> IsCurrent(w, w.handlers[s].gen.value))
            && (IsCurrent(w, w.handlers[s].gen.value) ==>
                  w.gw.data[c] == w.handlers[s].gen.value && w.gw.heap[w.gw.data[c]][k] == s)
  {
    var h := w.handlers[s];
    assert HandlerOk(h) && GenIsOwnCanister(w, s) && RegisteredOk(w, s);
    var c, k := h.session.canisterId.value, h.session.clientKey.value;
    if c in w.gw.data && k in w.gw.heap[w.gw.data[c]] {
      var g := w.gw.data[c];
      var t := w.gw.heap[g][k];
      assert EntryOk(w, g, k) && CanisterOk(w, c) && NotLeft(w, g, k);
      assert GenIsOwnCanister(w, t) && RegisteredOk(w, t) && ListedIsConnected(w, t);
      assert Differ(w, s, t);
    }
  }

  /** A session that takes itself out removes exactly its own entry if its poller state is still the canister's
      current one, and changes nothing otherwise. It panics exactly when, in the second case, the canister has
      another poller state and the removal is one that expects to find the client. */
  lemma RemovalIsExact(w: World, a: Action, s: nat)
    requires KeysInv(w) && Enabled(w, a) && RemovesClient(a) && a.sid == s
    ensures s < |w.handlers| && s < |Apply(w, a).handlers| && w.handlers[s].gen.Some?
            && w.handlers[s].session.clientKey.Some?
    ensures w.handlers[s].session.canisterId.Some? && Connected(w.handlers[s]) && w.handlers[s].left.None?
    ensures var w' := Apply(w, a);
            var g, k := w.handlers[s].gen.value, w.handlers[s].session.clientKey.value;
            if IsCurrent(w, g) then
              && w'.gw == Gateway(w.gw.data, w.gw.heap[g := w.gw.heap[g] - {k}])
              && w'.handlers[s].left == Some(|LogOf(w, g)|)
              && !w'.handlers[s].pc.Crashed?
            else
              && w'.gw == w.gw
              && w'.handlers[s].left.None?
              && (w'.handlers[s].pc.Crashed? <==>
                  !a.RemoveFailed? && w.handlers[s].session.canisterId.value in w.gw.data)
  {
    assert HandlerOk(w.handlers[s]);
    FindsOwnEntry(w, s);
  }

  // ---- The invariant is kept ----

  /** The step of another session does not touch this one's entry. */
  lemma KeepsOthersEntry(w: World, a: Action, s: nat)
    requires KeysInv(w) && Enabled(w, a) && FreshKey(w, a) && s < |w.handlers|
    requires w.handlers[s].gen.Some? && w.handlers[s].session.clientKey.Some? && w.handlers[s].left.None?
    requires (a.Register? || RemovesClient(a)) ==> a.sid != s
    ensures var g, k := w.handlers[s].gen.value, w.handlers[s].session.clientKey.value;
            g < |Apply(w, a).gw.heap| && k in Apply(w, a).gw.heap[g] && Apply(w, a).gw.heap[g][k] == s
  {
    hide Apply;
    var g, k := w.handlers[s].gen.value, w.handlers[s].session.clientKey.value;
    assert RegisteredOk(w, s) && GenIsOwnCanister(w, s) && HandlerOk(w.handlers[s]) && ListedIsConnected(w, s);
    GatewayFrame(w, a);
    if a.Register? {
      EnabledHandler(w, a, a.sid);
      var t := w.handlers[a.sid].session;
      assert t.canisterId.Some? ==> CanisterOk(w, t.canisterId.value);
    } else if RemovesClient(a) {
      RemovalIsExact(w, a, a.sid);
      assert RegisteredOk(w, a.sid);
    }
  }

  lemma LeftStays(w: World, a: Action, s: nat)
    requires Enabled(w, a) && s < |w.handlers|
    requires s < |Apply(w, a).handlers|
    requires w.handlers[s].left.Some? || !(RemovesClient(a) && a.sid == s)
    requires w.handlers[s].left.Some? ==>
             !w.handlers[s].pc.UndoingSetup? && !w.handlers[s].pc.Closing? && !w.handlers[s].pc.Failing?
    ensures Apply(w, a).handlers[s].left == w.handlers[s].left
  {
    hide Apply;
    HandlerFields(w, a, s);
  }

  lemma StepKeepsRegistered(w: World, a: Action, s: nat)
    requires KeysInv(w) && Enabled(w, a) && FreshKey(w, a) && s < |Apply(w, a).handlers|
    ensures RegisteredOk(Apply(w, a), s)
  {
    hide Apply;
    var w' := Apply(w, a);
    HandlersFrame(w, a);
    if s < |w.handlers| && w'.handlers[s].gen.Some? && w'.handlers[s].left.None? {
      assert HandlerOk(w.handlers[s]) && RegisteredOk(w, s);
      if a.Register? && a.sid == s {
        RegisterShape(w, s);
        ApplyRegister(w, s);
      } else if w.handlers[s].gen.None? {
        OnlyRegisterSetsGen(w, a, s);
      } else {
        StepKeepsIdentity(w, a, s);
        if w.handlers[s].left.Some? {
          LeftStays(w, a, s);
        }
        if RemovesClient(a) && a.sid == s {
          RemovalIsExact(w, a, s);
        } else {
          KeepsOthersEntry(w, a, s);
        }
      }
    }
  }

  lemma StepKeepsNotLeft(w: World, a: Action, g: nat, k: ClientKey)
    requires KeysInv(w) && Enabled(w, a) && g < |Apply(w, a).gw.heap| && k in Apply(w, a).gw.heap[g]
    ensures NotLeft(Apply(w, a), g, k)
  {
    hide Apply;
    var w' := Apply(w, a);
    var t := w'.gw.heap[g][k];
    EntriesFrame(w, a, g, k);
    HandlersFrame(w, a);
    if g < |w.gw.heap| && k in w.gw.heap[g] && w'.gw.heap[g][k] == w.gw.heap[g][k] {
      assert NotLeft(w, g, k) && EntryOk(w, g, k);
      if RemovesClient(a) && a.sid == t {
        RemovalIsExact(w, a, t);
      } else {
        LeftStays(w, a, t);
      }
    } else {
      EnabledHandler(w, a, t);
      RegisterShape(w, t);
      ApplyRegister(w, t);
    }
  }

  lemma ConnectedBefore(w: World, a: Action, s: nat)
    requires Enabled(w, a) && s < |w.handlers| && s < |Apply(w, a).handlers| && Connected(Apply(w, a).handlers[s])
    ensures Connected(w.handlers[s])
  {
    hide Apply;
    HandlerFields(w, a, s);
  }

  lemma StepKeepsDiffer(w: World, a: Action, s: nat, t: nat)
    requires KeysInv(w) && Enabled(w, a) && FreshKey(w, a) && s < |Apply(w, a).handlers| && t < |Apply(w, a).handlers|
    ensures Differ(Apply(w, a), s, t)
  {
    hide Apply;
    var w' := Apply(w, a);
    HandlersFrame(w, a);
    if s < |w.handlers| && t < |w.handlers| && s != t && w'.handlers[s].gen.Some? && w'.handlers[t].gen.Some?
       && Connected(w'.handlers[s]) && Connected(w'.handlers[t])
    {
      assert HandlerOk(w.handlers[s]) && HandlerOk(w.handlers[t]) && Differ(w, s, t) && Differ(w, t, s);
      ConnectedBefore(w, a, s);
      ConnectedBefore(w, a, t);
      StepKeepsIdentity(w, a, s);
      StepKeepsIdentity(w, a, t);
      if w.handlers[s].gen.None? && !(a.Register? && a.sid == s) {
        OnlyRegisterSetsGen(w, a, s);
      }
      if w.handlers[t].gen.None? && !(a.Register? && a.sid == t) {
        OnlyRegisterSetsGen(w, a, t);
      }
      if a.Register? {
        EnabledHandler(w, a, a.sid);
        RegisterShape(w, a.sid);
        ApplyRegister(w, a.sid);
      }
    }
  }

  // ---- The flow of messages ----

  /** What was put into a session's channel: the messages with its key that its poller relayed from its registration to
      its removal, or to the present. */
  lemma SentExactly(w: World, s: nat)
    requires KeysInv(w) && s < |w.handlers| && w.handlers[s].gen.Some?
    ensures var h := w.handlers[s];
            SentUpTo(w, s, if h.left.Some? then h.left.value else |LogOf(w, h.gen.value)|)
  {
    assert HandlerOk(w.handlers[s]) && RegisteredOk(w, s) && LeftOk(w, s) && SentInOrder(w, s);
  }

  lemma StepKeepsLeft(w: World, a: Action, s: nat)
    requires KeysInv(w) && Enabled(w, a) && s < |Apply(w, a).handlers|
    ensures LeftOk(Apply(w, a), s)
  {
    hide Apply;
    var w' := Apply(w, a);
    HandlersFrame(w, a);
    if s < |w.handlers| && w'.handlers[s].gen.Some? && w'.handlers[s].left.Some? {
      var h := w.handlers[s];
      assert HandlerOk(h);
      if a.Register? && a.sid == s {
        RegisterShape(w, s);
        ApplyRegister(w, s);
      } else if h.gen.None? {
        OnlyRegisterSetsGen(w, a, s);
      } else if h.left.Some? {
        LeftStays(w, a, s);
        LeftHasNoEntry(w, s);
        ContinuesSent(w, a, s, h.left.value);
      } else {
        LeavesNow(w, a, s);
      }
    }
  }

  lemma LeftHasNoEntry(w: World, s: nat)
    requires KeysInv(w) && s < |w.handlers| && w.handlers[s].gen.Some? && w.handlers[s].left.Some?
    ensures w.handlers[s].session.clientKey.Some? && !HasEntry(w, s)
    ensures SentUpTo(w, s, w.handlers[s].left.value)
  {
    assert HandlerOk(w.handlers[s]) && LeftOk(w, s);
    var g, k := w.handlers[s].gen.value, w.handlers[s].session.clientKey.value;
    assert g < |w.gw.heap| && k in w.gw.heap[g] ==> NotLeft(w, g, k);
  }

  lemma LeavesNow(w: World, a: Action, s: nat)
    requires KeysInv(w) && Enabled(w, a) && s < |w.handlers| && s < |Apply(w, a).handlers|
    requires w.handlers[s].gen.Some? && w.handlers[s].left.None? && Apply(w, a).handlers[s].left.Some?
    ensures SentUpTo(Apply(w, a), s, Apply(w, a).handlers[s].left.value)
  {
    hide Apply;
    assert RegisteredOk(w, s) && HandlerOk(w.handlers[s]) && GenIsOwnCanister(w, s);
    if !(RemovesClient(a) && a.sid == s) {
      LeftStays(w, a, s);
    } else {
      RemovalIsExact(w, a, s);
      SentExactly(w, s);
      var log := LogOf(w, w.handlers[s].gen.value);
      ContinuesSent(w, a, s, |log|);
      LogStep(w, a, w.handlers[s].gen.value);
      assert log + [] == log;
    }
  }

  lemma KeysKept(w: World, a: Action)
    requires KeysInv(w) && Enabled(w, a) && FreshKey(w, a)
    ensures KeysInv(Apply(w, a))
  {
    hide Apply;
    var w' := Apply(w, a);
    EntriesKept(w, a);
    forall s | 0 <= s < |w'.handlers|
      ensures RegisteredOk(w', s) && LeftOk(w', s)
    {
      StepKeepsRegistered(w, a, s);
      StepKeepsLeft(w, a, s);
    }
    forall g, k | 0 <= g < |w'.gw.heap| && k in w'.gw.heap[g]
      ensures NotLeft(w', g, k)
    {
      StepKeepsNotLeft(w, a, g, k);
    }
    forall s, t | 0 <= s < |w'.handlers| && 0 <= t < |w'.handlers|
      ensures Differ(w', s, t)
    {
      StepKeepsDiffer(w, a, s, t);
    }
  }

  /** Every world of a run with distinct keys satisfies the invariant. */
  lemma {:induction false} RunKeysInv(ws: seq<World>, actions: seq<Action>, i: nat)
    requires Run(ws, actions) && DistinctKeys(ws, actions) && i < |ws|
    ensures KeysInv(ws[i])
  {
    if i > 0 {
      RunKeysInv(ws, actions, i - 1);
      KeysKept(ws[i - 1], actions[i - 1]);
    }
  }
}
