/** What is in the map under a canister and a key, and what the channel of whoever is there has carried, in every
    reachable world, whatever keys clients use. */
module Entries {
  import opened Basics
  import opened Gateway
  import opened ClientSession
  import opened Polling
  import opened World
  import opened Steps
  import opened Ownership
  import opened Sessions

  /** The session's entry is in the poller state it was added to. */
  ghost predicate HasEntry(w: World, s: nat)
    requires s < |w.handlers| && w.handlers[s].gen.Some? && w.handlers[s].session.clientKey.Some?
  {
    var g, k := w.handlers[s].gen.value, w.handlers[s].session.clientKey.value;
    g < |w.gw.heap| && k in w.gw.heap[g] && w.gw.heap[g][k] == s
  }

  /** The poller state is the one the map has for its canister. */
  ghost predicate IsCurrent(w: World, g: nat) {
    g < |w.gens| && InMap(w, g)
  }

  /** The session's own entry is in the poller state it was added to, current or not. */
  ghost predicate HasOwnEntry(w: World, s: nat)
    requires s < |w.handlers|
  {
    w.handlers[s].gen.Some? && w.handlers[s].session.clientKey.Some? && HasEntry(w, s)
  }

  /** The map has the session under its canister and key. */
  ghost predicate Listed(w: World, s: nat)
    requires s < |w.handlers|
  {
    HasOwnEntry(w, s) && IsCurrent(w, w.handlers[s].gen.value)
  }

  ghost predicate ListedIsConnected(w: World, s: nat)
    requires s < |w.handlers|
  {
    Listed(w, s) ==> Connected(w.handlers[s])
  }

  /** What was put into the channel of `s`: the messages with its key that its poller relayed since it joined and up to
      `end`, which is the present for as long as the session has its own entry. */
  ghost predicate SentUpTo(w: World, s: nat, end: nat)
    requires s < |w.handlers|
  {
    var h := w.handlers[s];
    h.gen.Some? && h.session.clientKey.Some? &&
    var log := LogOf(w, h.gen.value);
    && h.joined <= end <= |log| && h.sent == For(log[h.joined..end], h.session.clientKey.value)
    && (HasEntry(w, s) ==> end == |log|)
  }

  ghost predicate SentInOrder(w: World, s: nat)
    requires s < |w.handlers|
  {
    w.handlers[s].gen.Some? ==> exists end: nat :: SentUpTo(w, s, end)
  }

  ghost predicate EntriesInv(w: World) {
    && SessionsInv(w)
    && (forall s :: 0 <= s < |w.handlers| ==> ListedIsConnected(w, s))
    && (forall s :: 0 <= s < |w.handlers| ==> SentInOrder(w, s))
  }

  // ---- Poller states and logs ----

  /** Which poller states are current only changes when a new one is registered or one is taken out of the map. */
  lemma CurrentBefore(w: World, a: Action, g: nat)
    requires OwnershipInv(w) && Enabled(w, a) && IsCurrent(Apply(w, a), g)
    ensures IsCurrent(w, g) || (a.Register? && g == |w.gens| && |Apply(w, a).gens| == g + 1)
  {
    GatewayFrame(w, a);
    GensFrame(w, a);
  }

  /** What a step adds to the log of the poller of `g`. */
  ghost function Logged(w: World, a: Action, g: nat): seq<Packet> {
    if a.LookUpClient? && a.pid < |w.pollers| && w.pollers[a.pid].gen == g && w.pollers[a.pid].pc.Relaying?
       && w.pollers[a.pid].pc.rest != [] && g < |w.gw.heap| && w.pollers[a.pid].pc.rest[0].clientKey !in w.gw.heap[g]
    then [w.pollers[a.pid].pc.rest[0]]
    else if a.SendToClient? && a.pid < |w.pollers| && w.pollers[a.pid].gen == g && w.pollers[a.pid].pc.Sending?
    then [w.pollers[a.pid].pc.packet]
    else []
  }

  predicate IsPolledBy(role: Role, p: nat) {
    role == Polled(p) || role == Emptied(p) || role == FailedBy(p)
  }

  /** Roles only move forward: owed, polled, and then emptied or failed; or owed and then orphaned. */
  lemma RolesMove(w: World, a: Action, g: nat)
    requires OwnershipInv(w) && Enabled(w, a) && g < |w.gens|
    ensures g < |Apply(w, a).gens|
    ensures var r, r' := w.gens[g].role, Apply(w, a).gens[g].role;
            || r' == r
            || (r.Owed? && HandlerAction(a) && r'.Orphaned?)
            || (r.Owed? && a.StartPoller? && r' == Polled(|w.pollers|) && |Apply(w, a).pollers| > |w.pollers|)
            || (r.Polled? && RemovesCanister(a) && a.pid == r.pid && (r' == Emptied(r.pid) || r' == FailedBy(r.pid)))
  {
    if HandlerAction(a) {
      RolesOfHandlerStep(w, a, a.sid, g);
    } else if PollerAction(a) {
      RolesOfPollerStep(w, a, a.pid, g);
    }
  }

  lemma RolesOfPollerStep(w: World, a: Action, p: nat, g: nat)
    requires OwnershipInv(w) && Enabled(w, a) && g < |w.gens| && ByPoller(a, p)
    ensures g < |Apply(w, a).gens|
    ensures var r, r' := w.gens[g].role, Apply(w, a).gens[g].role;
            || r' == r
            || (r.Polled? && RemovesCanister(a) && p == r.pid && (r' == Emptied(p) || r' == FailedBy(p)))
  {
    if Active(w.pollers[p]) {
      ActivePollerIsInMap(w, p);
      assert PollerOwns(w, p);
    }
  }

  lemma RolesOfHandlerStep(w: World, a: Action, s: nat, g: nat)
    requires OwnershipInv(w) && Enabled(w, a) && g < |w.gens| && ByHandler(a, s)
    ensures g < |Apply(w, a).gens|
    ensures var r, r' := w.gens[g].role, Apply(w, a).gens[g].role;
            || r' == r
            || (r.Owed? && r'.Orphaned?)
            || (r.Owed? && a.StartPoller? && r' == Polled(|w.pollers|) && |Apply(w, a).pollers| > |w.pollers|)
  {
    assert HandlerOwes(w, s);
    if a.UndoSetup? || a.RemoveClosed? {
      RemoveClientShape(w, s);
    }
  }

  /** The log of a poller state grows by what its own poller puts through the relay loop, and by nothing else. */
  lemma LogStep(w: World, a: Action, g: nat)
    requires OwnershipInv(w) && Enabled(w, a) && g < |w.gens|
    ensures LogOf(Apply(w, a), g) == LogOf(w, g) + Logged(w, a, g)
  {
    hide Apply;
    assert GenOk(w, g);
    RolesMove(w, a, g);
    PollersFrame(w, a);
    if a.LookUpClient? || a.SendToClient? {
      assert a.pid < |w.pollers| && PollerOwns(w, a.pid) by { EnabledPoller(w, a, a.pid); }
      PollerLogStep(w, a, a.pid);
    } else if PollerAction(a) {
      EnabledPoller(w, a, a.pid);
      QuietPollerStep(w, a, a.pid);
    }
  }

  lemma EnabledPoller(w: World, a: Action, p: nat)
    requires Enabled(w, a) && ByPoller(a, p)
    ensures p < |w.pollers|
  {}

  lemma PollerLogStep(w: World, a: Action, p: nat)
    requires Enabled(w, a) && (a.LookUpClient? || a.SendToClient?) && a.pid == p
    requires w.pollers[p].gen < |w.gw.heap|
    ensures Apply(w, a).pollers[p].log == w.pollers[p].log + Logged(w, a, w.pollers[p].gen)
  {}

  lemma QuietPollerStep(w: World, a: Action, p: nat)
    requires Enabled(w, a) && ByPoller(a, p) && !a.LookUpClient? && !a.SendToClient?
    ensures Apply(w, a).pollers[p].log == w.pollers[p].log
  {}

  lemma EnabledHandler(w: World, a: Action, s: nat)
    requires Enabled(w, a) && ByHandler(a, s)
    ensures s < |w.handlers|
  {}

  /** What registering does to the handler. */
  lemma RegisterShape(w: World, s: nat)
    requires SessionsInv(w) && Enabled(w, Register(s))
    ensures var h, w' := w.handlers[s], RegisterStep(w, s);
            && h.session.clientKey.Some? && h.session.canisterId.Some? && h.sent == [] && h.left.None? && h.gen.None?
            && |w'.handlers| == |w.handlers|
            && w'.handlers[s].gen.Some? && w'.handlers[s].pc.RelayingOpen? && w'.handlers[s].left.None?
            && w'.handlers[s].session == h.session && w'.handlers[s].sent == []
            && w'.handlers[s].joined == |LogOf(w, w'.handlers[s].gen.value)|
            && HasEntry(w', s)
            && (w'.handlers[s].gen.value < |w.gens| || w'.handlers[s].gen.value == |w.gens|)
            && |w'.gens| > w'.handlers[s].gen.value
            && (w'.handlers[s].gen.value == |w.gens| ==> w'.gens[|w.gens|].role == Owed(s))
  {
    var h := w.handlers[s];
    assert HandlerOk(h);
    assert CanisterOk(w, h.session.canisterId.value);
  }

  // ---- Who is under a canister and a key ----

  /** The step is that of a session with this canister and key. */
  ghost predicate ConcernsKey(w: World, a: Action, c: CanisterId, k: ClientKey) {
    HandlerAction(a) && a.sid < |w.handlers|
    && w.handlers[a.sid].session.canisterId == Some(c) && w.handlers[a.sid].session.clientKey == Some(k)
  }

  ghost predicate Registers(w: World, a: Action, c: CanisterId, k: ClientKey) {
    a.Register? && ConcernsKey(w, a, c, k)
  }

  /** The step takes whoever is under the canister and key out of the map. */
  ghost predicate TakesOut(w: World, a: Action, c: CanisterId, k: ClientKey) {
    || (RemovesClient(a) && ConcernsKey(w, a, c, k))
    || (a.RemoveCanister? && a.pid < |w.pollers| && w.pollers[a.pid].canister == c)
  }

  lemma FindStep(w: World, a: Action, c: CanisterId, k: ClientKey)
    requires SessionsInv(w) && Enabled(w, a)
    ensures Find(Apply(w, a).gw, c, k) ==
            if Registers(w, a, c, k) then Some(a.sid)
            else if TakesOut(w, a, c, k) then None
            else Find(w.gw, c, k)
  {
    MapIsUnshared(w);
    if a.Register? {
      assert HandlerOk(w.handlers[a.sid]);
      InsertIsFound(w.gw, w.handlers[a.sid].session.canisterId.value, w.handlers[a.sid].session.clientKey.value,
                    a.sid, c, k);
    } else if RemovesClient(a) {
      RemovalIsFound(w, a, c, k);
    } else {
      hide Apply;
      CanisterStepFinds(w, a, c, k);
    }
  }

  lemma InsertIsFound(gw: SharedState, c: CanisterId, k: ClientKey, s: nat, d: CanisterId, l: ClientKey)
    requires Unshared(gw)
    ensures Find(Insert(gw, c, k, s).0, d, l) == if (d, l) == (c, k) then Some(s) else Find(gw, d, l)
  {}

  lemma RemovedIsNotFound(gw: SharedState, c: CanisterId, k: ClientKey, d: CanisterId, l: ClientKey)
    requires Unshared(gw)
    ensures Find(RemoveClientIfExists(gw, c, k).0, d, l) == if (d, l) == (c, k) then None else Find(gw, d, l)
    ensures RemoveClient(gw, c, k).0 == RemoveClientIfExists(gw, c, k).0
  {}

  lemma RemovalIsFound(w: World, a: Action, c: CanisterId, k: ClientKey)
    requires SessionsInv(w) && Enabled(w, a) && RemovesClient(a) && Unshared(w.gw)
    ensures Find(Apply(w, a).gw, c, k) == if ConcernsKey(w, a, c, k) then None else Find(w.gw, c, k)
  {
    hide Find;
    assert HandlerOk(w.handlers[a.sid]);
    RemovedIsNotFound(w.gw, w.handlers[a.sid].session.canisterId.value, w.handlers[a.sid].session.clientKey.value,
                      c, k);
  }

  lemma CanisterStepFinds(w: World, a: Action, c: CanisterId, k: ClientKey)
    requires SessionsInv(w) && Enabled(w, a) && !a.Register? && !RemovesClient(a)
    ensures Find(Apply(w, a).gw, c, k) == if TakesOut(w, a, c, k) then None else Find(w.gw, c, k)
  {
    hide SessionsInv;
    if a.CheckClients? {
      EmptyCanisterFinds(w, a.pid, c, k);
    } else if a.RemoveCanister? {
      FailedCanisterFinds(w, a.pid, c, k);
    } else {
      hide Apply;
      GatewayFrame(w, a);
    }
  }

  lemma EmptyCanisterFinds(w: World, p: nat, c: CanisterId, k: ClientKey)
    requires p < |w.pollers|
    ensures Find(CheckClientsStep(w, p).gw, c, k) == Find(w.gw, c, k)
  {}

  lemma FailedCanisterFinds(w: World, p: nat, c: CanisterId, k: ClientKey)
    requires p < |w.pollers|
    ensures Find(RemoveCanisterStep(w, p).gw, c, k) == if w.pollers[p].canister == c then None else Find(w.gw, c, k)
  {}

  // ---- The invariant is kept ----

  /** An entry of a session is there since it registered. */
  lemma OwnEntryBefore(w: World, a: Action, s: nat)
    requires SessionsInv(w) && Enabled(w, a) && s < |w.handlers| && !(a.Register? && a.sid == s)
    requires s < |Apply(w, a).handlers| && HasOwnEntry(Apply(w, a), s)
    ensures HasOwnEntry(w, s)
    ensures w.handlers[s].gen == Apply(w, a).handlers[s].gen
    ensures w.handlers[s].session.clientKey == Apply(w, a).handlers[s].session.clientKey
  {
    hide Apply;
    assert HandlerOk(w.handlers[s]);
    if w.handlers[s].gen.None? {
      OnlyRegisterSetsGen(w, a, s);
    }
    StepKeepsIdentity(w, a, s);
    var h' := Apply(w, a).handlers[s];
    EntriesFrame(w, a, h'.gen.value, h'.session.clientKey.value);
  }

  /** A session that takes itself out is not in the map afterwards. */
  lemma RemovedIsNotListed(w: World, a: Action, s: nat)
    requires SessionsInv(w) && Enabled(w, a) && SessionsInv(Apply(w, a)) && RemovesClient(a) && a.sid == s
    requires s < |w.handlers| && s < |Apply(w, a).handlers|
    ensures !Listed(Apply(w, a), s)
  {
    hide Apply;
    var w', h := Apply(w, a), w.handlers[s];
    assert HandlerOk(h);
    StepKeepsIdentity(w, a, s);
    FindStep(w, a, h.session.canisterId.value, h.session.clientKey.value);
    assert GenIsOwnCanister(w', s);
  }

  lemma StepKeepsListed(w: World, a: Action, s: nat)
    requires EntriesInv(w) && Enabled(w, a) && SessionsInv(Apply(w, a)) && s < |Apply(w, a).handlers|
    ensures ListedIsConnected(Apply(w, a), s)
  {
    hide Apply;
    var w' := Apply(w, a);
    HandlersFrame(w, a);
    if s < |w.handlers| && Listed(w', s) {
      if a.Register? && a.sid == s {
        RegisterShape(w, s);
        ApplyRegister(w, s);
      } else {
        OwnEntryBefore(w, a, s);
        CurrentBefore(w, a, w.handlers[s].gen.value);
        assert GenIsOwnCanister(w, s) && ListedIsConnected(w, s);
        if RemovesClient(a) && a.sid == s {
          RemovedIsNotListed(w, a, s);
        } else {
          StaysConnected(w, a, s);
        }
      }
    }
  }

  /** A session whose entry is in its canister's current poller state is not ended by the update of its state. */
  lemma UpdateStaysConnected(w: World, s: nat, e: Event)
    requires SessionsInv(w) && Enabled(w, Update(s, e)) && Listed(w, s) && Connected(w.handlers[s])
    ensures Connected(UpdateStep(w, s, e).handlers[s])
  {
    var h := w.handlers[s];
    assert HandlerOk(h);
    assert Held(w, h.gen.value);
    assert ChannelOpen(w, s);
  }

  lemma StaysConnected(w: World, a: Action, s: nat)
    requires SessionsInv(w) && Enabled(w, a) && s < |w.handlers| && Listed(w, s) && Connected(w.handlers[s])
    requires !(RemovesClient(a) && a.sid == s)
    ensures s < |Apply(w, a).handlers| && Connected(Apply(w, a).handlers[s])
  {
    assert HandlerOk(w.handlers[s]);
    HandlersFrame(w, a);
    if a.Update? && a.sid == s {
      UpdateStaysConnected(w, s, a.event);
    }
  }

  // ---- The flow of messages ----

  /** A session whose entry is in the poller state is sent a message of its poller's log exactly when its key is on
      it. */
  lemma LoggedIsSent(w: World, a: Action, s: nat)
    requires EntriesInv(w) && Enabled(w, a) && s < |w.handlers| && s < |Apply(w, a).handlers| && HasOwnEntry(w, s)
    ensures Apply(w, a).handlers[s].sent ==
            w.handlers[s].sent + For(Logged(w, a, w.handlers[s].gen.value), w.handlers[s].session.clientKey.value)
  {
    if a.SendToClient? {
      SendIsLogged(w, a, s);
    } else {
      hide Apply;
      SentStays(w, a, s);
      if Logged(w, a, w.handlers[s].gen.value) != [] {
        ForOne(w.pollers[a.pid].pc.rest[0], w.handlers[s].session.clientKey.value);
      }
    }
  }

  lemma SendIsLogged(w: World, a: Action, s: nat)
    requires EntriesInv(w) && Enabled(w, a) && a.SendToClient? && s < |w.handlers| && s < |Apply(w, a).handlers|
    requires HasOwnEntry(w, s)
    ensures Apply(w, a).handlers[s].sent ==
            w.handlers[s].sent + For(Logged(w, a, w.handlers[s].gen.value), w.handlers[s].session.clientKey.value)
  {
    hide Apply;
    var p := w.pollers[a.pid];
    ReceiverIsConnected(w, a.pid);
    assert GuardOk(w, a.pid) && EntryOk(w, p.gen, p.pc.packet.clientKey);
    ForOne(p.pc.packet, w.handlers[s].session.clientKey.value);
    SendSends(w, a.pid);
    if !SendsTo(w, a, s) {
      SentStays(w, a, s);
    }
  }

  /** The guard keeps a client from ending its session while it is sent to. */
  lemma ReceiverIsConnected(w: World, pid: nat)
    requires EntriesInv(w) && pid < |w.pollers| && w.pollers[pid].pc.Sending?
    ensures w.pollers[pid].pc.sid < |w.handlers| && Connected(w.handlers[w.pollers[pid].pc.sid])
  {
    SentToIsRegistered(w, pid);
    ActivePollerIsInMap(w, pid);
    var t := w.pollers[pid];
    assert PollerOwns(w, pid) && GuardOk(w, pid) && EntryOk(w, t.gen, t.pc.packet.clientKey);
    assert ListedIsConnected(w, t.pc.sid);
  }

  lemma SendSends(w: World, pid: nat)
    requires Enabled(w, SendToClient(pid)) && Alive(w.handlers[w.pollers[pid].pc.sid])
    ensures var sid := w.pollers[pid].pc.sid;
            Apply(w, SendToClient(pid)).handlers[sid].sent == w.handlers[sid].sent + [w.pollers[pid].pc.packet.message]
  {}

  lemma ForOne(p: Packet, k: ClientKey)
    ensures For([p], k) == if p.clientKey == k then [p.message] else []
  {
    assert [p][..0] == [];
  }

  lemma SentStays(w: World, a: Action, s: nat)
    requires Enabled(w, a) && s < |w.handlers| && s < |Apply(w, a).handlers| && !SendsTo(w, a, s)
    ensures Apply(w, a).handlers[s].sent == w.handlers[s].sent
            && (w.handlers[s].gen.Some? ==> a.Register? || Apply(w, a).handlers[s].joined == w.handlers[s].joined)
  {
    hide Apply;
    HandlerFields(w, a, s);
  }

  lemma JoinedStays(w: World, a: Action, s: nat)
    requires Enabled(w, a) && s < |w.handlers| && s < |Apply(w, a).handlers| && !(a.Register? && a.sid == s)
    ensures Apply(w, a).handlers[s].joined == w.handlers[s].joined
  {
    hide Apply;
    HandlerFields(w, a, s);
  }

  lemma RegisterSendsNothing(w: World, s: nat)
    requires SessionsInv(w) && Enabled(w, Register(s))
    ensures s < |RegisterStep(w, s).handlers| && RegisterStep(w, s).handlers[s].gen.Some?
    ensures var w' := RegisterStep(w, s); SentUpTo(w', s, |LogOf(w', w'.handlers[s].gen.value)|)
  {
    var w' := RegisterStep(w, s);
    RegisterShape(w, s);
    ApplyRegister(w, s);
    var g := w'.handlers[s].gen.value;
    if g < |w.gens| {
      LogStep(w, Register(s), g);
    }
    var log := LogOf(w', g);
    assert log[|log|..|log|] == [];
  }

  lemma WindowExtends(log: seq<Packet>, more: seq<Packet>, joined: nat, k: ClientKey)
    requires joined <= |log|
    ensures For((log + more)[joined..|log + more|], k) == For(log[joined..|log|], k) + For(more, k)
  {
    ForConcat(log[joined..], more, k);
    assert (log + more)[joined..|log + more|] == log[joined..] + more;
    assert log[joined..|log|] == log[joined..];
  }

  /** Only a session that has its own entry is sent to. */
  lemma SentToHasEntry(w: World, a: Action, s: nat)
    requires SessionsInv(w) && SendsTo(w, a, s)
    ensures s < |w.handlers| && HasOwnEntry(w, s)
  {
    SentToIsRegistered(w, a.pid);
    var t := w.pollers[a.pid];
    assert GuardOk(w, a.pid) && EntryOk(w, t.gen, t.pc.packet.clientKey);
  }

  lemma StepKeepsSent(w: World, a: Action, s: nat)
    requires EntriesInv(w) && Enabled(w, a) && s < |Apply(w, a).handlers|
    ensures SentInOrder(Apply(w, a), s)
  {
    hide Apply;
    HandlersFrame(w, a);
    if s < |w.handlers| {
      if a.Register? && a.sid == s {
        RegisterSendsNothing(w, s);
        ApplyRegister(w, s);
      } else if w.handlers[s].gen.None? {
        OnlyRegisterSetsGen(w, a, s);
      } else {
        assert SentInOrder(w, s);
        var end: nat :| SentUpTo(w, s, end);
        ContinuesSent(w, a, s, end);
      }
    }
  }

  lemma ContinuesSent(w: World, a: Action, s: nat, end: nat)
    requires EntriesInv(w) && Enabled(w, a) && s < |w.handlers| && !(a.Register? && a.sid == s) && SentUpTo(w, s, end)
    ensures s < |Apply(w, a).handlers|
    ensures HasEntry(w, s) ==> SentUpTo(Apply(w, a), s, |LogOf(Apply(w, a), w.handlers[s].gen.value)|)
    ensures !HasEntry(w, s) ==> SentUpTo(Apply(w, a), s, end)
  {
    hide Apply, LogOf, Logged, For;
    var w', h := Apply(w, a), w.handlers[s];
    HandlersFrame(w, a);
    assert HandlerOk(h) && GenIsOwnCanister(w, s);
    StepKeepsIdentity(w, a, s);
    JoinedStays(w, a, s);
    LogStep(w, a, h.gen.value);
    var log, more := LogOf(w, h.gen.value), Logged(w, a, h.gen.value);
    if HasEntry(w, s) {
      LoggedIsSent(w, a, s);
      WindowExtends(log, more, h.joined, h.session.clientKey.value);
    } else {
      if SendsTo(w, a, s) {
        SentToHasEntry(w, a, s);
      }
      SentStays(w, a, s);
      if HasEntry(w', s) {
        OwnEntryBefore(w, a, s);
      }
      assert (log + more)[h.joined..end] == log[h.joined..end];
    }
  }

  lemma EntriesKept(w: World, a: Action)
    requires EntriesInv(w) && Enabled(w, a)
    ensures EntriesInv(Apply(w, a))
  {
    hide Apply;
    SessionsKept(w, a);
    forall s | 0 <= s < |Apply(w, a).handlers|
      ensures ListedIsConnected(Apply(w, a), s) && SentInOrder(Apply(w, a), s)
    {
      StepKeepsListed(w, a, s);
      StepKeepsSent(w, a, s);
    }
  }

  /** Every world of every run satisfies the invariant. */
  lemma {:induction false} RunEntriesInv(ws: seq<World>, actions: seq<Action>, i: nat)
    requires Run(ws, actions) && i < |ws|
    ensures EntriesInv(ws[i])
  {
    hide Apply;
    if i > 0 {
      RunEntriesInv(ws, actions, i - 1);
      EntriesKept(ws[i - 1], actions[i - 1]);
    }
  }
}
