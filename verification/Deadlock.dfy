/** The guard that a poller holds on a client's entry while it sends to the client
    (src/ic-websocket-gateway/src/canister_poller.rs:227-244): when it keeps the client's session from ever ending. */
module Deadlock {
  import opened Basics
  import opened NonceKey
  import opened Gateway
  import opened ClientSession
  import opened Polling
  import opened World
  import opened Steps
  import opened Ownership
  import opened Sessions
  import opened Entries
  import opened Registration
  import opened Witnesses

  /** The handler wants to take its client out of the gateway state. */
  predicate WantsRemoval(h: Handler) {
    h.pc.Closing? || h.pc.Failing? || h.pc.UndoingSetup?
  }

  ghost predicate SendingTo(w: World, s: nat, p: nat) {
    p < |w.pollers| && w.pollers[p].pc.Sending? && w.pollers[p].pc.sid == s
  }

  predicate Full(h: Handler) { |h.sent| >= h.taken + CHANNEL_CAPACITY }

  /** The handler waits for the guard, and the poller that holds it waits for the handler to receive. */
  ghost predicate Deadlocked(w: World, s: nat, p: nat) {
    s < |w.handlers| && WantsRemoval(w.handlers[s]) && SendingTo(w, s, p) && Full(w.handlers[s])
  }

  /** The guard of a poller that sends to `s` is on the entry of `s`, and it is the only one. */
  lemma GuardIsOnOwnEntry(w: World, s: nat, p: nat)
    requires SessionsInv(w) && s < |w.handlers| && SendingTo(w, s, p)
    ensures !EntryFree(w, s)
    ensures forall q: nat :: SendingTo(w, s, q) ==> q == p
  {
    assert GuardOk(w, p) && PollerOwns(w, p);
    ActivePollerIsInMap(w, p);
    assert EntryOk(w, w.pollers[p].gen, w.pollers[p].pc.packet.clientKey) && GenIsOwnCanister(w, s);
    forall q: nat | SendingTo(w, s, q)
      ensures q == p
    {
      assert GuardOk(w, q) && PollerOwns(w, q);
      assert EntryOk(w, w.pollers[q].gen, w.pollers[q].pc.packet.clientKey);
    }
  }

  lemma NeitherMoves(w: World, a: Action, s: nat, p: nat)
    requires SessionsInv(w) && Enabled(w, a) && Deadlocked(w, s, p)
    ensures !ByHandler(a, s) && !ByPoller(a, p)
  {
    GuardIsOnOwnEntry(w, s, p);
  }

  lemma SendsAreByPoller(w: World, a: Action, s: nat, p: nat)
    requires SessionsInv(w) && s < |w.handlers| && SendingTo(w, s, p)
    ensures SendsTo(w, a, s) ==> ByPoller(a, p)
  {
    GuardIsOnOwnEntry(w, s, p);
    if SendsTo(w, a, s) {
      assert SendingTo(w, s, a.pid);
    }
  }

  /** Whatever anybody does, neither the handler nor the poller can ever go on. */
  lemma DeadlockStays(w: World, a: Action, s: nat, p: nat)
    requires SessionsInv(w) && Enabled(w, a) && Deadlocked(w, s, p)
    ensures s < |Apply(w, a).handlers| && Apply(w, a).handlers[s] == w.handlers[s]
    ensures p < |Apply(w, a).pollers| && Apply(w, a).pollers[p] == w.pollers[p]
  {
    hide Apply, Enabled;
    NeitherMoves(w, a, s, p);
    SendsAreByPoller(w, a, s, p);
    HandlersFrame(w, a);
    PollersFrame(w, a);
  }

  lemma {:induction false} DeadlockedForever(ws: seq<World>, actions: seq<Action>, i: nat, j: nat, s: nat, p: nat)
    requires Run(ws, actions) && i <= j < |ws| && Deadlocked(ws[i], s, p)
    ensures Deadlocked(ws[j], s, p) && ws[j].handlers[s] == ws[i].handlers[s] && ws[j].pollers[p] == ws[i].pollers[p]
    decreases j
  {
    hide Apply;
    if i < j {
      DeadlockedForever(ws, actions, i, j - 1, s, p);
      RunInv(ws, actions, j - 1);
      DeadlockStays(ws[j - 1], actions[j - 1], s, p);
    }
  }

  /** The run of `ws'` goes on from the world `ws[i]`, and is at `j`. */
  ghost predicate Continues(ws: seq<World>, i: nat, ws': seq<World>, actions': seq<Action>, j: nat) {
    i < |ws| && i <= j < |ws'| && Run(ws', actions') && ws'[..i + 1] == ws[..i + 1]
  }

  /** However the run goes on, the handler of `s` stays where it is. */
  ghost predicate Stuck(ws: seq<World>, i: nat, s: nat) {
    forall ws': seq<World>, actions': seq<Action>, j: nat :: Continues(ws, i, ws', actions', j) ==>
      s < |ws'[i].handlers| && s < |ws'[j].handlers| && ws'[j].handlers[s].pc == ws'[i].handlers[s].pc
  }

  /** A handler that wants to take its client out never gets to it, however the run goes on, if and only if it and a
      poller are deadlocked: the poller holds the guard on its entry and the channel is full. */
  lemma DeadlockedExactly(ws: seq<World>, actions: seq<Action>, i: nat, s: nat)
    requires Run(ws, actions) && DistinctKeys(ws, actions) && i < |ws| && s < |ws[i].handlers|
    requires WantsRemoval(ws[i].handlers[s])
    ensures Stuck(ws, i, s) <==> exists p: nat :: Deadlocked(ws[i], s, p)
  {
    hide Apply, Enabled, Run, Deadlocked;
    if exists p: nat :: Deadlocked(ws[i], s, p) {
      var p: nat :| Deadlocked(ws[i], s, p);
      forall ws': seq<World>, actions': seq<Action>, j: nat | Continues(ws, i, ws', actions', j)
        ensures s < |ws'[i].handlers| && s < |ws'[j].handlers| && ws'[j].handlers[s].pc == ws'[i].handlers[s].pc
      {
        assert ws'[i] == ws'[..i + 1][i] == ws[..i + 1][i] == ws[i];
        DeadlockedForever(ws', actions', i, j, s, p);
        DeadlockedExists(ws'[j], s, p);
      }
    } else {
      var ws', actions', j := GetsToIt(ws, actions, i, s);
      assert ws'[i] == ws'[..i + 1][i] == ws[..i + 1][i] == ws[i];
    }
  }

  lemma DeadlockedExists(w: World, s: nat, p: nat)
    requires Deadlocked(w, s, p)
    ensures s < |w.handlers|
  {}

  /** The step by which the handler takes its client out. */
  function RemovalOf(h: Handler, s: nat): Action {
    if h.pc.Closing? then RemoveClosed(s) else if h.pc.Failing? then RemoveFailed(s) else UndoSetup(s)
  }

  lemma RemovalMoves(w: World, s: nat)
    requires s < |w.handlers| && WantsRemoval(w.handlers[s]) && EntryFree(w, s)
    ensures var a := RemovalOf(w.handlers[s], s);
            Enabled(w, a) && s < |Apply(w, a).handlers| && !WantsRemoval(Apply(w, a).handlers[s])
  {}

  /** A handler that is not deadlocked can take its client out, at once or after one send. */
  lemma GetsToIt(ws: seq<World>, actions: seq<Action>, i: nat, s: nat)
    returns (ws': seq<World>, actions': seq<Action>, j: nat)
    requires Run(ws, actions) && DistinctKeys(ws, actions) && i < |ws| && s < |ws[i].handlers|
    requires WantsRemoval(ws[i].handlers[s]) && !exists p: nat :: Deadlocked(ws[i], s, p)
    ensures Continues(ws, i, ws', actions', j) && s < |ws'[j].handlers| && !WantsRemoval(ws'[j].handlers[s])
  {
    hide Apply, Enabled, EntryFree, KeysInv, SessionsInv, Run, WantsRemoval, DistinctKeys, Continues;
    ws', actions', j := StaysSoFar(ws, actions, i);
    if !EntryFree(ws[i], s) {
      RunKeysInv(ws, actions, i);
      var p := SendsOn(ws[i], s);
      ws', actions', j := GoesOn(ws, i, ws', actions', j, SendToClient(p));
    }
    var w := ws'[j];
    RemovalMoves(w, s);
    ws', actions', j := GoesOn(ws, i, ws', actions', j, RemovalOf(w.handlers[s], s));
  }

  lemma StaysSoFar(ws: seq<World>, actions: seq<Action>, i: nat)
    returns (ws': seq<World>, actions': seq<Action>, j: nat)
    requires Run(ws, actions) && i < |ws|
    ensures Continues(ws, i, ws', actions', j) && j == |ws'| - 1 && ws'[j] == ws[i]
  {
    hide Apply, Enabled;
    ws', actions', j := ws[..i + 1], actions[..i], i;
  }

  lemma GoesOn(ws: seq<World>, i: nat, before: seq<World>, actions: seq<Action>, j: nat, a: Action)
    returns (ws': seq<World>, actions': seq<Action>, j': nat)
    requires Continues(ws, i, before, actions, j) && j == |before| - 1 && Enabled(before[j], a)
    ensures Continues(ws, i, ws', actions', j') && j' == |ws'| - 1 && ws'[j'] == Apply(before[j], a)
  {
    hide Apply, Enabled, Run;
    ws', actions' := Then(before, actions, a);
    j' := j + 1;
    assert ws'[..i + 1] == before[..i + 1];
  }

  lemma SendsOn(w: World, s: nat) returns (p: nat)
    requires KeysInv(w) && s < |w.handlers| && WantsRemoval(w.handlers[s]) && !EntryFree(w, s)
    requires !exists p: nat :: Deadlocked(w, s, p)
    ensures Enabled(w, SendToClient(p))
    ensures var w' := Apply(w, SendToClient(p));
            s < |w'.handlers| && EntryFree(w', s) && WantsRemoval(w'.handlers[s])
  {
    hide Apply, Enabled, EntryFree;
    p := WaitsForOnePoller(w, s);
    assert !Deadlocked(w, s, p);
    SendFreesEntry(w, s, p);
  }

  lemma WaitsForOnePoller(w: World, s: nat) returns (p: nat)
    requires KeysInv(w) && s < |w.handlers| && WantsRemoval(w.handlers[s]) && !EntryFree(w, s)
    ensures SendingTo(w, s, p)
    ensures Enabled(w, SendToClient(p)) <==> !Full(w.handlers[s])
  {
    hide KeysInv;
    var c, k := w.handlers[s].session.canisterId.value, w.handlers[s].session.clientKey.value;
    p :| 0 <= p < |w.pollers| && w.pollers[p].gen == w.gw.data[c] && w.pollers[p].pc.Sending?
         && w.pollers[p].pc.packet.clientKey == k;
    GuardIsForOwner(w, s, p);
  }

  lemma GuardIsForOwner(w: World, s: nat, p: nat)
    requires KeysInv(w) && s < |w.handlers| && p < |w.pollers| && WantsRemoval(w.handlers[s])
             && w.pollers[p].pc.Sending?
    requires w.handlers[s].session.canisterId.Some? && w.handlers[s].session.canisterId.value in w.gw.data
    requires w.pollers[p].gen == w.gw.data[w.handlers[s].session.canisterId.value]
    requires w.handlers[s].session.clientKey == Some(w.pollers[p].pc.packet.clientKey)
    ensures w.pollers[p].pc.sid == s
  {
    assert HandlerOk(w.handlers[s]) && GuardOk(w, p);
    FindsOwnEntry(w, s);
  }

  lemma SendFreesEntry(w: World, s: nat, p: nat)
    requires SessionsInv(w) && Enabled(w, SendToClient(p)) && s < |w.handlers| && SendingTo(w, s, p)
    requires WantsRemoval(w.handlers[s])
    ensures var w' := Apply(w, SendToClient(p));
            s < |w'.handlers| && EntryFree(w', s) && WantsRemoval(w'.handlers[s])
  {
    hide Apply;
    var w' := Apply(w, SendToClient(p));
    SendShape(w, p);
    assert GuardOk(w, p) && PollerOwns(w, p) && EntryOk(w, w.pollers[p].gen, w.pollers[p].pc.packet.clientKey);
    assert GenIsOwnCanister(w, s);
    ActivePollerIsInMap(w, p);
    forall q | 0 <= q < |w'.pollers|
      ensures w'.pollers[q].gen == w.pollers[p].gen ==> !w'.pollers[q].pc.Sending?
    {
      assert PollerOwns(w, q);
    }
  }

  lemma SendShape(w: World, p: nat)
    requires Enabled(w, SendToClient(p))
    ensures var w', s := Apply(w, SendToClient(p)), w.pollers[p].pc.sid;
            && w'.gw == w.gw && |w'.handlers| == |w.handlers| && |w'.pollers| == |w.pollers|
            && w'.handlers[s].session == w.handlers[s].session && w'.handlers[s].pc == w.handlers[s].pc
            && w'.pollers[p].pc.Relaying?
            && forall q :: 0 <= q < |w.pollers| ==>
                w'.pollers[q].gen == w.pollers[q].gen && (q != p ==> w'.pollers[q] == w.pollers[q])
  {}

  // ---- Nothing else ever blocks ----

  /** A step that the handler can take unless it has to wait for the guard on its entry. */
  ghost function NextOfHandler(h: Handler, s: nat): Action {
    match h.pc
    case Awaiting => Update(s, FromClient(Ok(Close), true))
    case Registering(_) => Register(s)
    case RelayingOpen(_) => RelayOpen(s)
    case StartingPoller => StartPoller(s)
    case CallingWsClose => CallWsClose(s)
    case _ => RemovalOf(h, s)
  }

  /** A handler that is not over can take a step, if and only if it does not have to wait for the guard on its entry to
      put its client into the gateway state or to take it out. */
  lemma HandlerBlocksExactly(w: World, s: nat)
    requires s < |w.handlers| && Alive(w.handlers[s])
    ensures (exists a :: ByHandler(a, s) && Enabled(w, a)) <==>
              EntryFree(w, s) || !(WantsRemoval(w.handlers[s]) || w.handlers[s].pc.Registering?)
  {
    var a := NextOfHandler(w.handlers[s], s);
    assert EntryFree(w, s) || !(WantsRemoval(w.handlers[s]) || w.handlers[s].pc.Registering?) ==>
             ByHandler(a, s) && Enabled(w, a);
  }

  ghost function NextOfPoller(t: PollerTask, p: nat): Action {
    match t.pc
    case Asking => PollAnswered(p, TimeoutElapsed)
    case Relaying(_) => LookUpClient(p)
    case Sending(_, _, _) => SendToClient(p)
    case Checking => CheckClients(p)
    case Removing => RemoveCanister(p)
    case _ => DropPoller(p)
  }

  /** A poller whose task is not over can take a step, if and only if it is not sending into a full channel. */
  lemma PollerBlocksExactly(ws: seq<World>, actions: seq<Action>, i: nat, p: nat)
    requires Run(ws, actions) && i < |ws| && p < |ws[i].pollers| && !ws[i].pollers[p].pc.Gone?
    ensures ws[i].pollers[p].pc.Sending? ==> ws[i].pollers[p].pc.sid < |ws[i].handlers|
    ensures (exists a :: ByPoller(a, p) && Enabled(ws[i], a)) <==>
              !(ws[i].pollers[p].pc.Sending? && Full(ws[i].handlers[ws[i].pollers[p].pc.sid]))
  {
    hide Apply, Enabled;
    RunEntriesInv(ws, actions, i);
    PollerIsNotCrashed(ws[i], p);
    PollerBlocks(ws[i], p);
  }

  lemma PollerIsNotCrashed(w: World, p: nat)
    requires EntriesInv(w) && p < |w.pollers|
    ensures !w.pollers[p].pc.PollerCrashed?
    ensures w.pollers[p].pc.Sending? ==>
              w.pollers[p].pc.sid < |w.handlers| && Alive(w.handlers[w.pollers[p].pc.sid])
  {
    assert PollerOwns(w, p);
    if w.pollers[p].pc.Sending? {
      ReceiverIsConnected(w, p);
    }
  }

  lemma PollerBlocks(w: World, p: nat)
    requires p < |w.pollers| && !w.pollers[p].pc.Gone? && !w.pollers[p].pc.PollerCrashed?
    requires w.pollers[p].pc.Sending? ==>
               w.pollers[p].pc.sid < |w.handlers| && Alive(w.handlers[w.pollers[p].pc.sid])
    ensures (exists a :: ByPoller(a, p) && Enabled(w, a)) <==>
              !(w.pollers[p].pc.Sending? && Full(w.handlers[w.pollers[p].pc.sid]))
  {
    var t := w.pollers[p];
    var a := NextOfPoller(t, p);
    assert !(t.pc.Sending? && Full(w.handlers[t.pc.sid])) ==> ByPoller(a, p) && Enabled(w, a);
  }

  // ---- A run into the deadlock ----

  const CLIENT := ClientKey(1, 0)

  function Message(i: u64): CanisterOutputMessage { CanisterOutputMessage(CLIENT, "" + "_" + Decimal(i), "") }

  /** One message more than the channel holds. */
  function Batch(): CertifiedMessages {
    CertifiedMessages(seq(CHANNEL_CAPACITY + 1, i requires 0 <= i <= CHANNEL_CAPACITY => Message(i)), "", "", None)
  }

  lemma BatchIsAccepted()
    ensures UpdateNonce(0, Packets(Batch())).Ok?
  {
    var ps := Packets(Batch());
    forall i | 0 <= i < |ps|
      ensures Nonce(ps[i]) == Some(i)
    {
      NonceRoundTrip("", i);
    }
    ConsecutiveIsAccepted(0, ps);
  }

  function Sent(ps: seq<Packet>): seq<CanisterToClientMessage> {
    seq(|ps|, i requires 0 <= i < |ps| => ps[i].message)
  }

  /** The world in which the poller is at `pc`, having relayed `done`. */
  function Relayed(done: seq<Packet>, next: u64, pc: PollerPc, at: Pc, state: SessionState): World {
    World(Gateway(map[CANISTER := 0], [map[CLIENT := 0]]),
          [OpenedBy(1, at, None).(session := Session(Some(CLIENT), Some(CANISTER), state), sent := Sent(done))],
          [PollerTask(CANISTER, 0, next, pc, done)],
          [Generation(CANISTER, Polled(0))])
  }

  lemma LookUpFinds(done: seq<Packet>, p: Packet, rest: seq<Packet>, next: u64, at: Pc, state: SessionState)
    requires p.clientKey == CLIENT
    ensures Enabled(Relayed(done, next, Relaying([p] + rest), at, state), LookUpClient(0))
    ensures Apply(Relayed(done, next, Relaying([p] + rest), at, state), LookUpClient(0))
            == Relayed(done, next, Sending(p, 0, rest), at, state)
  {
    assert ([p] + rest)[1..] == rest;
  }

  lemma SendFits(done: seq<Packet>, p: Packet, rest: seq<Packet>, next: u64, state: SessionState)
    requires |done| < CHANNEL_CAPACITY
    ensures Enabled(Relayed(done, next, Sending(p, 0, rest), Awaiting, state), SendToClient(0))
    ensures Apply(Relayed(done, next, Sending(p, 0, rest), Awaiting, state), SendToClient(0))
            == Relayed(done + [p], next, Relaying(rest), Awaiting, state)
  {
    assert Sent(done + [p]) == Sent(done) + [p.message];
  }

  ghost predicate EndsIn(ws: seq<World>, actions: seq<Action>, w: World) {
    |ws| > 0 && Run(ws, actions) && DistinctKeys(ws, actions) && ws[|ws| - 1] == w
  }

  lemma Goes(ws: seq<World>, actions: seq<Action>, w: World, a: Action) returns (ws': seq<World>, actions': seq<Action>)
    requires EndsIn(ws, actions, w) && Enabled(w, a) && !a.Register?
    ensures EndsIn(ws', actions', Apply(w, a))
  {
    hide Apply, Enabled;
    ws', actions' := Then(ws, actions, a);
  }

  /** A poller with `k` more messages to relay, and room for them, relays them. */
  lemma {:induction false} RelaysOn(ws: seq<World>, actions: seq<Action>, ps: seq<Packet>, k: nat, n: nat, next: u64,
                                    state: SessionState)
    returns (ws': seq<World>, actions': seq<Action>)
    requires k <= n <= |ps| && n <= CHANNEL_CAPACITY && forall i :: 0 <= i < |ps| ==> ps[i].clientKey == CLIENT
    requires EndsIn(ws, actions, Relayed(ps[..k], next, Relaying(ps[k..]), Awaiting, state))
    ensures EndsIn(ws', actions', Relayed(ps[..n], next, Relaying(ps[n..]), Awaiting, state))
    decreases n - k
  {
    hide Apply, Enabled, Relayed, EndsIn;
    ws', actions' := ws, actions;
    if k < n {
      assert ps[k..] == [ps[k]] + ps[k + 1..] && ps[..k + 1] == ps[..k] + [ps[k]];
      LookUpFinds(ps[..k], ps[k], ps[k + 1..], next, Awaiting, state);
      ws', actions' := Goes(ws', actions', Relayed(ps[..k], next, Relaying(ps[k..]), Awaiting, state), LookUpClient(0));
      SendFits(ps[..k], ps[k], ps[k + 1..], next, state);
      ws', actions' :=
          Goes(ws', actions', Relayed(ps[..k], next, Sending(ps[k], 0, ps[k + 1..]), Awaiting, state),
              SendToClient(0));
      ws', actions' := RelaysOn(ws', actions', ps, k + 1, n, next, state);
    }
  }

  /** A run in which a client that closes while its canister has sent it more messages than its channel holds is stuck
      in the gateway, together with the canister's poller. */
  lemma DeadlockIsReached() returns (ws: seq<World>, actions: seq<Action>)
    ensures Run(ws, actions) && DistinctKeys(ws, actions) && Deadlocked(ws[|ws| - 1], 0, 0)
    ensures ws[|ws| - 1].handlers[0].taken == 0 && |ws[|ws| - 1].handlers[0].sent| == 100
  {
    hide Apply, Enabled, DistinctKeys;
    var ps, n, m := Packets(Batch()), CHANNEL_CAPACITY, OpenFrom(1, true);
    var next := PollsBatch();
    ws, actions := FirstPollerStarts();
    StartedWorld();
    ws, actions := Goes(ws, actions, Relayed([], 0, Asking, Awaiting, Setup(m)), PollAnswered(0, Output(Batch())));
    assert ps[..0] == [] && ps[0..] == ps;
    ws, actions := RelaysOn(ws, actions, ps, 0, n, next, Setup(m));
    assert ps[n..] == [ps[n]] + ps[n + 1..];
    LookUpFinds(ps[..n], ps[n], ps[n + 1..], next, Awaiting, Setup(m));
    ws, actions := Goes(ws, actions, Relayed(ps[..n], next, Relaying(ps[n..]), Awaiting, Setup(m)), LookUpClient(0));
    ClosesWhileSending(ps[..n], ps[n], ps[n + 1..], next, Setup(m));
    ws, actions :=
        Goes(ws, actions, Relayed(ps[..n], next, Sending(ps[n], 0, ps[n + 1..]), Awaiting, Setup(m)), Hear(0, Close));
  }

  lemma StartedWorld()
    ensures World(Gateway(map[CANISTER := 0], [map[ClientKey(1, 0) := 0]]), [OpenedBy(1, Awaiting, None)],
                  [PollerTask(CANISTER, 0, 0, Asking, [])], [Generation(CANISTER, Polled(0))])
            == Relayed([], 0, Asking, Awaiting, Setup(OpenFrom(1, true)))
  {
    assert Sent([]) == [];
  }

  lemma PollsBatch() returns (next: u64)
    ensures var w := Relayed([], 0, Asking, Awaiting, Setup(OpenFrom(1, true)));
            var a := PollAnswered(0, Output(Batch()));
            Enabled(w, a)
                && Apply(w, a) == Relayed([], next, Relaying(Packets(Batch())), Awaiting, Setup(OpenFrom(1, true)))
  {
    BatchIsAccepted();
    next := UpdateNonce(0, Packets(Batch())).value;
  }

  lemma ClosesWhileSending(done: seq<Packet>, p: Packet, rest: seq<Packet>, next: u64, state: SessionState)
    requires !state.Closed?
    ensures var w := Relayed(done, next, Sending(p, 0, rest), Awaiting, state);
            && Enabled(w, Hear(0, Close))
            && Apply(w, Hear(0, Close)) == Relayed(done, next, Sending(p, 0, rest), Closing, Closed)
  {
    var handed := HandsOverOpen(OpenFrom(1, true));
    assert handed + [] == handed;
  }
}
