/** Runs of the transition system in which the gateway does what its comments say it does not. Exactly when that
    happens is in other modules: for orphans in `Guarantees`, for panics in `Isolation`, for equal keys in `Keys`, and
    for nonces in `Polling` and `Delivery`. */
module Witnesses {
  import opened Basics
  import opened NonceKey
  import opened Gateway
  import opened ClientSession
  import opened Polling
  import opened World
  import opened Guarantees

  const CANISTER: CanisterId := 7

  function OpenFrom(client: Principal, encodes: bool): WsMessage {
    Binary(Some(Envelope(Call(CANISTER, client, Some(OpenArguments(0, 9))), encodes)))
  }

  function Hear(sid: nat, m: WsMessage): Action {
    Update(sid, FromClient(Ok(m), true))
  }

  lemma Then(ws: seq<World>, actions: seq<Action>, a: Action) returns (ws': seq<World>, actions': seq<Action>)
    requires Run(ws, actions) && Enabled(ws[|ws| - 1], a)
    ensures Run(ws', actions') && actions' == actions + [a] && ws' == ws + [Apply(ws[|ws| - 1], a)]
    ensures DistinctKeys(ws, actions) && FreshKey(ws[|ws| - 1], a) ==> DistinctKeys(ws', actions')
  {
    hide Apply, Enabled;
    ws', actions' := ws + [Apply(ws[|ws| - 1], a)], actions + [a];
  }

  /** The handler of a client that has sent its open message, at `pc`. */
  function Opening(client: Principal, encodes: bool, pc: Pc): Handler {
    NEW_HANDLER.(session := Session(Some(ClientKey(client, 0)), Some(CANISTER), Setup(OpenFrom(client, encodes))),
                 pc := pc)
  }

  function Joined(client: Principal, encodes: bool, pc: Pc, owed: Option<nat>, gen: nat): Handler {
    Opening(client, encodes, pc).(holdsSender := false, owed := owed, gen := Some(gen))
  }

  lemma AcceptIsFree(w: World)
    ensures Enabled(w, Accept) && FreshKey(w, Accept) && Apply(w, Accept) == w.(handlers := w.handlers + [NEW_HANDLER])
    ensures forall s, m :: FreshKey(w, Hear(s, m))
  {}

  /** A new session hears its open message. */
  lemma HearsOpen(w: World, s: nat, client: Principal, encodes: bool)
    requires s < |w.handlers| && w.handlers[s] == NEW_HANDLER
    ensures var m := OpenFrom(client, encodes);
            && Enabled(w, Hear(s, m))
            && Apply(w, Hear(s, m)) == w.(handlers := w.handlers[s := Opening(client, encodes, Registering(m))])
  {
    assert NEW_HANDLER.handed + [] == NEW_HANDLER.handed;
  }

  /** A first client opens its session and is registered. */
  lemma FirstClientRegisters(client: Principal, encodes: bool) returns (ws: seq<World>, actions: seq<Action>)
    ensures Run(ws, actions) && DistinctKeys(ws, actions)
    ensures |ws| == 4 && ws[3] == World(Gateway(map[CANISTER := 0], [map[ClientKey(client, 0) := 0]]),
                           [Joined(client, encodes, RelayingOpen(OpenFrom(client, encodes)), Some(0), 0)],
                           [],
                           [Generation(CANISTER, Owed(0))])
  {
    var m := OpenFrom(client, encodes);
    ws, actions := [START], [];
    ws, actions := Then(ws, actions, Accept);
    assert ws[1] == World(Initial(), [NEW_HANDLER], [], []);
    HearsOpen(ws[1], 0, client, encodes);
    ws, actions := Then(ws, actions, Hear(0, m));
    assert ws[2] == World(Initial(), [Opening(client, encodes, Registering(m))], [], []);
    ws, actions := Then(ws, actions, Register(0));
  }

  /** An open message that cannot be serialized again leaves its canister in the map without anybody to poll it. */
  lemma CanisterIsOrphaned() returns (ws: seq<World>, actions: seq<Action>)
    ensures Run(ws, actions) && DistinctKeys(ws, actions) && IsOrphan(ws[|ws| - 1], CANISTER)
  {
    ws, actions := FirstClientRegisters(1, false);
    ws, actions := Then(ws, actions, RelayOpen(0));
    assert ws[4] == ws[3].(handlers := [Joined(1, false, UndoingSetup, Some(0), 0)]);
    ws, actions := Then(ws, actions, UndoSetup(0));
  }

  /** A client that closes before its open message makes its handler panic. */
  lemma CloseInInitPanics() returns (ws: seq<World>, actions: seq<Action>)
    ensures Run(ws, actions) && DistinctKeys(ws, actions)
    ensures |ws[|ws| - 1].handlers| == 1 && ws[|ws| - 1].handlers[0].pc.Crashed?
  {
    ws, actions := [START], [];
    ws, actions := Then(ws, actions, Accept);
    assert ws[1] == World(Initial(), [NEW_HANDLER], [], []);
    ws, actions := Then(ws, actions, Hear(0, Close));
  }

  function OpenedBy(client: Principal, pc: Pc, owed: Option<nat>): Handler {
    Joined(client, true, pc, owed, 0).(relayedOpen := true, handed := HandsOverOpen(OpenFrom(client, true)))
  }

  /** The first client's poller is started. */
  lemma FirstPollerStarts() returns (ws: seq<World>, actions: seq<Action>)
    ensures Run(ws, actions) && DistinctKeys(ws, actions)
    ensures |ws| == 6 && ws[5] == World(Gateway(map[CANISTER := 0], [map[ClientKey(1, 0) := 0]]),
                                        [OpenedBy(1, Awaiting, None)],
                                        [PollerTask(CANISTER, 0, 0, Asking, [])],
                                        [Generation(CANISTER, Polled(0))])
  {
    ws, actions := FirstClientRegisters(1, true);
    ws, actions := Then(ws, actions, RelayOpen(0));
    assert NEW_HANDLER.handed + HandsOverOpen(OpenFrom(1, true)) == HandsOverOpen(OpenFrom(1, true));
    assert ws[4] == ws[3].(handlers := [OpenedBy(1, StartingPoller, Some(0))]);
    ws, actions := Then(ws, actions, StartPoller(0));
  }

  /** Its first poll fails. */
  lemma FirstPollerFails() returns (ws: seq<World>, actions: seq<Action>)
    ensures Run(ws, actions) && DistinctKeys(ws, actions)
    ensures |ws| == 8 && ws[7] == World(Gateway(map[], [map[ClientKey(1, 0) := 0]]),
                                        [OpenedBy(1, Awaiting, None)],
                                        [PollerTask(CANISTER, 0, 0, Stopped, [])],
                                        [Generation(CANISTER, FailedBy(0))])
  {
    ws, actions := FirstPollerStarts();
    ws, actions := FirstPollFails(ws, actions);
  }

  lemma FirstPollFails(ws: seq<World>, actions: seq<Action>) returns (ws': seq<World>, actions': seq<Action>)
    requires Run(ws, actions) && DistinctKeys(ws, actions)
    requires |ws| == 6 && ws[5] == World(Gateway(map[CANISTER := 0], [map[ClientKey(1, 0) := 0]]),
                                         [OpenedBy(1, Awaiting, None)],
                                         [PollerTask(CANISTER, 0, 0, Asking, [])],
                                         [Generation(CANISTER, Polled(0))])
    ensures Run(ws', actions') && DistinctKeys(ws', actions')
    ensures |ws'| == 8 && ws'[7] == World(Gateway(map[], [map[ClientKey(1, 0) := 0]]),
                                          [OpenedBy(1, Awaiting, None)],
                                          [PollerTask(CANISTER, 0, 0, Stopped, [])],
                                          [Generation(CANISTER, FailedBy(0))])
  {
    ws', actions' := Then(ws, actions, PollAnswered(0, CandidError));
    assert ws'[6] == ws[5].(pollers := [PollerTask(CANISTER, 0, 0, Removing, [])]);
    ws', actions' := Then(ws', actions', RemoveCanister(0));
    assert map[CANISTER := 0 as nat] - {CANISTER} == map[];
  }

  /** A second client then registers with the same canister. */
  lemma SecondClientRegisters(client: Principal) returns (ws: seq<World>, actions: seq<Action>)
    ensures Run(ws, actions) && (client != 1 ==> DistinctKeys(ws, actions))
    ensures |ws| == 11
            && ws[10] == World(Gateway(map[CANISTER := 1], [map[ClientKey(1, 0) := 0], map[ClientKey(client, 0) := 1]]),
                               [OpenedBy(1, Awaiting, None),
                                Joined(client, true, RelayingOpen(OpenFrom(client, true)), Some(1), 1)],
                               [PollerTask(CANISTER, 0, 0, Stopped, [])],
                               [Generation(CANISTER, FailedBy(0)), Generation(CANISTER, Owed(1))])
  {
    hide Enabled, FreshKey;
    var m := OpenFrom(client, true);
    ws, actions := FirstPollerFails();
    AcceptIsFree(ws[7]);
    ws, actions := Then(ws, actions, Accept);
    assert ws[8] == ws[7].(handlers := [OpenedBy(1, Awaiting, None), NEW_HANDLER]);
    AcceptIsFree(ws[8]);
    HearsOpen(ws[8], 1, client, true);
    ws, actions := Then(ws, actions, Hear(1, m));
    assert ws[9] == ws[7].(handlers := [OpenedBy(1, Awaiting, None), Opening(client, true, Registering(m))]);
    SecondIsAdded(ws[9], client);
    ws, actions := Then(ws, actions, Register(1));
  }

  lemma SecondIsAdded(w: World, client: Principal)
    requires w == World(Gateway(map[], [map[ClientKey(1, 0) := 0]]),
                        [OpenedBy(1, Awaiting, None), Opening(client, true, Registering(OpenFrom(client, true)))],
                        [PollerTask(CANISTER, 0, 0, Stopped, [])],
                        [Generation(CANISTER, FailedBy(0))])
    ensures Enabled(w, Register(1)) && (client != 1 ==> FreshKey(w, Register(1)))
    ensures Apply(w, Register(1)) ==
              World(Gateway(map[CANISTER := 1], [map[ClientKey(1, 0) := 0], map[ClientKey(client, 0) := 1]]),
                    [OpenedBy(1, Awaiting, None),
                        Joined(client, true, RelayingOpen(OpenFrom(client, true)), Some(1), 1)],
                    [PollerTask(CANISTER, 0, 0, Stopped, [])],
                    [Generation(CANISTER, FailedBy(0)), Generation(CANISTER, Owed(1))])
  {}

  /** The first client closes after the second has registered. */
  lemma FirstClientCloses(client: Principal) returns (ws: seq<World>, actions: seq<Action>)
    ensures Run(ws, actions) && (client != 1 ==> DistinctKeys(ws, actions))
    ensures |ws| == 12 && |ws[11].handlers| == 2 && ws[11].handlers[0].pc.Closing?
    ensures ws[11].handlers[0].session == Session(Some(ClientKey(1, 0)), Some(CANISTER), Closed)
    ensures ws[11].handlers[1] == Joined(client, true, RelayingOpen(OpenFrom(client, true)), Some(1), 1)
    ensures ws[11].gw == Gateway(map[CANISTER := 1], [map[ClientKey(1, 0) := 0], map[ClientKey(client, 0) := 1]])
    ensures Enabled(ws[11], RemoveClosed(0))
  {
    ws, actions := SecondClientRegisters(client);
    ws, actions := Then(ws, actions, Hear(0, Close));
  }

  lemma RemovalAfterClose(w: World)
    requires |w.handlers| == 2 && w.handlers[0].pc.Closing? && Enabled(w, RemoveClosed(0))
    requires w.handlers[0].session == Session(Some(ClientKey(1, 0)), Some(CANISTER), Closed)
    requires CANISTER in w.gw.data && w.gw.data[CANISTER] == 1 && |w.gw.heap| == 2
    ensures var w', k := Apply(w, RemoveClosed(0)), ClientKey(1, 0);
            && |w'.handlers| == 2 && w'.handlers[1] == w.handlers[1]
            && (k !in w.gw.heap[1] ==> w'.handlers[0].pc.Crashed?)
            && (k in w.gw.heap[1] ==>
                w'.gw.data == w.gw.data && |w'.gw.heap| == 2 && w'.gw.heap[1] == w.gw.heap[1] - {k})
  {}

  /** A session of a failed poller that sees its client close runs into the `unreachable!` of the removal when the
      canister has been registered again in the meantime. */
  lemma UnreachableIsReached() returns (ws: seq<World>, actions: seq<Action>)
    ensures Run(ws, actions) && DistinctKeys(ws, actions)
    ensures |ws| == 13 && actions[11] == RemoveClosed(0) && |ws[12].handlers| == 2 && ws[12].handlers[0].pc.Crashed?
  {
    hide Apply, Enabled;
    ws, actions := FirstClientCloses(2);
    RemovalAfterClose(ws[11]);
    ws, actions := Then(ws, actions, RemoveClosed(0));
  }

  /** With equal keys, the first session, ending late, takes the second session's entry: the second stays connected and
      its canister's entry no longer holds it. */
  lemma EqualKeysAreConfused() returns (ws: seq<World>, actions: seq<Action>)
    ensures Run(ws, actions) && |ws| == 13 && |ws[12].handlers| == 2
    ensures ws[12].handlers[1].gen == Some(1) && Connected(ws[12].handlers[1]) && ws[12].handlers[1].left.None?
    ensures ws[12].gw.data == map[CANISTER := 1] && |ws[12].gw.heap| == 2 && ws[12].gw.heap[1] == map[]
  {
    hide Apply, Enabled;
    ws, actions := FirstClientCloses(1);
    RemovalAfterClose(ws[11]);
    ws, actions := Then(ws, actions, RemoveClosed(0));
    assert map[ClientKey(1, 0) := 1 as nat] - {ClientKey(1, 0)} == map[];
  }

  /** After a message with the largest nonce the poller accepts any nonce: what it relays is then not consecutive. */
  lemma NonceWrapsAround(m: CanisterOutputMessage, n: CanisterOutputMessage)
    requires GetNonceFromMessage(m.key) == Some(U64_MAX) && GetNonceFromMessage(n.key).Some?
    ensures var r := PollAll(NEW_POLLER, [Output(CertifiedMessages([m, n], "", "", None))]);
            !r.failed && |r.relayed| == 2 && !Consecutive(r.relayed)
  {
    var output := CertifiedMessages([m, n], "", "", None);
    var ps := Packets(output);
    assert [Output(output)][..0] == [];
    assert ps[..1][..0] == [];
    assert UpdateNonce(0, ps[..1]) == Ok(0);
    assert UpdateNonce(0, ps).Ok?;
    PollAccepts(NEW_POLLER, output, ps);
    var r := PollAll(NEW_POLLER, [Output(output)]);
    assert r.relayed == ps && Nonce(r.relayed[1]).value <= U64_MAX;
    assert PollAll(NEW_POLLER, [Output(output)]) == Poll(NEW_POLLER, Output(output));
  }
}
