/** What clients get to read, in every run in which clients connected to a canister at the same time have different
    keys. */
module Delivery {
  import opened Basics
  import opened Gateway
  import opened Polling
  import opened World
  import opened Steps
  import opened Ownership
  import opened Sessions
  import opened Entries
  import opened Registration
  import opened Isolation

  /** The part of its poller's log that concerns a session: from its registration to its removal. */
  ghost function Window(w: World, s: nat): seq<Packet>
    requires s < |w.handlers| && w.handlers[s].gen.Some?
  {
    var h := w.handlers[s];
    var log := LogOf(w, h.gen.value);
    var end := if h.left.Some? then h.left.value else |log|;
    if h.joined <= end <= |log| then log[h.joined..end] else []
  }

  // ---- Order ----

  /** In every run, whatever keys clients use, the messages written to a client's WebSocket are a prefix of those with
      its key that its poller relayed from its registration up to some point: no message is missing in between, none is
      repeated and none is out of order. That point is the present as long as the session has its own entry. While the
      session waits for events, the messages written are exactly those received so far, and those still in the channel
      are the ones that follow. */
  lemma WrittenInOrderAlways(ws: seq<World>, actions: seq<Action>, i: nat, s: nat) returns (end: nat)
    requires Run(ws, actions) && i < |ws| && s < |ws[i].handlers| && ws[i].handlers[s].gen.Some?
    ensures var h := ws[i].handlers[s];
            var log := LogOf(ws[i], h.gen.value);
            && h.session.clientKey.Some? && h.joined <= end <= |log| && h.taken <= |h.sent|
            && h.sent == For(log[h.joined..end], h.session.clientKey.value)
            && h.written <= For(log[h.joined..end], h.session.clientKey.value)
            && (h.pc.Awaiting? ==>
                  h.written + h.sent[h.taken..] == For(log[h.joined..end], h.session.clientKey.value))
            && (HasOwnEntry(ws[i], s) ==> end == |log|)
  {
    hide Apply;
    RunEntriesInv(ws, actions, i);
    var h := ws[i].handlers[s];
    assert HandlerOk(h) && SentInOrder(ws[i], s);
    end :| SentUpTo(ws[i], s, end);
    assert h.sent[..h.taken] + h.sent[h.taken..] == h.sent;
  }

  /** When clients connected at the same time have different keys, that point is the session's removal, or the present:
      the messages are those of its window. */
  lemma WrittenInOrder(ws: seq<World>, actions: seq<Action>, i: nat, s: nat)
    requires Run(ws, actions) && DistinctKeys(ws, actions) && i < |ws| && s < |ws[i].handlers|
    requires ws[i].handlers[s].gen.Some?
    ensures var h := ws[i].handlers[s];
            && h.session.clientKey.Some? && h.taken <= |h.sent|
            && h.sent == For(Window(ws[i], s), h.session.clientKey.value)
            && h.written <= For(Window(ws[i], s), h.session.clientKey.value)
            && (h.pc.Awaiting? ==>
                  h.written + h.sent[h.taken..] == For(Window(ws[i], s), h.session.clientKey.value))
  {
    hide Apply;
    RunKeysInv(ws, actions, i);
    SentExactly(ws[i], s);
    var end := WrittenInOrderAlways(ws, actions, i, s);
  }

  /** A session that never registered has been sent nothing. */
  lemma NothingBeforeRegistration(ws: seq<World>, actions: seq<Action>, i: nat, s: nat)
    requires Run(ws, actions) && i < |ws| && s < |ws[i].handlers| && ws[i].handlers[s].gen.None?
    ensures ws[i].handlers[s].sent == [] && ws[i].handlers[s].written == []
  {
    hide Apply;
    RunInv(ws, actions, i);
    assert HandlerOk(ws[i].handlers[s]);
  }

  /** In Init a session hears of its client only: no canister message can reach it and its channel cannot close. */
  lemma InitHearsOnlyItsClient(ws: seq<World>, actions: seq<Action>, i: nat)
    requires Run(ws, actions) && i < |actions| && actions[i].Update?
    requires ws[i].handlers[actions[i].sid].session.state.Init?
    ensures actions[i].event.FromClient? && ws[i].handlers[actions[i].sid].holdsSender
  {
    hide Apply;
    RunInv(ws, actions, i);
    assert HandlerOk(ws[i].handlers[actions[i].sid]);
    OnlyClientEventsInInit(ws[i], actions[i].sid, actions[i].event);
  }

  /** The log of a poller has consecutive nonces exactly when none but the last is the largest 64-bit number. */
  lemma LogIsConsecutive(ws: seq<World>, actions: seq<Action>, i: nat, p: nat)
    requires Run(ws, actions) && i < |ws| && p < |ws[i].pollers|
    ensures Consecutive(ws[i].pollers[p].log) <==> NoWrap(ws[i].pollers[p].log)
  {
    hide Apply;
    RunInv(ws, actions, i);
    var t := ws[i].pollers[p];
    assert PollerOk(t);
    UpdateNonceConcat(0, t.log, Pending(t));
    AcceptedIffConsecutive(0, t.log);
  }

  /** As long as nonces do not wrap around, the nonces a client reads are strictly increasing. */
  lemma WrittenNoncesIncrease(ws: seq<World>, actions: seq<Action>, i: nat, s: nat)
    requires Run(ws, actions) && i < |ws| && s < |ws[i].handlers|
    requires ws[i].handlers[s].gen.Some? && NoWrap(LogOf(ws[i], ws[i].handlers[s].gen.value))
    ensures Increasing(ws[i].handlers[s].written)
  {
    hide Apply;
    var end := WrittenInOrderAlways(ws, actions, i, s);
    var w, h := ws[i], ws[i].handlers[s];
    var log := LogOf(w, h.gen.value);
    if log != [] {
      PolledLog(w, h.gen.value);
      LogIsConsecutive(ws, actions, i, PollerOfGen(w, h.gen.value));
    }
    SliceConsecutive(log, h.joined, end);
    ForIncreasing(log[h.joined..end], h.session.clientKey.value);
    PrefixIncreasing(h.written, For(log[h.joined..end], h.session.clientKey.value));
  }

  ghost function PollerOfGen(w: World, g: nat): nat {
    if g >= |w.gens| then 0
    else match w.gens[g].role
      case Polled(p) => p
      case Emptied(p) => p
      case FailedBy(p) => p
      case _ => 0
  }

  lemma PolledLog(w: World, g: nat)
    requires LogOf(w, g) != []
    ensures PollerOfGen(w, g) < |w.pollers| && LogOf(w, g) == w.pollers[PollerOfGen(w, g)].log
  {}

  lemma PrefixIncreasing(ms: seq<CanisterToClientMessage>, ns: seq<CanisterToClientMessage>)
    requires ms <= ns && Increasing(ns)
    ensures Increasing(ms)
  {
    assert forall i :: 0 <= i < |ms| ==> ms[i] == ns[i];
  }

  // ---- No reply is missed ----

  /** Some session with this canister and key has had its open message handed over for the canister. */
  ghost predicate Opened(w: World, c: CanisterId, k: ClientKey) {
    exists s :: 0 <= s < |w.handlers| && w.handlers[s].relayedOpen
                && w.handlers[s].session.canisterId == Some(c) && w.handlers[s].session.clientKey == Some(k)
  }

  /** The canister `c` addresses the client `k` only if it can have received its open message. Nothing is asked of other
      canisters, or of other clients of this one. */
  ghost predicate RepliesOnly(w: World, a: Action, c: CanisterId, k: ClientKey) {
    a.PollAnswered? && a.answer.Output? && a.pid < |w.pollers| && w.pollers[a.pid].canister == c ==>
      forall m :: m in a.answer.output.messages && m.clientKey == k ==> Opened(w, c, k)
  }

  /** The poller has a message left to relay to `k`. */
  ghost predicate HasPendingFor(t: PollerTask, k: ClientKey) {
    exists x :: 0 <= x < |Pending(t)| && Pending(t)[x].clientKey == k
  }

  ghost predicate PendingOpened(w: World, p: nat, k: ClientKey)
    requires p < |w.pollers|
  {
    HasPendingFor(w.pollers[p], k) ==> Opened(w, w.pollers[p].canister, k)
  }

  lemma OpenedStays(w: World, a: Action, c: CanisterId, k: ClientKey)
    requires SessionsInv(w) && Enabled(w, a) && Opened(w, c, k)
    ensures Opened(Apply(w, a), c, k)
  {
    hide Apply;
    var s :| 0 <= s < |w.handlers| && w.handlers[s].relayedOpen
             && w.handlers[s].session.canisterId == Some(c) && w.handlers[s].session.clientKey == Some(k);
    assert HandlerOk(w.handlers[s]);
    StepKeepsIdentity(w, a, s);
    RelayedOpenStays(w, a, s);
  }

  lemma RelayedOpenStays(w: World, a: Action, s: nat)
    requires Enabled(w, a) && s < |w.handlers| && w.handlers[s].relayedOpen
    ensures s < |Apply(w, a).handlers| && Apply(w, a).handlers[s].relayedOpen
  {
    hide Apply;
    HandlerFields(w, a, s);
  }

  lemma StepKeepsPendingOpened(w: World, a: Action, p: nat, c: CanisterId, k: ClientKey)
    requires SessionsInv(w) && Enabled(w, a) && RepliesOnly(w, a, c, k)
    requires p < |Apply(w, a).pollers| && Apply(w, a).pollers[p].canister == c
    requires p < |w.pollers| && w.pollers[p].canister == c ==> PendingOpened(w, p, k)
    ensures PendingOpened(Apply(w, a), p, k)
  {
    hide Apply;
    PollersFrame(w, a);
    if p < |w.pollers| && HasPendingFor(Apply(w, a).pollers[p], k) {
      PollerFrame(w, a, p);
      PendingComesFrom(w, a, p, k);
      OpenedStays(w, a, c, k);
    }
  }

  lemma PendingComesFrom(w: World, a: Action, p: nat, k: ClientKey)
    requires Enabled(w, a) && p < |w.pollers| && RepliesOnly(w, a, w.pollers[p].canister, k) && PendingOpened(w, p, k)
    requires p < |Apply(w, a).pollers| && HasPendingFor(Apply(w, a).pollers[p], k)
    ensures Opened(w, w.pollers[p].canister, k)
  {
    PollersFrame(w, a);
    var t, t' := w.pollers[p], Apply(w, a).pollers[p];
    var x :| 0 <= x < |Pending(t')| && Pending(t')[x].clientKey == k;
    if ByPoller(a, p) {
      if a.PollAnswered? {
        AnswerPending(t, a.answer);
        assert a.answer.output.messages[x] in a.answer.output.messages;
      } else {
        assert Pending(t') == Pending(t) || Pending(t') == Pending(t)[1..] || Pending(t') == [];
        if Pending(t') == Pending(t)[1..] && Pending(t) != [] {
          assert Pending(t')[x] == Pending(t)[x + 1];
        }
      }
    }
  }

  lemma AnswerPending(t: PollerTask, answer: Answer)
    ensures var t' := PollAnsweredStep(t, answer);
            Pending(t') == [] || (answer.Output? && Pending(t') == Packets(answer.output))
  {}

  lemma {:induction false} RunPendingOpened(ws: seq<World>, actions: seq<Action>, i: nat, p: nat, k: ClientKey)
    requires Run(ws, actions) && i < |ws| && p < |ws[i].pollers|
    requires forall j :: 0 <= j < i ==> RepliesOnly(ws[j], actions[j], ws[i].pollers[p].canister, k)
    ensures PendingOpened(ws[i], p, k)
  {
    hide Apply;
    if i > 0 {
      RunInv(ws, actions, i - 1);
      PollersFrame(ws[i - 1], actions[i - 1]);
      if p < |ws[i - 1].pollers| {
        PollerFrame(ws[i - 1], actions[i - 1], p);
        RunPendingOpened(ws, actions, i - 1, p, k);
      }
      StepKeepsPendingOpened(ws[i - 1], actions[i - 1], p, ws[i].pollers[p].canister, k);
    }
  }

  /** The session of `s` with this canister and key has had its open message handed over, and has since taken itself
      out or lost its poller. */
  ghost predicate Departed(w: World, s: nat, c: CanisterId, k: ClientKey)
    requires s < |w.handlers|
  {
    var h := w.handlers[s];
    && h.relayedOpen && h.gen.Some? && h.session.canisterId == Some(c) && h.session.clientKey == Some(k)
    && (h.left.Some? || PollerFailed(w, h.gen.value))
  }

  /** The relay loop is about to drop the next message, because no client of its key is there. */
  ghost predicate Ignores(w: World, a: Action) {
    a.LookUpClient? && a.pid < |w.pollers| && w.pollers[a.pid].pc.Relaying? && w.pollers[a.pid].pc.rest != []
    && w.pollers[a.pid].gen < |w.gw.heap|
    && w.pollers[a.pid].pc.rest[0].clientKey !in w.gw.heap[w.pollers[a.pid].gen]
  }

  /** A polled message is ignored only when its client is gone: every session that has registered with its canister and
      key either has taken itself out already or belongs to a poller state whose poller has failed. This needs no
      assumption on what canisters send. If moreover this canister addresses this client only after it can have
      received its open message, there is such a session: the reply is not too early, it is too late. */
  lemma NoMissedReply(ws: seq<World>, actions: seq<Action>, i: nat)
    requires Run(ws, actions) && DistinctKeys(ws, actions) && i < |actions|
    requires Ignores(ws[i], actions[i])
    ensures var w, p := ws[i], ws[i].pollers[actions[i].pid];
            forall s :: 0 <= s < |w.handlers| && w.handlers[s].gen.Some?
                        && w.handlers[s].session.canisterId == Some(p.canister)
                        && w.handlers[s].session.clientKey == Some(p.pc.rest[0].clientKey)
                        ==> w.handlers[s].left.Some? || PollerFailed(w, w.handlers[s].gen.value)
    ensures var c, k := ws[i].pollers[actions[i].pid].canister, ws[i].pollers[actions[i].pid].pc.rest[0].clientKey;
            (forall j :: 0 <= j < i ==> RepliesOnly(ws[j], actions[j], c, k)) ==>
              exists s :: 0 <= s < |ws[i].handlers| && Departed(ws[i], s, c, k)
  {
    hide Apply;
    var w, pid := ws[i], actions[i].pid;
    var p := w.pollers[pid];
    var c, k := p.canister, p.pc.rest[0].clientKey;
    RunKeysInv(ws, actions, i);
    forall s | 0 <= s < |w.handlers| && w.handlers[s].gen.Some? && w.handlers[s].left.None?
               && w.handlers[s].session.canisterId == Some(c) && w.handlers[s].session.clientKey == Some(k)
      ensures PollerFailed(w, w.handlers[s].gen.value)
    {
      assert RegisteredOk(w, s) && GenIsOwnCanister(w, s) && GenOk(w, w.handlers[s].gen.value);
      ActivePollerIsInMap(w, pid);
    }
    if forall j :: 0 <= j < i ==> RepliesOnly(ws[j], actions[j], c, k) {
      RunPendingOpened(ws, actions, i, pid, k);
      assert Pending(p)[0].clientKey == k;
      var s :| 0 <= s < |w.handlers| && w.handlers[s].relayedOpen
               && w.handlers[s].session.canisterId == Some(c) && w.handlers[s].session.clientKey == Some(k);
      assert HandlerOk(w.handlers[s]);
      assert Departed(w, s, c, k);
    }
  }

  // ---- Sends ----

  /** A send never finds its session over: the guard keeps the client from taking itself out while it is sent to. */
  lemma SendFindsSession(ws: seq<World>, actions: seq<Action>, i: nat)
    requires Run(ws, actions) && i < |actions| && actions[i].SendToClient?
    ensures var s := ws[i].pollers[actions[i].pid].pc.sid;
            Connected(ws[i].handlers[s]) && ws[i + 1].handlers[s].sent ==
              ws[i].handlers[s].sent + [ws[i].pollers[actions[i].pid].pc.packet.message]
  {
    RunEntriesInv(ws, actions, i);
    ReceiverIsConnected(ws[i], actions[i].pid);
  }

  /** A channel never holds more than 100 messages. */
  lemma {:induction false} ChannelIsBounded(ws: seq<World>, actions: seq<Action>, i: nat, s: nat)
    requires Run(ws, actions) && i < |ws| && s < |ws[i].handlers|
    ensures |ws[i].handlers[s].sent| - ws[i].handlers[s].taken <= 100
  {
    hide Apply;
    if i > 0 {
      var w, a := ws[i - 1], actions[i - 1];
      HandlersFrame(w, a);
      if s < |w.handlers| {
        ChannelIsBounded(ws, actions, i - 1, s);
        BufferStep(w, a, s);
      }
    }
  }

  /** A send waits exactly as long as the channel holds that many. */
  lemma SendsWhileRoom(ws: seq<World>, actions: seq<Action>, i: nat, p: nat)
    requires Run(ws, actions) && i < |ws| && p < |ws[i].pollers| && ws[i].pollers[p].pc.Sending?
    ensures ws[i].pollers[p].pc.sid < |ws[i].handlers|
    ensures var h := ws[i].handlers[ws[i].pollers[p].pc.sid];
            Enabled(ws[i], SendToClient(p)) <==> |h.sent| - h.taken < 100
  {
    hide Apply;
    RunEntriesInv(ws, actions, i);
    ReceiverIsConnected(ws[i], p);
  }

  lemma BufferStep(w: World, a: Action, s: nat)
    requires Enabled(w, a) && s < |w.handlers|
    ensures s < |Apply(w, a).handlers|
    ensures var h, h' := w.handlers[s], Apply(w, a).handlers[s];
            |h'.sent| - h'.taken <= |h.sent| - h.taken || |h'.sent| - h'.taken <= 100
  {
    HandlersFrame(w, a);
    if RemovesClient(a) && a.sid == s {
      RemovalKeepsBuffer(w, a, s);
    }
  }

  lemma RemovalKeepsBuffer(w: World, a: Action, s: nat)
    requires Enabled(w, a) && RemovesClient(a) && a.sid == s
    ensures s < |Apply(w, a).handlers|
    ensures Apply(w, a).handlers[s].sent == w.handlers[s].sent && Apply(w, a).handlers[s].taken == w.handlers[s].taken
  {}

  // ---- Registering and closing ----

  lemma {:induction false} IdentityIsKept(ws: seq<World>, actions: seq<Action>, i: nat, j: nat, s: nat)
    requires Run(ws, actions) && i <= j < |ws| && s < |ws[i].handlers|
    ensures s < |ws[j].handlers|
    ensures var h, h' := ws[i].handlers[s], ws[j].handlers[s];
            && (h.gen.Some? ==> h'.gen == h.gen)
            && (h.session.clientKey.Some? ==>
                  h'.session.clientKey == h.session.clientKey && h'.session.canisterId == h.session.canisterId)
    decreases j
  {
    hide Apply;
    if i < j {
      IdentityIsKept(ws, actions, i, j - 1, s);
      RunInv(ws, actions, j - 1);
      assert HandlerOk(ws[j - 1].handlers[s]);
      StepKeepsIdentity(ws[j - 1], actions[j - 1], s);
    }
  }

  /** A session registers at most once in a run, with its channel's sender in hand, so that the sender goes into one
      poller state only. */
  lemma RegistersOnce(ws: seq<World>, actions: seq<Action>, i: nat, j: nat)
    requires Run(ws, actions) && i <= j < |actions|
    requires actions[i].Register? && actions[j].Register? && actions[i].sid == actions[j].sid
    ensures i == j
    ensures ws[i].handlers[actions[i].sid].holdsSender && ws[i + 1].handlers[actions[i].sid].gen.Some?
  {
    hide Apply;
    var s := actions[i].sid;
    RunInv(ws, actions, i);
    RunInv(ws, actions, j);
    EnabledHandler(ws[i], actions[i], s);
    EnabledHandler(ws[j], actions[j], s);
    assert HandlerOk(ws[i].handlers[s]) && HandlerOk(ws[j].handlers[s]);
    RegistersWithSender(ws[i], s);
    ApplyRegister(ws[i], s);
    if i < j {
      IdentityIsKept(ws, actions, i + 1, j, s);
    }
  }

  lemma RegistersWithSender(w: World, s: nat)
    requires Enabled(w, Register(s)) && HandlerOk(w.handlers[s])
    ensures w.handlers[s].holdsSender && w.handlers[s].gen.None? && RegisterStep(w, s).handlers[s].gen.Some?
  {}

  /** `ws_close` is called at most once for a session, only after it has registered, and only when no entry for it is
      left under any canister. */
  lemma CloseDiscipline(ws: seq<World>, actions: seq<Action>, i: nat)
    requires Run(ws, actions) && i < |actions| && actions[i].CallWsClose?
    ensures var w, s := ws[i], actions[i].sid;
            && w.handlers[s].wsCloses == 0 && ws[i + 1].handlers[s].wsCloses == 1
            && w.handlers[s].gen.Some?
            && forall c, k :: Find(w.gw, c, k) != Some(s)
    ensures forall j, s :: i < j < |ws| && 0 <= s < |ws[j].handlers| ==> ws[j].handlers[s].wsCloses <= 1
  {
    var w, s := ws[i], actions[i].sid;
    RunEntriesInv(ws, actions, i);
    assert HandlerOk(w.handlers[s]) && ListedIsConnected(w, s);
    forall c, k | Find(w.gw, c, k).Some?
      ensures Find(w.gw, c, k) != Some(s)
    {
      assert CanisterOk(w, c) && EntryOk(w, w.gw.data[c], k);
    }
    forall j, t | i < j < |ws| && 0 <= t < |ws[j].handlers|
      ensures ws[j].handlers[t].wsCloses <= 1
    {
      RunInv(ws, actions, j);
      assert HandlerOk(ws[j].handlers[t]);
    }
  }

  // ---- Poller states that were emptied ----

  /** Once its poller has found a poller state empty and has taken it out of the map, no client is ever in it again. */
  lemma {:induction false} EmptiedForever(ws: seq<World>, actions: seq<Action>, i: nat, j: nat, g: nat)
    requires Run(ws, actions) && i <= j < |ws| && g < |ws[i].gens| && ws[i].gens[g].role.Emptied?
    ensures g < |ws[j].gens| && ws[j].gens[g].role == ws[i].gens[g].role
    ensures g < |ws[j].gw.heap| && ws[j].gw.heap[g].Keys == {} && !IsCurrent(ws[j], g)
    decreases j
  {
    hide Apply;
    if i < j {
      EmptiedForever(ws, actions, i, j - 1, g);
      RunInv(ws, actions, j - 1);
      RolesMove(ws[j - 1], actions[j - 1], g);
    }
    RunInv(ws, actions, j);
    assert GenOk(ws[j], g);
  }
}
