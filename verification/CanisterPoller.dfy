/** The poller as the object that runs, with its loops
    (src/ic-websocket-gateway/src/canister_poller.rs:30-347). Each iteration of the polling loop is given the canister's
    answer and the clock readings it would see; other tasks are the business of the module `World`. */
module CanisterPoller {
  import opened Basics
  import opened G = Gateway
  import opened GatewayState
  import opened NonceKey
  import P = Polling

  const POLLING_TIMEOUT_MS: nat := 5000

  /** The sending side of a client's channel, seen from its other end. */
  class ClientChannel {
    var received: seq<CanisterToClientMessage>
    var receiverAlive: bool

    constructor ()
      ensures received == [] && receiverAlive
    {
      received, receiverAlive := [], true;
    }

    method Send(m: CanisterToClientMessage) returns (ok: bool)
      modifies this
      ensures receiverAlive == old(receiverAlive) == ok
      ensures received == if ok then old(received) + [m] else old(received)
    {
      ok := receiverAlive;
      if ok {
        received := received + [m];
      }
    }
  }

  /** One pass of the polling loop: the answer, the time from its start to the computation of the sleep, and by how much
      the sleep overruns. Times are in milliseconds. */
  datatype Iteration = Iteration(answer: P.Answer, elapsed: nat, oversleep: nat)

  ghost predicate WellTimed(it: Iteration) {
    it.answer.TimeoutElapsed? ==> it.elapsed >= POLLING_TIMEOUT_MS
  }

  /** Never longer than the interval, and just long enough to fill it. */
  function EffectivePollingInterval(interval: nat, elapsed: nat): (sleep: nat)
    ensures sleep <= interval <= elapsed + sleep
    ensures elapsed <= interval ==> elapsed + sleep == interval
  {
    if elapsed > interval then 0 else interval - elapsed
  }

  /** The iteration ends with a sleep, if its poll does not fail: it has not timed out, and it has not brought messages
      together with the news that more are waiting. A canister that does not say whether more are waiting is not polled
      again at once. */
  predicate Sleeps(it: Iteration) {
    match it.answer
    case TimeoutElapsed => false
    case Output(output) => output.messages == [] || output.isEndOfQueue == None || output.isEndOfQueue == Some(true)
    case _ => true
  }

  lemma SleepsExactly(it: Iteration)
    ensures !Sleeps(it) <==>
              || it.answer.TimeoutElapsed?
              || (it.answer.Output? && it.answer.output.messages != [] && it.answer.output.isEndOfQueue == Some(false))
  {
    if it.answer.Output? && it.answer.output.isEndOfQueue.Some? {
      var flag := it.answer.output.isEndOfQueue.value;
      assert flag == true || flag == false;
    }
  }

  ghost function Answers(script: seq<Iteration>): seq<P.Answer> {
    seq(|script|, i requires 0 <= i < |script| => script[i].answer)
  }

  ghost function SleptCount(script: seq<Iteration>): nat {
    if script == [] then 0 else SleptCount(script[..|script| - 1]) + if Sleeps(script[|script| - 1]) then 1 else 0
  }

  ghost function TimedOutCount(script: seq<Iteration>): nat {
    if script == [] then 0
    else TimedOutCount(script[..|script| - 1]) + if script[|script| - 1].answer.TimeoutElapsed? then 1 else 0
  }

  /** The counts are counts of iterations. */
  lemma {:induction false} SleptCountCounts(script: seq<Iteration>)
    ensures SleptCount(script) == |set i | 0 <= i < |script| && Sleeps(script[i])|
  {
    if script != [] {
      var n := |script| - 1;
      var front := script[..n];
      SleptCountCounts(front);
      var slept := set i | 0 <= i < |front| && Sleeps(front[i]);
      assert (set i | 0 <= i < |script| && Sleeps(script[i])) == slept + if Sleeps(script[n]) then {n} else {};
    }
  }

  lemma {:induction false} TimedOutCountCounts(script: seq<Iteration>)
    ensures TimedOutCount(script) == |set i | 0 <= i < |script| && script[i].answer.TimeoutElapsed?|
  {
    if script != [] {
      var n := |script| - 1;
      var front := script[..n];
      TimedOutCountCounts(front);
      var timedOut := set i | 0 <= i < |front| && front[i].answer.TimeoutElapsed?;
      assert (set i | 0 <= i < |script| && script[i].answer.TimeoutElapsed?) ==
             timedOut + if script[n].answer.TimeoutElapsed? then {n} else {};
    }
  }

  ghost function LeastDuration(interval: nat, script: seq<Iteration>): nat {
    if script == [] then 0
    else
      var it := script[|script| - 1];
      LeastDuration(interval, script[..|script| - 1]) + LeastPass(interval, it)
  }

  ghost function LeastPass(interval: nat, it: Iteration): nat {
    if it.answer.TimeoutElapsed? then POLLING_TIMEOUT_MS else if Sleeps(it) then interval else 0
  }

  lemma {:induction false} LeastDurationCounts(interval: nat, script: seq<Iteration>)
    ensures LeastDuration(interval, script) == interval * SleptCount(script) + 5000 * TimedOutCount(script)
  {
    if script != [] {
      LeastDurationCounts(interval, script[..|script| - 1]);
    }
  }

  /** How a run of the polling loop stands when the script is over. */
  datatype RunResult = StillPolling | Terminated | PollerFailed(error: P.PollerError)

  /** How many of the iterations did not fail. */
  ghost function Survived(used: nat, r: RunResult): (n: nat)
    ensures n <= used
  {
    if r.PollerFailed? && used > 0 then used - 1 else used
  }

  ghost predicate DistinctChannels(clients: map<ClientKey, ClientChannel>) {
    forall k, l :: k in clients && l in clients && clients[k] == clients[l] ==> k == l
  }

  /** What has come out of a client's channel so far, and whether anybody still reads it. */
  datatype Inbox = Inbox(received: seq<CanisterToClientMessage>, alive: bool)

  ghost function Inboxes(clients: map<ClientKey, ClientChannel>): map<ClientKey, Inbox>
    reads clients.Values
  {
    map k | k in clients :: Inbox(clients[k].received, clients[k].receiverAlive)
  }

  /** Each client that still reads gets the messages of the log that carry its key, in order; nobody gets anything
      else. */
  ghost function Deliver(inboxes: map<ClientKey, Inbox>, log: seq<Packet>): map<ClientKey, Inbox> {
    map k | k in inboxes ::
      if inboxes[k].alive then inboxes[k].(received := inboxes[k].received + P.For(log, k)) else inboxes[k]
  }

  lemma DeliverNothing(inboxes: map<ClientKey, Inbox>)
    ensures Deliver(inboxes, []) == inboxes
  {
    assert forall k :: k in inboxes ==> Deliver(inboxes, [])[k] == inboxes[k];
  }

  lemma DeliverConcat(inboxes: map<ClientKey, Inbox>, log: seq<Packet>, more: seq<Packet>)
    ensures Deliver(inboxes, log + more) == Deliver(Deliver(inboxes, log), more)
  {
    forall k
      ensures P.For(log + more, k) == P.For(log, k) + P.For(more, k)
    {
      P.ForConcat(log, more, k);
    }
    forall k | k in inboxes
      ensures Deliver(inboxes, log + more)[k] == Deliver(Deliver(inboxes, log), more)[k]
    {
      assert inboxes[k].received + (P.For(log, k) + P.For(more, k)) ==
          (inboxes[k].received + P.For(log, k)) + P.For(more, k);
    }
  }

  /** Each client that still reads has got its share of the batch, each message as the batch has it; the others have got
      nothing. */
  ghost predicate GainsShare(was: map<ClientKey, Inbox>, now: map<ClientKey, Inbox>, output: CertifiedMessages) {
    && was.Keys == now.Keys
    && forall k :: k in was ==>
         && now[k].alive == was[k].alive
         && was[k].received <= now[k].received
         && (was[k].alive ==>
               P.IsShare(output, |output.messages|, k, now[k].received[|was[k].received|..]))
         && (!was[k].alive ==> now[k].received == was[k].received)
  }

  lemma DeliverGainsShare(inboxes: map<ClientKey, Inbox>, output: CertifiedMessages)
    ensures GainsShare(inboxes, Deliver(inboxes, P.Packets(output)), output)
  {
    var ps := P.Packets(output);
    assert ps[..|output.messages|] == ps;
    forall k | k in inboxes
      ensures P.IsShare(output, |output.messages|, k, (inboxes[k].received + P.For(ps, k))[|inboxes[k].received|..])
    {
      P.ShareOfBatch(output, |output.messages|, k);
      assert (inboxes[k].received + P.For(ps, k))[|inboxes[k].received|..] == P.For(ps, k);
    }
  }

  lemma DeliverOne(inboxes: map<ClientKey, Inbox>, p: Packet)
    ensures Deliver(inboxes, [p]) ==
            if p.clientKey in inboxes && inboxes[p.clientKey].alive
            then inboxes[p.clientKey := Inbox(inboxes[p.clientKey].received + [p.message], true)]
            else inboxes
  {
    assert [p][..0] == [];
    var delivered := if p.clientKey in inboxes && inboxes[p.clientKey].alive
                     then inboxes[p.clientKey := Inbox(inboxes[p.clientKey].received + [p.message], true)]
                     else inboxes;
    forall k | k in inboxes
      ensures Deliver(inboxes, [p])[k] == delivered[k]
    {
      assert P.For([p], k) == if p.clientKey == k then [p.message] else [];
      assert inboxes[k].received + [] == inboxes[k].received;
    }
  }

  lemma EmptyBatch(inboxes: map<ClientKey, Inbox>, a: P.Answer)
    ensures a.Output? && a.output.messages == [] ==> GainsShare(inboxes, inboxes, a.output)
  {
    if a.Output? && a.output.messages == [] {
      DeliverGainsShare(inboxes, a.output);
      DeliverNothing(inboxes);
      assert P.Packets(a.output) == [];
    }
  }

  /** After a batch the poller asks for what follows its last message. */
  lemma LastNonce(next: u64, a: P.Answer)
    ensures a.Output? && a.output.messages != [] && P.UpdateNonce(next, P.Packets(a.output)).Ok? ==>
              var last := GetNonceFromMessage(a.output.messages[|a.output.messages| - 1].key);
              last.Some? && P.UpdateNonce(next, P.Packets(a.output)).value ==
                              if last.value == U64_MAX then 0 else last.value + 1
  {
    if a.Output? && P.UpdateNonce(next, P.Packets(a.output)).Ok? {
      P.AcceptedShape(next, P.Packets(a.output));
    }
  }

  class Poller {
    const canisterId: CanisterId
    const pollerState: PollerState<ClientChannel>
    const gatewayState: GatewayState<ClientChannel>
    const pollingIntervalMs: nat
    var nextMessageNonce: u64
    var pollingIteration: nat

    constructor (canisterId: CanisterId, pollerState: PollerState<ClientChannel>,
                 gatewayState: GatewayState<ClientChannel>, pollingIntervalMs: nat)
      ensures this.canisterId == canisterId && this.pollerState == pollerState && this.gatewayState == gatewayState
      ensures this.pollingIntervalMs == pollingIntervalMs && nextMessageNonce == 0 && pollingIteration == 0
    {
      this.canisterId := canisterId;
      this.pollerState := pollerState;
      this.gatewayState := gatewayState;
      this.pollingIntervalMs := pollingIntervalMs;
      nextMessageNonce := 0;
      pollingIteration := 0;
    }

    method UpdateNonce(output: CertifiedMessages) returns (r: Result<(), P.PollerError>)
      modifies this`nextMessageNonce
      ensures match P.UpdateNonce(old(nextMessageNonce), P.Packets(output))
              case Ok(n) => r.Ok? && nextMessageNonce == n
              case Err(e) => r == Err(e)
    {
      ghost var ps := P.Packets(output);
      for i := 0 to |output.messages|
        invariant P.UpdateNonce(old(nextMessageNonce), ps[..i]) == Ok(nextMessageNonce)
      {
        assert ps[..i + 1][..i] == ps[..i];
        var nonce := GetNonceFromMessage(output.messages[i].key);
        if nonce.None? {
          FirstErrorStands(old(nextMessageNonce), ps, i + 1);
          return Err(P.UnreadableNonce);
        }
        if nextMessageNonce != 0 && nonce.value != nextMessageNonce {
          FirstErrorStands(old(nextMessageNonce), ps, i + 1);
          return Err(P.NonConsecutiveNonce(nextMessageNonce, nonce.value));
        }
        nextMessageNonce := P.Successor(nonce.value);
      }
      assert ps[..|ps|] == ps;
      return Ok(());
    }

    /** Sends one message, if its client is there. */
    method RelayMessage(p: Packet)
      requires DistinctChannels(pollerState.clients)
      modifies pollerState.clients.Values
      ensures Inboxes(pollerState.clients) == Deliver(old(Inboxes(pollerState.clients)), [p])
    {
      DeliverOne(Inboxes(pollerState.clients), p);
      hide Deliver;
      if p.clientKey in pollerState.clients {
        var channel := pollerState.clients[p.clientKey];
        var ok := channel.Send(p.message);
        assert forall k :: k in pollerState.clients && k != p.clientKey ==> pollerState.clients[k] != channel;
      }
    }

    /** Relays a batch. */
    method RelayMessages(output: CertifiedMessages)
      requires DistinctChannels(pollerState.clients)
      modifies pollerState.clients.Values
      ensures Inboxes(pollerState.clients) == Deliver(old(Inboxes(pollerState.clients)), P.Packets(output))
      ensures GainsShare(old(Inboxes(pollerState.clients)), Inboxes(pollerState.clients), output)
    {
      DeliverGainsShare(Inboxes(pollerState.clients), output);
      ghost var ps := P.Packets(output);
      DeliverNothing(Inboxes(pollerState.clients));
      hide Deliver, Inboxes, GainsShare;
      for i := 0 to |output.messages|
        invariant Inboxes(pollerState.clients) == Deliver(old(Inboxes(pollerState.clients)), ps[..i])
      {
        var m := output.messages[i];
        DeliverConcat(old(Inboxes(pollerState.clients)), ps[..i], [ps[i]]);
        assert ps[..i + 1] == ps[..i] + [ps[i]];
        RelayMessage(Packet(m.clientKey, CanisterToClientMessage(m.key, m.content, output.cert, output.tree)));
      }
      assert ps[..|ps|] == ps;
    }

    /** One iteration: polls, checks, relays and sleeps. */
    method PollAndRelay(it: Iteration) returns (r: Result<(), P.PollerError>, duration: nat)
      requires DistinctChannels(pollerState.clients) && WellTimed(it)
      modifies this`nextMessageNonce, pollerState.clients.Values
      ensures PollsByTheRules(old(nextMessageNonce), nextMessageNonce, old(Inboxes(pollerState.clients)),
                              Inboxes(pollerState.clients), it.answer, r.Err?)
      ensures r.Ok? ==> duration >= LeastPass(pollingIntervalMs, it)
      ensures r.Err? <==> P.IsFatal(old(nextMessageNonce), it.answer)
      ensures r.Err? && !it.answer.Output? ==> r.error == P.UnrecoverableError
      ensures r.Ok? && !it.answer.Output? ==> nextMessageNonce == old(nextMessageNonce)
      ensures r.Ok? && it.answer.Output? && it.answer.output.messages != [] ==>
                var last := GetNonceFromMessage(it.answer.output.messages[|it.answer.output.messages| - 1].key);
                last.Some? && nextMessageNonce == if last.value == U64_MAX then 0 else last.value + 1
      ensures r.Ok? && it.answer.Output? ==>
                GainsShare(old(Inboxes(pollerState.clients)), Inboxes(pollerState.clients), it.answer.output)
      ensures r.Err? || !it.answer.Output? ==>
                Inboxes(pollerState.clients) == old(Inboxes(pollerState.clients))
      ensures var atOnce := it.answer.TimeoutElapsed? ||
                            (it.answer.Output? && it.answer.output.messages != []
                             && it.answer.output.isEndOfQueue == Some(false));
              r.Ok? ==>
                duration == if atOnce then it.elapsed
                            else it.oversleep + if it.elapsed > pollingIntervalMs then it.elapsed else pollingIntervalMs
    {
      hide Deliver, Inboxes, GainsShare, P.UpdateNonce, P.RefusedAt, GetNonceFromMessage;
      duration := it.elapsed;
      DeliverNothing(Inboxes(pollerState.clients));
      EmptyBatch(Inboxes(pollerState.clients), it.answer);
      LastNonce(nextMessageNonce, it.answer);
      P.FailsExactly(P.Progress(nextMessageNonce, [], false), it.answer);
      match P.PollCanister(it.answer) {
        case Err(e) => return Err(e), duration;
        case Ok(MessagesPolled(output)) =>
          var endOfQueueReached := if output.isEndOfQueue.Some? then output.isEndOfQueue.value else true;
          var updated := UpdateNonce(output);
          if updated.Err? {
            return updated, duration;
          }
          assert [] + P.Packets(output) == P.Packets(output);
          RelayMessages(output);
          if !endOfQueueReached {
            return Ok(()), duration;
          }
        case Ok(TimedOut) => return Ok(()), duration;
        case Ok(NoMessagesPolled) =>
      }
      duration := duration + EffectivePollingInterval(pollingIntervalMs, it.elapsed) + it.oversleep;
      r := Ok(());
    }

    /** One pass of the loop: polls, and then gives up, stops or goes on. */
    method Iterate(it: Iteration) returns (r: RunResult, duration: nat)
      requires gatewayState.Valid() && DistinctChannels(pollerState.clients) && WellTimed(it)
      modifies this, gatewayState, pollerState.clients.Values
      ensures gatewayState.Valid() && gatewayState.states == old(gatewayState.states)
      ensures PollsByTheRules(old(nextMessageNonce), nextMessageNonce, old(Inboxes(pollerState.clients)),
                              Inboxes(pollerState.clients), it.answer, r.PollerFailed?)
      ensures gatewayState.data == DataAfter(old(gatewayState.data), canisterId, r)
      ensures r.Terminated? ==> old(HasNoClients())
      ensures r.StillPolling? ==> !old(HasNoClients())
      ensures pollingIteration == old(pollingIteration) + if r.StillPolling? then 1 else 0
      ensures !r.PollerFailed? ==> duration >= LeastPass(pollingIntervalMs, it)
    {
      hide PollsByTheRules, LeastPass, Sleeps, Inboxes;
      var polled;
      polled, duration := PollAndRelay(it);
      r := Conclude(polled);
    }

    /** The canister is in the map, without clients. */
    ghost predicate HasNoClients()
      reads this, gatewayState, gatewayState.data.Values
    {
      canisterId in gatewayState.data && gatewayState.data[canisterId].clients == map[]
    }

    /** What the loop does once a poll is over: gives up, stops or goes on. */
    method Conclude(polled: Result<(), P.PollerError>) returns (r: RunResult)
      requires gatewayState.Valid()
      modifies this`pollingIteration, gatewayState
      ensures gatewayState.Valid() && gatewayState.states == old(gatewayState.states)
      ensures polled.Err? <==> r.PollerFailed?
      ensures polled.Err? ==> r.error == polled.error
      ensures polled.Ok? ==> (r.Terminated? <==> old(HasNoClients()))
      ensures gatewayState.data == DataAfter(old(gatewayState.data), canisterId, r)
      ensures pollingIteration == old(pollingIteration) + if r.StillPolling? then 1 else 0
    {
      if polled.Err? {
        var found := gatewayState.RemoveFailedCanister(canisterId);
        return PollerFailed(polled.error);
      }
      var terminate := gatewayState.RemoveCanisterIfEmpty(canisterId);
      if terminate.Empty? {
        return Terminated;
      }
      pollingIteration := pollingIteration + 1;
      r := StillPolling;
    }

    /** The polling loop. What it relays is what the rules of the module `Polling` say, each client gets exactly its
        share, and the loop leaves the gateway state alone until it fails or finds its canister without clients. */
    method RunPolling(script: seq<Iteration>) returns (r: RunResult, used: nat, duration: nat)
      requires gatewayState.Valid() && DistinctChannels(pollerState.clients)
      requires forall i :: 0 <= i < |script| ==> WellTimed(script[i])
      modifies this, gatewayState, pollerState.clients.Values
      ensures gatewayState.Valid() && used <= |script| && (r.StillPolling? ==> used == |script|)
      ensures var s := P.PollAll(P.Progress(old(nextMessageNonce), [], false), Answers(script[..used]));
              && (r.PollerFailed? <==> s.failed)
              && (!s.failed ==> nextMessageNonce == s.next)
              && Inboxes(pollerState.clients) == Deliver(old(Inboxes(pollerState.clients)), s.relayed)
      ensures gatewayState.states == old(gatewayState.states)
      ensures gatewayState.data == if r.StillPolling? then old(gatewayState.data)
                                   else old(gatewayState.data) - {canisterId}
      ensures r.Terminated? ==> used == 1 && old(HasNoClients())
      ensures r.StillPolling? && used > 0 ==> !old(HasNoClients())
      ensures pollingIteration == old(pollingIteration) + if r.StillPolling? then used else used - 1
      ensures var n := if r.PollerFailed? then used - 1 else used;
              duration >= pollingIntervalMs * SleptCount(script[..n]) + 5000 * TimedOutCount(script[..n])
    {
      hide RelaysByTheRules, PollsByTheRules, LeastDuration, LeastPass, Inboxes;
      r, used, duration := StillPolling, 0, 0;
      NoIterations(pollingIntervalMs, nextMessageNonce, Inboxes(pollerState.clients), script);
      while used < |script| && r.StillPolling?
        invariant used <= |script| && gatewayState.Valid() && gatewayState.states == old(gatewayState.states)
        invariant RelaysByTheRules(old(nextMessageNonce), nextMessageNonce, old(Inboxes(pollerState.clients)),
                                   Inboxes(pollerState.clients), script[..used], r)
        invariant gatewayState.data == DataAfter(old(gatewayState.data), canisterId, r)
        invariant !r.StillPolling? ==> used > 0
        invariant r.Terminated? ==> used == 1 && old(HasNoClients())
        invariant r.StillPolling? && used > 0 ==> !old(HasNoClients())
        invariant pollingIteration == old(pollingIteration) + if r.StillPolling? then used else used - 1
        invariant duration >= LeastDuration(pollingIntervalMs, script[..Survived(used, r)])
      {
        ghost var next, inboxes := nextMessageNonce, Inboxes(pollerState.clients);
        var d;
        r, d := Iterate(script[used]);
        duration := duration + d;
        RelaysMore(old(nextMessageNonce), next, nextMessageNonce, old(Inboxes(pollerState.clients)), inboxes,
                   Inboxes(pollerState.clients), script, used, r);
        LastsLonger(pollingIntervalMs, script, used, duration - d, d, r);
        used := used + 1;
      }
      RulesMean(old(nextMessageNonce), nextMessageNonce, old(Inboxes(pollerState.clients)),
                Inboxes(pollerState.clients), script[..used], r);
      LeastDurationCounts(pollingIntervalMs, script[..Survived(used, r)]);
    }
  }

  /** A loop that goes on leaves the map as it is; one that ends takes its canister out. */
  function DataAfter(data: map<CanisterId, PollerState<ClientChannel>>, c: CanisterId, r: RunResult)
    : map<CanisterId, PollerState<ClientChannel>>
  {
    if r.StillPolling? then data else data - {c}
  }

  /** From nonce `next0` and inboxes `in0`, the iterations of `done` lead to `next` and `inboxes`, and fail if `r` says
      so. */
  ghost predicate RelaysByTheRules(next0: u64, next: u64, in0: map<ClientKey, Inbox>, inboxes: map<ClientKey, Inbox>,
                                   done: seq<Iteration>, r: RunResult) {
    var s := P.PollAll(P.Progress(next0, [], false), Answers(done));
    && (r.PollerFailed? <==> s.failed)
    && (!s.failed ==> next == s.next)
    && inboxes == Deliver(in0, s.relayed)
  }

  /** One iteration with the answer `a`. */
  ghost predicate PollsByTheRules(next: u64, next': u64, inboxes: map<ClientKey, Inbox>,
                                  inboxes': map<ClientKey, Inbox>,
                                  a: P.Answer, failed: bool) {
    var s := P.Poll(P.Progress(next, [], false), a);
    && (failed <==> s.failed)
    && (!s.failed ==> next' == s.next)
    && inboxes' == Deliver(inboxes, s.relayed)
  }

  lemma RulesMean(next0: u64, next: u64, in0: map<ClientKey, Inbox>, inboxes: map<ClientKey, Inbox>,
                  done: seq<Iteration>, r: RunResult)
    requires RelaysByTheRules(next0, next, in0, inboxes, done, r)
    ensures var s := P.PollAll(P.Progress(next0, [], false), Answers(done));
            && (r.PollerFailed? <==> s.failed)
            && (!s.failed ==> next == s.next)
            && inboxes == Deliver(in0, s.relayed)
  {}

  lemma RelaysMore(next0: u64, next: u64, next': u64, in0: map<ClientKey, Inbox>, inboxes: map<ClientKey, Inbox>,
                   inboxes': map<ClientKey, Inbox>, script: seq<Iteration>, used: nat, r: RunResult)
    requires used < |script| && RelaysByTheRules(next0, next, in0, inboxes, script[..used], StillPolling)
    requires PollsByTheRules(next, next', inboxes, inboxes', script[used].answer, r.PollerFailed?)
    ensures RelaysByTheRules(next0, next', in0, inboxes', script[..used + 1], r)
  {
    hide Deliver, P.Poll;
    var s0 := P.Progress(next0, [], false);
    OneMoreIteration(s0, script, used);
    DeliverConcat(in0, P.PollAll(s0, Answers(script[..used])).relayed,
                  P.Poll(P.Progress(next, [], false), script[used].answer).relayed);
  }

  lemma NoIterations(interval: nat, next: u64, inboxes: map<ClientKey, Inbox>, script: seq<Iteration>)
    ensures RelaysByTheRules(next, next, inboxes, inboxes, script[..0], StillPolling)
    ensures LeastDuration(interval, script[..0]) == 0
  {
    DeliverNothing(inboxes);
  }

  lemma LastsLonger(interval: nat, script: seq<Iteration>, used: nat, before: nat, d: nat, r: RunResult)
    requires used < |script| && before >= LeastDuration(interval, script[..Survived(used, StillPolling)])
    requires !r.PollerFailed? ==> d >= LeastPass(interval, script[used])
    ensures before + d >= LeastDuration(interval, script[..Survived(used + 1, r)])
  {
    assert script[..used + 1][..used] == script[..used];
  }

  lemma OneMoreIteration(s0: P.Progress, script: seq<Iteration>, i: nat)
    requires i < |script| && !P.PollAll(s0, Answers(script[..i])).failed
    ensures var s := P.PollAll(s0, Answers(script[..i]));
            var more := P.Poll(P.Progress(s.next, [], false), script[i].answer);
            P.PollAll(s0, Answers(script[..i + 1])) == P.Progress(more.next, s.relayed + more.relayed, more.failed)
  {
    assert Answers(script[..i + 1]) == Answers(script[..i]) + [script[i].answer];
    assert Answers(script[..i + 1])[..i] == Answers(script[..i]);
    PollFromAnywhere(P.PollAll(s0, Answers(script[..i])), script[i].answer);
  }

  /** Once a message is refused the whole batch is. */
  lemma {:induction false} FirstErrorStands(next: u64, ps: seq<Packet>, i: nat)
    requires i <= |ps| && P.UpdateNonce(next, ps[..i]).Err?
    ensures P.UpdateNonce(next, ps) == P.UpdateNonce(next, ps[..i])
    decreases |ps|
  {
    if i == |ps| {
      assert ps[..i] == ps;
    } else {
      var front := ps[..|ps| - 1];
      assert front[..i] == ps[..i];
      FirstErrorStands(next, front, i);
    }
  }

  /** A poll adds to what was relayed before, whatever that was. */
  lemma PollFromAnywhere(s: P.Progress, a: P.Answer)
    requires !s.failed
    ensures var more := P.Poll(P.Progress(s.next, [], false), a);
            P.Poll(s, a) == P.Progress(more.next, s.relayed + more.relayed, more.failed)
  {
    assert s.relayed + [] == s.relayed;
    if a.Output? {
      assert [] + P.Packets(a.output) == P.Packets(a.output);
    }
  }
}
