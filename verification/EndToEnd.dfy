/** From the canister's queue to the client's WebSocket: in a run, pollers do what the rules of `Polling` say, and so
    what is proved about those rules holds of every poller in the presence of all other tasks. */
module EndToEnd {
  import opened Basics
  import opened ClientSession
  import opened Polling
  import opened World
  import opened Steps
  import opened Ownership
  import opened Sessions
  import opened Registration
  import opened Isolation
  import opened Delivery

  /** The answers the poller `p` has got in the first `i` steps. */
  ghost function AnswersTo(actions: seq<Action>, i: nat, p: nat): seq<Answer>
    requires i <= |actions|
  {
    if i == 0 then []
    else AnswersTo(actions, i - 1, p) + if IsAnswerTo(actions[i - 1], p) then [actions[i - 1].answer] else []
  }

  predicate IsAnswerTo(a: Action, p: nat) { a.PollAnswered? && a.pid == p }

  /** The poller is where its answers lead. */
  ghost predicate Follows(t: PollerTask, answers: seq<Answer>) {
    var r := PollAll(NEW_POLLER, answers);
    && r.relayed == t.log + Pending(t)
    && (t.pc.Asking? || t.pc.Relaying? || t.pc.Sending? || t.pc.Checking? ==> !r.failed && r.next == t.next)
    && (t.pc.Removing? ==> r.failed)
  }

  lemma {:induction false} NoAnswersBeforeStart(ws: seq<World>, actions: seq<Action>, i: nat, p: nat)
    requires Run(ws, actions) && i < |ws| && |ws[i].pollers| <= p
    ensures AnswersTo(actions, i, p) == []
  {
    hide Apply;
    if i > 0 {
      PollersFrame(ws[i - 1], actions[i - 1]);
      NoAnswersBeforeStart(ws, actions, i - 1, p);
    }
  }

  lemma AnswerFollows(t: PollerTask, answers: seq<Answer>, a: Answer)
    requires Follows(t, answers) && t.pc.Asking?
    ensures Follows(PollAnsweredStep(t, a), answers + [a])
  {
    assert (answers + [a])[..|answers|] == answers;
    assert t.log + [] == t.log;
  }

  lemma StepFollows(w: World, a: Action, p: nat, answers: seq<Answer>)
    requires Enabled(w, a) && p < |w.pollers| && Follows(w.pollers[p], answers)
    ensures p < |Apply(w, a).pollers|
    ensures Follows(Apply(w, a).pollers[p], answers + if IsAnswerTo(a, p) then [a.answer] else [])
  {
    PollersFrame(w, a);
    assert answers + [] == answers;
    if IsAnswerTo(a, p) {
      AnswerFollows(w.pollers[p], answers, a.answer);
    } else if ByPoller(a, p) {
      RelayKeepsPending(w, a, p);
    }
  }

  /** In every run each poller relays what the polling rules make of the answers it gets, whatever else happens, and it
      fails only when they say so. */
  lemma {:induction false} PollerFollowsItsAnswers(ws: seq<World>, actions: seq<Action>, i: nat, p: nat)
    requires Run(ws, actions) && i < |ws| && p < |ws[i].pollers|
    ensures Follows(ws[i].pollers[p], AnswersTo(actions, i, p))
  {
    hide Apply;
    var w, a := ws[i - 1], actions[i - 1];
    if p < |w.pollers| {
      PollerFollowsItsAnswers(ws, actions, i - 1, p);
      StepFollows(w, a, p, AnswersTo(actions, i - 1, p));
    } else {
      NoAnswersBeforeStart(ws, actions, i - 1, p);
      PollersFrame(w, a);
    }
  }

  /** Two pollers, in whatever runs, whose answers only differ in timeouts, recoverable errors and empty polls have the
      same messages for their clients. */
  lemma StuttersDoNotMatter(ws: seq<World>, actions: seq<Action>, i: nat, p: nat,
                            ws': seq<World>, actions': seq<Action>, i': nat, p': nat)
    requires Run(ws, actions) && i < |ws| && p < |ws[i].pollers|
    requires Run(ws', actions') && i' < |ws'| && p' < |ws'[i'].pollers|
    requires WithoutStutters(AnswersTo(actions, i, p)) == WithoutStutters(AnswersTo(actions', i', p'))
    ensures var t, t' := ws[i].pollers[p], ws'[i'].pollers[p'];
            t.log + Pending(t) == t'.log + Pending(t')
  {
    hide Apply;
    PollerFollowsItsAnswers(ws, actions, i, p);
    PollerFollowsItsAnswers(ws', actions', i', p');
    StutterInvariance(NEW_POLLER, AnswersTo(actions, i, p));
    StutterInvariance(NEW_POLLER, AnswersTo(actions', i', p'));
  }

  // ---- Failures come from answers ----

  /** A poller fails if and only if the rules refuse what it was answered: it is then taking its canister out of the
      map, or has done so. */
  lemma {:induction false} FailureIsAnswered(ws: seq<World>, actions: seq<Action>, i: nat, p: nat)
    requires Run(ws, actions) && i < |ws| && p < |ws[i].pollers|
    ensures PollAll(NEW_POLLER, AnswersTo(actions, i, p)).failed <==>
              ws[i].pollers[p].pc.Removing? || PollerFailed(ws[i], ws[i].pollers[p].gen)
  {
    hide Apply, Poll, PollerFailed;
    RunInv(ws, actions, i);
    if Active(ws[i].pollers[p]) {
      ActiveIsAnswered(ws, actions, i, p);
    } else {
      var w, a := ws[i - 1], actions[i - 1];
      RunInv(ws, actions, i - 1);
      PollersFrame(w, a);
      PollerFrame(w, a, p);
      FailureIsAnswered(ws, actions, i - 1, p);
      FailureStep(w, a, w.pollers[p].gen);
      StopsWithoutAnswer(w, a, p);
      assert AnswersTo(actions, i, p) == AnswersTo(actions, i - 1, p);
    }
  }

  lemma ActiveIsAnswered(ws: seq<World>, actions: seq<Action>, i: nat, p: nat)
    requires Run(ws, actions) && i < |ws| && p < |ws[i].pollers| && Active(ws[i].pollers[p])
    ensures !PollerFailed(ws[i], ws[i].pollers[p].gen)
    ensures PollAll(NEW_POLLER, AnswersTo(actions, i, p)).failed <==> ws[i].pollers[p].pc.Removing?
  {
    hide Apply, Poll;
    RunInv(ws, actions, i);
    PollerFollowsItsAnswers(ws, actions, i, p);
    assert PollerOwns(ws[i], p);
  }

  /** A step after which a poller is over is none in which it is answered; if it was taking its canister out, it has. */
  lemma StopsWithoutAnswer(w: World, a: Action, p: nat)
    requires SessionsInv(w) && Enabled(w, a) && p < |w.pollers| && p < |Apply(w, a).pollers|
    requires !Active(Apply(w, a).pollers[p])
    ensures !IsAnswerTo(a, p) && !Apply(w, a).pollers[p].pc.Removing?
    ensures w.pollers[p].pc.Removing? <==> Fails(w, a, w.pollers[p].gen)
  {
    PollersFrame(w, a);
    assert PollerOwns(w, p);
    if Fails(w, a, w.pollers[p].gen) {
      assert PollerOwns(w, a.pid);
    }
  }

  /** In every run a poll's answer ends the poller, leaves everything to be relayed as it is, or brings messages: it is
      fatal, it is a timeout, a recoverable error or empty, or it is neither. */
  lemma AnswerLeadsTo(ws: seq<World>, actions: seq<Action>, i: nat)
    requires Run(ws, actions) && i < |actions| && actions[i].PollAnswered?
    ensures actions[i].pid < |ws[i].pollers| && actions[i].pid < |ws[i + 1].pollers|
    ensures var a, t, t' := actions[i].answer, ws[i].pollers[actions[i].pid], ws[i + 1].pollers[actions[i].pid];
            && (t'.pc.Removing? <==> IsFatal(t.next, a))
            && (t'.pc.Checking? <==> IsStutter(a))
            && (t'.pc.Relaying? <==> !IsFatal(t.next, a) && !IsStutter(a))
            && (t'.pc.Relaying? ==> a.Output? && |t'.pc.rest| == |a.output.messages|)
  {
    var t := ws[i].pollers[actions[i].pid];
    if actions[i].answer.Output? {
      RefusedExactly(t.next, Packets(actions[i].answer.output));
    }
  }

  // ---- Where messages come from ----

  /** An answer that the poller got is the answer of some step. */
  lemma {:induction false} AnswerOfStep(actions: seq<Action>, i: nat, p: nat, x: nat) returns (j: nat)
    requires i <= |actions| && x < |AnswersTo(actions, i, p)|
    ensures j < i && IsAnswerTo(actions[j], p) && actions[j].answer == AnswersTo(actions, i, p)[x]
  {
    if x < |AnswersTo(actions, i - 1, p)| {
      j := AnswerOfStep(actions, i - 1, p, x);
    } else {
      j := i - 1;
    }
  }

  lemma LoggedOrigin(ws: seq<World>, actions: seq<Action>, i: nat, p: nat, y: nat) returns (j: nat, z: nat)
    requires Run(ws, actions) && i < |ws| && p < |ws[i].pollers| && y < |ws[i].pollers[p].log|
    ensures j < i && IsAnswerTo(actions[j], p) && actions[j].answer.Output? && z < |actions[j].answer.output.messages|
    ensures var packet, m := ws[i].pollers[p].log[y], actions[j].answer.output.messages[z];
            packet.clientKey == m.clientKey && IsFrom(actions[j].answer.output, m, packet.message)
  {
    hide Apply;
    PollerFollowsItsAnswers(ws, actions, i, p);
    var answers := AnswersTo(actions, i, p);
    assert PollAll(NEW_POLLER, answers).relayed[y] == ws[i].pollers[p].log[y];
    var x;
    x, z := RelayedOrigin(answers, y);
    j := AnswerOfStep(actions, i, p, x);
  }

  /** In every run, each message that a client reads comes out of an answer that its own poller got: it is one of the
      messages of a batch, addressed to the client, with its own key and content and with the certificate and the tree
      of that batch. */
  lemma WrittenHasOrigin(ws: seq<World>, actions: seq<Action>, i: nat, s: nat, x: nat) returns (j: nat, z: nat)
    requires Run(ws, actions) && i < |ws| && s < |ws[i].handlers| && x < |ws[i].handlers[s].written|
    ensures ws[i].handlers[s].gen.Some? && ws[i].handlers[s].session.clientKey.Some?
    ensures j < i && actions[j].PollAnswered? && actions[j].answer.Output?
    ensures actions[j].pid < |ws[i].pollers| && ws[i].pollers[actions[j].pid].gen == ws[i].handlers[s].gen.value
    ensures z < |actions[j].answer.output.messages|
    ensures var output, written := actions[j].answer.output, ws[i].handlers[s].written[x];
            var m := output.messages[z];
            && m.clientKey == ws[i].handlers[s].session.clientKey.value
            && written.key == m.key && written.content == m.content
            && written.cert == output.cert && written.tree == output.tree
  {
    hide Apply;
    var w, h := ws[i], ws[i].handlers[s];
    if h.gen.None? {
      NothingBeforeRegistration(ws, actions, i, s);
    }
    var end := WrittenInOrderAlways(ws, actions, i, s);
    var log, key := LogOf(w, h.gen.value), h.session.clientKey.value;
    var y := ForElement(log[h.joined..end], key, x);
    PolledLog(w, h.gen.value);
    var p := PollerOfGen(w, h.gen.value);
    LogIsOfOwnPoller(ws, actions, i, s);
    j, z := LoggedOrigin(ws, actions, i, p, h.joined + y);
  }

  lemma LogIsOfOwnPoller(ws: seq<World>, actions: seq<Action>, i: nat, s: nat)
    requires Run(ws, actions) && i < |ws| && s < |ws[i].handlers| && ws[i].handlers[s].gen.Some?
    requires LogOf(ws[i], ws[i].handlers[s].gen.value) != []
    ensures var g := ws[i].handlers[s].gen.value;
            PollerOfGen(ws[i], g) < |ws[i].pollers| && ws[i].pollers[PollerOfGen(ws[i], g)].gen == g
  {
    hide Apply;
    RunInv(ws, actions, i);
    var g := ws[i].handlers[s].gen.value;
    PolledLog(ws[i], g);
    assert GenIsOwnCanister(ws[i], s) && GenOk(ws[i], g);
  }

  // ---- From the queue to the client ----

  /** The canister answers the polls of `p` from its queue, up to step `i`. */
  ghost predicate ServedFrom(queue: seq<Packet>, ws: seq<World>, actions: seq<Action>, i: nat, p: nat)
    requires Run(ws, actions) && i <= |actions|
  {
    forall j :: 0 <= j < i && IsAnswerTo(actions[j], p) && p < |ws[j].pollers| ==>
      Serves(queue, ws[j].pollers[p].next, actions[j].answer)
  }

  /** The answer at `x` continues what the ones before it have led to. */
  ghost predicate ServesAt(queue: seq<Packet>, answers: seq<Answer>, x: nat)
    requires x < |answers|
  {
    Serves(queue, PollAll(NEW_POLLER, answers[..x]).next, answers[x])
  }

  lemma ServesInPrefix(queue: seq<Packet>, answers: seq<Answer>, before: seq<Answer>, x: nat)
    requires x < |before| && before <= answers && ServesAt(queue, before, x)
    ensures ServesAt(queue, answers, x)
  {
    assert answers[..x] == before[..x];
  }

  lemma {:induction false} AnswersServe(queue: seq<Packet>, ws: seq<World>, actions: seq<Action>, i: nat, p: nat)
    requires Run(ws, actions) && i <= |actions| && ServedFrom(queue, ws, actions, i, p)
    ensures forall x :: 0 <= x < |AnswersTo(actions, i, p)| ==> ServesAt(queue, AnswersTo(actions, i, p), x)
  {
    hide Apply, ServesAt;
    if i > 0 {
      AnswersServe(queue, ws, actions, i - 1, p);
      var before, answers := AnswersTo(actions, i - 1, p), AnswersTo(actions, i, p);
      forall x | 0 <= x < |answers|
        ensures ServesAt(queue, answers, x)
      {
        if x < |before| {
          ServesInPrefix(queue, answers, before, x);
        } else {
          LastAnswerServes(queue, ws, actions, i - 1, p);
        }
      }
    }
  }

  lemma LastAnswerServes(queue: seq<Packet>, ws: seq<World>, actions: seq<Action>, i: nat, p: nat)
    requires Run(ws, actions) && i < |actions| && ServedFrom(queue, ws, actions, i + 1, p) && IsAnswerTo(actions[i], p)
    ensures ServesAt(queue, AnswersTo(actions, i + 1, p), |AnswersTo(actions, i, p)|)
  {
    hide Apply, Serves;
    var before, answers := AnswersTo(actions, i, p), AnswersTo(actions, i + 1, p);
    assert answers[..|before|] == before;
    AskingEnabled(ws[i], actions[i], p);
    PollerFollowsItsAnswers(ws, actions, i, p);
  }

  lemma AskingEnabled(w: World, a: Action, p: nat)
    requires Enabled(w, a) && IsAnswerTo(a, p)
    ensures p < |w.pollers| && w.pollers[p].pc.Asking?
  {}

  /** A poller that is answered from a queue of consecutive nonces never fails, and what it relays is one contiguous
      piece of the queue. */
  lemma RelaysTheQueue(queue: seq<Packet>, ws: seq<World>, actions: seq<Action>, i: nat, p: nat)
    returns (a: nat, b: nat)
    requires Run(ws, actions) && i < |ws| && p < |ws[i].pollers|
    requires Consecutive(queue) && BelowLimit(queue) && ServedFrom(queue, ws, actions, i, p)
    ensures a <= b <= |queue| && ws[i].pollers[p].log + Pending(ws[i].pollers[p]) == queue[a..b]
    ensures !ws[i].pollers[p].pc.Removing? && !PollerFailed(ws[i], ws[i].pollers[p].gen)
  {
    hide Apply;
    AnswersServe(queue, ws, actions, i, p);
    var answers := AnswersTo(actions, i, p);
    forall x | 0 <= x < |answers|
      ensures Serves(queue, PollAll(NEW_POLLER, answers[..x]).next, answers[x])
    {
      assert ServesAt(queue, answers, x);
    }
    a, b := RelaysAPieceOfTheQueue(queue, answers);
    PollerFollowsItsAnswers(ws, actions, i, p);
    FailureIsAnswered(ws, actions, i, p);
  }

  /** If a canister serves a queue of consecutive nonces to the poller of a session, the messages written to the
      client's WebSocket are the first of those that the queue addresses to it in one contiguous piece: none is lost,
      repeated or overtaken on the way, and their nonces increase strictly. If clients connected at the same time have
      different keys, the piece is what the poller relayed from the session's registration to its removal, and the
      session does not hear that its poller has failed. */
  lemma QueueReachesClient(queue: seq<Packet>, ws: seq<World>, actions: seq<Action>, i: nat, s: nat, p: nat)
    returns (from: nat, to: nat)
    requires Run(ws, actions) && i < |ws| && s < |ws[i].handlers| && p < |ws[i].pollers|
    requires ws[i].handlers[s].gen == Some(ws[i].pollers[p].gen)
    requires Consecutive(queue) && BelowLimit(queue) && ServedFrom(queue, ws, actions, i, p)
    ensures from <= to <= |queue| && ws[i].handlers[s].session.clientKey.Some?
    ensures var h := ws[i].handlers[s];
            && h.taken <= |h.sent|
            && h.written <= For(queue[from..to], h.session.clientKey.value)
            && (h.pc.Awaiting? ==> h.written + h.sent[h.taken..] == For(queue[from..to], h.session.clientKey.value))
            && Increasing(h.written)
    ensures DistinctKeys(ws, actions) ==> Window(ws[i], s) == queue[from..to]
    ensures DistinctKeys(ws, actions) && i < |actions| ==>
            forall closes :: actions[i] != Update(s, ChannelClosed(closes))
  {
    hide Apply, Serves, Run, DistinctKeys, ServedFrom, Consecutive, BelowLimit, Increasing;
    var a, b := RelaysTheQueue(queue, ws, actions, i, p);
    from, to := PieceOfClient(queue, ws, actions, i, s, p, a, b);
    var key := ws[i].handlers[s].session.clientKey.value;
    SliceConsecutive(queue, from, to);
    ForIncreasing(queue[from..to], key);
    PrefixIncreasing(ws[i].handlers[s].written, For(queue[from..to], key));
    if DistinctKeys(ws, actions) && i < |actions| && actions[i].Update? && actions[i].event.ChannelClosed? {
      ClosedChannelMeansFailure(ws, actions, i);
    }
  }

  lemma PieceOfClient(queue: seq<Packet>, ws: seq<World>, actions: seq<Action>, i: nat, s: nat, p: nat, a: nat, b: nat)
    returns (from: nat, to: nat)
    requires Run(ws, actions) && i < |ws| && s < |ws[i].handlers| && p < |ws[i].pollers|
    requires ws[i].handlers[s].gen == Some(ws[i].pollers[p].gen)
    requires a <= b <= |queue| && ws[i].pollers[p].log + Pending(ws[i].pollers[p]) == queue[a..b]
    ensures from <= to <= |queue| && ws[i].handlers[s].session.clientKey.Some?
    ensures var h := ws[i].handlers[s];
            && h.taken <= |h.sent|
            && h.written <= For(queue[from..to], h.session.clientKey.value)
            && (h.pc.Awaiting? ==> h.written + h.sent[h.taken..] == For(queue[from..to], h.session.clientKey.value))
    ensures DistinctKeys(ws, actions) ==> Window(ws[i], s) == queue[from..to]
  {
    hide Apply, Run, DistinctKeys, LogOf, For;
    var h, log := ws[i].handlers[s], ws[i].pollers[p].log;
    var end := WrittenInOrderAlways(ws, actions, i, s);
    LogOfPoller(ws, actions, i, p);
    if DistinctKeys(ws, actions) {
      WrittenInOrder(ws, actions, i, s);
      end := WindowEnd(ws, actions, i, s);
    }
    SliceOfPiece(log, Pending(ws[i].pollers[p]), queue, a, b, h.joined, end);
    from, to := a + h.joined, a + end;
  }

  lemma LogOfPoller(ws: seq<World>, actions: seq<Action>, i: nat, p: nat)
    requires Run(ws, actions) && i < |ws| && p < |ws[i].pollers|
    ensures LogOf(ws[i], ws[i].pollers[p].gen) == ws[i].pollers[p].log
  {
    hide Apply;
    RunInv(ws, actions, i);
    assert PollerOwns(ws[i], p);
  }

  lemma WindowEnd(ws: seq<World>, actions: seq<Action>, i: nat, s: nat) returns (end: nat)
    requires Run(ws, actions) && DistinctKeys(ws, actions) && i < |ws| && s < |ws[i].handlers|
    requires ws[i].handlers[s].gen.Some?
    ensures var h := ws[i].handlers[s];
            var log := LogOf(ws[i], h.gen.value);
            h.joined <= end <= |log| && Window(ws[i], s) == log[h.joined..end]
  {
    hide Apply;
    RunKeysInv(ws, actions, i);
    SentExactly(ws[i], s);
    var h := ws[i].handlers[s];
    end := if h.left.Some? then h.left.value else |LogOf(ws[i], h.gen.value)|;
  }

  lemma SliceOfPiece(log: seq<Packet>, pending: seq<Packet>, queue: seq<Packet>, a: nat, b: nat, i: nat, j: nat)
    requires a <= b <= |queue| && log + pending == queue[a..b] && i <= j <= |log|
    ensures a + j <= |queue| && log[i..j] == queue[a + i..a + j]
  {
    assert |log + pending| == b - a;
    forall x | 0 <= x < j - i
      ensures log[i..j][x] == queue[a + i..a + j][x]
    {
      assert log[i + x] == (log + pending)[i + x] == queue[a..b][i + x];
    }
  }
}
