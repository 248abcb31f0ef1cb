/** The poller's nonce and relay rules as functions
    (src/ic-websocket-gateway/src/canister_poller.rs:116-310). */
module Polling {
  import opened Basics
  import opened NonceKey

  /** How one call to `ws_get_messages` under the polling timeout can end. */
  datatype Answer =
    | Output(output: CertifiedMessages)
    | AgentError(recoverable: bool)
    | CandidError
    | CdkError
    | TimeoutElapsed

  datatype PollingStatus = NoMessagesPolled | MessagesPolled(output: CertifiedMessages) | TimedOut

  datatype PollerError = UnrecoverableError | UnreadableNonce | NonConsecutiveNonce(expected: u64, got: u64)

  function PollCanister(a: Answer): Result<PollingStatus, PollerError> {
    match a
    case Output(output) => if output.messages == [] then Ok(NoMessagesPolled) else Ok(MessagesPolled(output))
    case AgentError(true) => Ok(NoMessagesPolled)
    case TimeoutElapsed => Ok(TimedOut)
    case _ => Err(UnrecoverableError)
  }

  /** The messages of a batch, each with the certificate and tree of the whole batch. */
  function Packets(output: CertifiedMessages): seq<Packet> {
    seq(|output.messages|, i requires 0 <= i < |output.messages| =>
      var m := output.messages[i];
      Packet(m.clientKey, CanisterToClientMessage(m.key, m.content, output.cert, output.tree)))
  }

  /** `message_nonce + 1` in a release build. */
  function Successor(n: u64): u64 {
    if n == U64_MAX then 0 else n + 1
  }

  function Nonce(p: Packet): Option<u64> {
    GetNonceFromMessage(p.message.key)
  }

  /** One message of a batch: the next nonce to ask for, or why the batch is refused. */
  function AcceptNonce(next: u64, p: Packet): Result<u64, PollerError> {
    match Nonce(p)
    case None => Err(UnreadableNonce)
    case Some(n) => if next != 0 && n != next then Err(NonConsecutiveNonce(next, n)) else Ok(Successor(n))
  }

  function UpdateNonce(next: u64, ps: seq<Packet>): Result<u64, PollerError> {
    if ps == [] then Ok(next)
    else match UpdateNonce(next, ps[..|ps| - 1])
      case Err(e) => Err(e)
      case Ok(n) => AcceptNonce(n, ps[|ps| - 1])
  }

  /** What the client with key `k` gets out of `log`. */
  function For(log: seq<Packet>, k: ClientKey): seq<CanisterToClientMessage> {
    if log == [] then []
    else For(log[..|log| - 1], k) + if log[|log| - 1].clientKey == k then [log[|log| - 1].message] else []
  }

  // ---- What a relayed message carries ----

  /** `sent` is the message `m` of the batch: key and content are its own, certificate and tree are the batch's. */
  predicate IsFrom(output: CertifiedMessages, m: CanisterOutputMessage, sent: CanisterToClientMessage) {
    sent.key == m.key && sent.content == m.content && sent.cert == output.cert && sent.tree == output.tree
  }

  /** `sent` are, one by one and in order, the first `n` messages of the batch as far as they are addressed to `k`. */
  ghost predicate IsShare(output: CertifiedMessages, n: nat, k: ClientKey, sent: seq<CanisterToClientMessage>)
    requires n <= |output.messages|
  {
    if n == 0 then sent == []
    else
      var m := output.messages[n - 1];
      if m.clientKey == k then
        sent != [] && IsFrom(output, m, sent[|sent| - 1]) && IsShare(output, n - 1, k, sent[..|sent| - 1])
      else IsShare(output, n - 1, k, sent)
  }

  lemma {:induction false} ShareOfBatch(output: CertifiedMessages, n: nat, k: ClientKey)
    requires n <= |output.messages|
    ensures IsShare(output, n, k, For(Packets(output)[..n], k))
  {
    if n > 0 {
      var ps := Packets(output);
      assert ps[..n][..n - 1] == ps[..n - 1];
      ShareOfBatch(output, n - 1, k);
      var before := For(ps[..n - 1], k);
      assert (before + [ps[n - 1].message])[..|before|] == before;
      assert before + [] == before;
    }
  }

  /** What a client gets out of a log is in the log, under its key. */
  lemma {:induction false} ForElement(log: seq<Packet>, k: ClientKey, x: nat) returns (y: nat)
    requires x < |For(log, k)|
    ensures y < |log| && log[y].clientKey == k && log[y].message == For(log, k)[x]
  {
    var front := log[..|log| - 1];
    if x < |For(front, k)| {
      y := ForElement(front, k, x);
    } else {
      y := |log| - 1;
    }
  }

  // ---- Whole runs of polls ----

  datatype Progress = Progress(next: u64, relayed: seq<Packet>, failed: bool)

  function Poll(s: Progress, a: Answer): Progress {
    if s.failed then s
    else match PollCanister(a)
      case Err(_) => s.(failed := true)
      case Ok(MessagesPolled(output)) =>
        (match UpdateNonce(s.next, Packets(output))
         case Err(_) => s.(failed := true)
         case Ok(n) => Progress(n, s.relayed + Packets(output), false))
      case Ok(_) => s
  }

  function PollAll(s: Progress, answers: seq<Answer>): Progress {
    if answers == [] then s else Poll(PollAll(s, answers[..|answers| - 1]), answers[|answers| - 1])
  }

  const NEW_POLLER := Progress(0, [], false)

  /** Consecutive nonces, starting anywhere. */
  ghost predicate Consecutive(ps: seq<Packet>) {
    && (forall i :: 0 <= i < |ps| ==> Nonce(ps[i]).Some?)
    && (forall i :: 0 <= i < |ps| ==> Nonce(ps[i]).value == Nonce(ps[0]).value + i)
  }

  /** Only the last message may carry the largest nonce there is. */
  ghost predicate NoWrap(ps: seq<Packet>) {
    forall i :: 0 <= i < |ps| - 1 ==> Nonce(ps[i]) != Some(U64_MAX)
  }

  ghost predicate StartsAt(ps: seq<Packet>, next: u64) {
    ps != [] && next != 0 ==> Nonce(ps[0]) == Some(next)
  }

  /** After an accepted sequence the poller asks for the successor of its last nonce. */
  lemma {:induction false} AcceptedShape(next: u64, ps: seq<Packet>)
    requires UpdateNonce(next, ps).Ok?
    ensures forall i :: 0 <= i < |ps| ==> Nonce(ps[i]).Some?
    ensures UpdateNonce(next, ps).value == if ps == [] then next else Successor(Nonce(ps[|ps| - 1]).value)
  {
    if ps != [] {
      var front := ps[..|ps| - 1];
      AcceptedShape(next, front);
      assert forall i :: 0 <= i < |front| ==> ps[i] == front[i];
    }
  }

  lemma {:induction false} AcceptedIsConsecutive(next: u64, ps: seq<Packet>)
    requires UpdateNonce(next, ps).Ok? && NoWrap(ps)
    ensures Consecutive(ps) && StartsAt(ps, next)
  {
    AcceptedShape(next, ps);
    if ps != [] {
      var front := ps[..|ps| - 1];
      assert forall i :: 0 <= i < |front| ==> ps[i] == front[i];
      AcceptedIsConsecutive(next, front);
      AcceptedShape(next, front);
      assert front != [] ==> Nonce(ps[|front| - 1]) != Some(U64_MAX);
    }
  }

  lemma {:induction false} ConsecutiveIsAccepted(next: u64, ps: seq<Packet>)
    requires Consecutive(ps) && StartsAt(ps, next)
    ensures UpdateNonce(next, ps).Ok? && NoWrap(ps)
  {
    if ps != [] {
      var front := ps[..|ps| - 1];
      assert forall i :: 0 <= i < |front| ==> ps[i] == front[i];
      ConsecutiveIsAccepted(next, front);
      AcceptedShape(next, front);
      forall i | 0 <= i < |ps| - 1
        ensures Nonce(ps[i]) != Some(U64_MAX)
      {
        assert Nonce(ps[i + 1]).value == Nonce(ps[0]).value + i + 1;
      }
    }
  }

  /** A sequence of messages passes the nonce check and does not wrap around exactly when its nonces are
      consecutive and start at the nonce asked for, which zero leaves open. */
  lemma {:induction false} AcceptedIffConsecutive(next: u64, ps: seq<Packet>)
    ensures UpdateNonce(next, ps).Ok? && NoWrap(ps) <==> Consecutive(ps) && StartsAt(ps, next)
  {
    if UpdateNonce(next, ps).Ok? && NoWrap(ps) {
      AcceptedIsConsecutive(next, ps);
    }
    if Consecutive(ps) && StartsAt(ps, next) {
      ConsecutiveIsAccepted(next, ps);
    }
  }

  lemma {:induction false} UpdateNonceConcat(next: u64, ps: seq<Packet>, qs: seq<Packet>)
    ensures UpdateNonce(next, ps + qs) ==
            match UpdateNonce(next, ps) case Err(e) => Err(e) case Ok(n) => UpdateNonce(n, qs)
  {
    if qs == [] {
      assert ps + qs == ps;
    } else {
      UpdateNonceConcat(next, ps, qs[..|qs| - 1]);
      assert (ps + qs)[..|ps + qs| - 1] == ps + qs[..|qs| - 1];
    }
  }

  lemma {:induction false} ForConcat(ps: seq<Packet>, qs: seq<Packet>, k: ClientKey)
    ensures For(ps + qs, k) == For(ps, k) + For(qs, k)
  {
    if qs == [] {
      assert ps + qs == ps;
    } else {
      ForConcat(ps, qs[..|qs| - 1], k);
      assert (ps + qs)[..|ps + qs| - 1] == ps + qs[..|qs| - 1];
    }
  }

  lemma AcceptMore(next: u64, s: Progress, a: Answer)
    requires UpdateNonce(next, s.relayed) == Ok(s.next)
    ensures UpdateNonce(next, Poll(s, a).relayed) == Ok(Poll(s, a).next)
  {
    if a.Output? {
      UpdateNonceConcat(next, s.relayed, Packets(a.output));
    }
  }

  /** Everything a poller ever relays passes the nonce check as one sequence. */
  lemma {:induction false} RelayedIsAccepted(answers: seq<Answer>)
    ensures var r := PollAll(NEW_POLLER, answers); UpdateNonce(0, r.relayed) == Ok(r.next)
  {
    if answers != [] {
      var front := answers[..|answers| - 1];
      RelayedIsAccepted(front);
      AcceptMore(0, PollAll(NEW_POLLER, front), answers[|answers| - 1]);
    }
  }

  /** Every message that is relayed comes out of an answer. */
  lemma {:induction false} RelayedOrigin(answers: seq<Answer>, y: nat) returns (x: nat, z: nat)
    requires y < |PollAll(NEW_POLLER, answers).relayed|
    ensures x < |answers| && answers[x].Output? && z < |answers[x].output.messages|
    ensures var p, m := PollAll(NEW_POLLER, answers).relayed[y], answers[x].output.messages[z];
            p.clientKey == m.clientKey && IsFrom(answers[x].output, m, p.message)
  {
    var front, last := answers[..|answers| - 1], answers[|answers| - 1];
    var before := PollAll(NEW_POLLER, front).relayed;
    if y < |before| {
      x, z := RelayedOrigin(front, y);
    } else {
      x, z := |answers| - 1, y - |before|;
    }
  }

  /** Whatever the canister answers, the messages relayed over the poller's whole life have consecutive nonces,
      if and only if none but the last carries the largest 64-bit nonce. */
  lemma WholeRunConsecutive(answers: seq<Answer>)
    ensures var relayed := PollAll(NEW_POLLER, answers).relayed; Consecutive(relayed) <==> NoWrap(relayed)
  {
    RelayedIsAccepted(answers);
    AcceptedIffConsecutive(0, PollAll(NEW_POLLER, answers).relayed);
  }

  /** A batch is relayed whole or not at all. It is refused, which ends the poller, exactly when
      its nonces are not consecutive from the one asked for (as long as they do not wrap around). */
  lemma BatchAllOrNothing(s: Progress, output: CertifiedMessages)
    requires !s.failed
    ensures var r := Poll(s, Output(output));
            && (r.failed ==> r.relayed == s.relayed)
            && (!r.failed ==> r.relayed == s.relayed + Packets(output))
            && (NoWrap(Packets(output)) ==>
                  (!r.failed <==> Consecutive(Packets(output)) && StartsAt(Packets(output), s.next)))
  {
    AcceptedIffConsecutive(s.next, Packets(output));
    if output.messages == [] {
      assert Packets(output) == [];
      assert s.relayed + [] == s.relayed;
    }
  }

  // ---- What ends a poller, and with which error ----

  /** The message at `i` is the first that the check refuses: its nonce cannot be read, or it is not the one
      expected. */
  ghost predicate RefusedAt(next: u64, ps: seq<Packet>, i: nat) {
    && i < |ps| && UpdateNonce(next, ps[..i]).Ok?
    && var expected := UpdateNonce(next, ps[..i]).value;
       Nonce(ps[i]).None? || (expected != 0 && Nonce(ps[i]).value != expected)
  }

  /** A batch is refused if and only if one of its messages is the first to be refused, and the error is that
      message's. */
  lemma {:induction false} RefusedExactly(next: u64, ps: seq<Packet>)
    ensures UpdateNonce(next, ps).Err? <==> exists i :: 0 <= i < |ps| && RefusedAt(next, ps, i)
    ensures forall i :: 0 <= i < |ps| && RefusedAt(next, ps, i) ==>
              match UpdateNonce(next, ps)
              case Err(UnreadableNonce) => Nonce(ps[i]).None?
              case Err(NonConsecutiveNonce(expected, got)) =>
                UpdateNonce(next, ps[..i]) == Ok(expected) && Nonce(ps[i]) == Some(got)
              case _ => false
  {
    if ps != [] {
      var n := |ps| - 1;
      var front := ps[..n];
      RefusedExactly(next, front);
      forall i | 0 <= i < n
        ensures RefusedAt(next, ps, i) <==> RefusedAt(next, front, i)
        ensures ps[..i] == front[..i] && ps[i] == front[i]
      {
        assert ps[..i] == front[..i];
      }
      if exists i :: 0 <= i < n && RefusedAt(next, front, i) {
        var i :| 0 <= i < n && RefusedAt(next, front, i);
        assert RefusedAt(next, ps, i);
      }
      assert UpdateNonce(next, front).Ok? ==> (RefusedAt(next, ps, n) <==> UpdateNonce(next, ps).Err?);
    }
  }

  /** The answer ends the poller: an agent error that is not recoverable, another error, or a batch that is refused. */
  ghost predicate IsFatal(next: u64, a: Answer) {
    || a == AgentError(false) || a == CandidError || a == CdkError
    || (a.Output? && exists i :: 0 <= i < |a.output.messages| && RefusedAt(next, Packets(a.output), i))
  }

  /** A poll fails if and only if its answer is one of those. */
  lemma FailsExactly(s: Progress, a: Answer)
    requires !s.failed
    ensures Poll(s, a).failed <==> IsFatal(s.next, a)
  {
    if a.Output? {
      RefusedExactly(s.next, Packets(a.output));
    }
  }

  // ---- Timeouts, recoverable errors and empty answers ----

  predicate IsStutter(a: Answer) {
    a == TimeoutElapsed || a == AgentError(true) || (a.Output? && a.output.messages == [])
  }

  /** Timeouts, recoverable errors and empty answers are all that changes nothing. */
  lemma StuttersExactly(a: Answer)
    ensures (forall s: Progress :: !s.failed ==> Poll(s, a) == s) <==> IsStutter(a)
  {
    if !IsStutter(a) {
      assert Poll(NEW_POLLER, a) != NEW_POLLER;
    } else {
      forall s: Progress | !s.failed
        ensures Poll(s, a) == s
      {
        StutterChangesNothing(s, a);
      }
    }
  }

  function WithoutStutters(answers: seq<Answer>): seq<Answer> {
    if answers == [] then []
    else WithoutStutters(answers[..|answers| - 1]) +
         if IsStutter(answers[|answers| - 1]) then [] else [answers[|answers| - 1]]
  }

  /** Timeouts, recoverable errors and empty answers can be inserted or deleted anywhere:
      nonce, relayed log and failure only depend on the other answers. */
  lemma {:induction false} StutterInvariance(s: Progress, answers: seq<Answer>)
    ensures PollAll(s, answers) == PollAll(s, WithoutStutters(answers))
  {
    if answers != [] {
      var front, last := answers[..|answers| - 1], answers[|answers| - 1];
      StutterInvariance(s, front);
      if !IsStutter(last) {
        assert (WithoutStutters(front) + [last])[..|WithoutStutters(front)|] == WithoutStutters(front);
      } else {
        assert WithoutStutters(answers) == WithoutStutters(front);
      }
    }
  }

  /** The answer is a piece of the canister's queue that starts where the poller asked to start. */
  ghost predicate Serves(queue: seq<Packet>, next: u64, a: Answer) {
    IsStutter(a) ||
    (a.Output? && exists i, j :: 0 <= i < j <= |queue| && Packets(a.output) == queue[i..j]
                                 && (next != 0 ==> Nonce(queue[i]) == Some(next)))
  }

  ghost predicate BelowLimit(ps: seq<Packet>) {
    forall i :: 0 <= i < |ps| ==> Nonce(ps[i]) != Some(U64_MAX)
  }

  /** Against a canister that serves its queue, whose nonces stay below the 64-bit limit, a poller never fails,
      and what it relays is one contiguous piece of the queue: nothing is skipped and nothing repeated. */
  lemma {:induction false} RelaysAPieceOfTheQueue(queue: seq<Packet>, answers: seq<Answer>) returns (a: nat, b: nat)
    requires Consecutive(queue)
    requires BelowLimit(queue)
    requires forall i :: 0 <= i < |answers| ==> Serves(queue, PollAll(NEW_POLLER, answers[..i]).next, answers[i])
    ensures var r := PollAll(NEW_POLLER, answers);
            && !r.failed
            && a <= b <= |queue| && r.relayed == queue[a..b]
            && r.next == if a == b then 0 else Nonce(queue[b - 1]).value + 1
  {
    hide UpdateNonce, GetNonceFromMessage, Packets, Poll;
    if answers == [] {
      a, b := 0, 0;
    } else {
      var front, last := answers[..|answers| - 1], answers[|answers| - 1];
      forall i | 0 <= i < |front|
        ensures Serves(queue, PollAll(NEW_POLLER, front[..i]).next, front[i])
      {
        assert front[..i] == answers[..i];
      }
      a, b := RelaysAPieceOfTheQueue(queue, front);
      var s := PollAll(NEW_POLLER, front);
      assert Serves(queue, s.next, last);
      if !IsStutter(last) {
        var i, j :| 0 <= i < j <= |queue| && Packets(last.output) == queue[i..j]
                    && (s.next != 0 ==> Nonce(queue[i]) == Some(s.next));
        a := RelaysAnotherPiece(queue, s, last.output, a, b, i, j);
        b := j;
      } else {
        StutterChangesNothing(s, last);
      }
    }
  }

  lemma StutterChangesNothing(s: Progress, a: Answer)
    requires IsStutter(a)
    ensures Poll(s, a) == s
  {}

  lemma NextIndex(queue: seq<Packet>, i: nat, b: nat)
    requires i < |queue| && 0 < b <= |queue| && Consecutive(queue)
    requires Nonce(queue[i]).value == Nonce(queue[b - 1]).value + 1
    ensures i == b
  {}

  lemma PieceAccepted(queue: seq<Packet>, next: u64, i: nat, j: nat)
    requires i < j <= |queue| && Consecutive(queue) && BelowLimit(queue)
    requires next != 0 ==> Nonce(queue[i]) == Some(next)
    ensures UpdateNonce(next, queue[i..j]) == Ok(Nonce(queue[j - 1]).value + 1)
  {
    var piece := queue[i..j];
    SliceConsecutive(queue, i, j);
    assert piece[0] == queue[i] && piece[|piece| - 1] == queue[j - 1];
    ConsecutiveIsAccepted(next, piece);
    AcceptedShape(next, piece);
  }

  lemma PollAccepts(s: Progress, output: CertifiedMessages, piece: seq<Packet>)
    requires !s.failed && piece != [] && Packets(output) == piece && UpdateNonce(s.next, piece).Ok?
    ensures Poll(s, Output(output)) == Progress(UpdateNonce(s.next, piece).value, s.relayed + piece, false)
  {
    assert |output.messages| == |piece|;
  }

  lemma RelaysAnotherPiece(queue: seq<Packet>, s: Progress, output: CertifiedMessages, a: nat, b: nat, i: nat, j: nat)
    returns (a': nat)
    requires Consecutive(queue) && BelowLimit(queue)
    requires !s.failed && a <= b <= |queue| && s.relayed == queue[a..b]
    requires s.next == if a == b then 0 else Nonce(queue[b - 1]).value + 1
    requires i < j <= |queue| && Packets(output) == queue[i..j] && (s.next != 0 ==> Nonce(queue[i]) == Some(s.next))
    ensures a' < j
    ensures Poll(s, Output(output)) == Progress(Nonce(queue[j - 1]).value + 1, queue[a'..j], false)
  {
    PieceAccepted(queue, s.next, i, j);
    PollAccepts(s, output, queue[i..j]);
    if a == b {
      a' := i;
      assert queue[a..b] + queue[i..j] == queue[i..j];
    } else {
      a' := a;
      NextIndex(queue, i, b);
      assert queue[a..b] + queue[b..j] == queue[a..j];
    }
  }

  lemma SliceConsecutive(queue: seq<Packet>, i: nat, j: nat)
    requires i <= j <= |queue| && Consecutive(queue)
    ensures Consecutive(queue[i..j])
  {
    assert forall x :: 0 <= x < j - i ==> queue[i..j][x] == queue[i + x];
  }

  /** The nonces of the messages one client gets are strictly increasing when the whole log is consecutive. */
  ghost predicate Increasing(ms: seq<CanisterToClientMessage>) {
    && (forall i :: 0 <= i < |ms| ==> GetNonceFromMessage(ms[i].key).Some?)
    && (forall i, j :: 0 <= i < j < |ms| ==>
          GetNonceFromMessage(ms[i].key).value < GetNonceFromMessage(ms[j].key).value)
  }

  lemma {:induction false} ForIncreasing(log: seq<Packet>, k: ClientKey)
    requires Consecutive(log)
    ensures Increasing(For(log, k))
    ensures forall i :: 0 <= i < |For(log, k)| ==>
              GetNonceFromMessage(For(log, k)[i].key).value <= Nonce(log[|log| - 1]).value
  {
    if log != [] {
      var front := log[..|log| - 1];
      SliceConsecutive(log, 0, |log| - 1);
      ForIncreasing(front, k);
      if front != [] {
        assert Nonce(log[|log| - 1]).value == Nonce(front[|front| - 1]).value + 1;
      }
    }
  }
}
