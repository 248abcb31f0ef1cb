/** The gateway state's operations at the grain of their locks
    (src/gateway-state/src/lib.rs:30-232).

    Any number of threads call operations on the outer map. An operation waits for the write lock of its shard,
    looks its canister up, works on what it found, and releases the lock; steps of different threads interleave
    in any way the locks allow. Every such execution is shown to be one of atomic operations. */
module LockedGateway {
  import opened Basics
  import opened Gateway

  datatype Pc<!S> =
    | Idle
    | Waiting(op: Op<S>)
    | Locked(op: Op<S>)
    | Located(op: Op<S>, found: Option<nat>)
    | Prepared(op: Op<S>, clients: map<ClientKey, S>)
    | Checked(op: Op<S>, gen: nat, empty: bool)
    | Finished(op: Op<S>, response: Response, at: nat)

  /** `since` is the length of the history when the pending operation was called. */
  datatype Thread<!S> = Thread(pc: Pc<S>, since: nat)

  datatype Entry<!S> = Entry(thread: nat, op: Op<S>, response: Response)

  datatype State<!S> = State(
    data: map<CanisterId, nat>,
    heap: seq<map<ClientKey, S>>,
    locks: map<nat, nat>,
    threads: seq<Thread<S>>,
    history: seq<Entry<S>>)

  datatype Action<!S> =
    | Call(thread: nat, op: Op<S>)
    | Acquire(thread: nat)
    | LookUp(thread: nat)
    | Work(thread: nat)
    | Release(thread: nat)

  ghost function Shared<S>(s: State<S>): Gateway<S> { Gateway(s.data, s.heap) }

  ghost predicate Holds<S>(pc: Pc<S>) { !pc.Idle? && !pc.Waiting? }

  function SetPc<S>(s: State<S>, t: nat, pc: Pc<S>): State<S>
    requires t < |s.threads|
  {
    s.(threads := s.threads[t := s.threads[t].(pc := pc)])
  }

  /** Records the response of the operation that just took effect. */
  function Finish<S>(s: State<S>, t: nat, op: Op<S>, r: Response): State<S>
    requires t < |s.threads|
  {
    SetPc(s, t, Finished(op, r, |s.history|)).(history := s.history + [Entry(t, op, r)])
  }

  /** The clients of a poller state (every reference is to an allocated one, as `Inv` says). */
  function Clients<S>(s: State<S>, g: nat): map<ClientKey, S> {
    if g < |s.heap| then s.heap[g] else map[]
  }

  function SetClients<S>(s: State<S>, g: nat, clients: map<ClientKey, S>): State<S> {
    if g < |s.heap| then s.(heap := s.heap[g := clients]) else s
  }

  /** One step on what was found, using only what the thread has read so far. */
  function WorkStep<S>(s: State<S>, t: nat): State<S>
    requires t < |s.threads|
  {
    match s.threads[t].pc
    case Located(InsertOp(c, k, tx), Some(g)) =>
      Finish(SetClients(s, g, Clients(s, g)[k := tx]), t, InsertOp(c, k, tx), NewPollerState(None))
    case Located(InsertOp(c, k, tx), None) =>
      // a new poller state, not shared yet
      SetPc(s, t, Prepared(InsertOp(c, k, tx), map[k := tx]))
    case Prepared(op, clients) =>
      Finish(s.(data := s.data[op.canister := |s.heap|], heap := s.heap + [clients]), t, op,
          NewPollerState(Some(|s.heap|)))
    case Located(RemoveClientOp(c, k), Some(g)) =>
      Finish(SetClients(s, g, Clients(s, g) - {k}), t, RemoveClientOp(c, k),
             if k in Clients(s, g) then Returned else Panicked)
    case Located(RemoveClientIfExistsOp(c, k), Some(g)) =>
      Finish(SetClients(s, g, Clients(s, g) - {k}), t, RemoveClientIfExistsOp(c, k),
             ClientRemoval(if k in Clients(s, g) then Removed(k) else Vacant))
    case Located(RemoveCanisterIfEmptyOp(c), Some(g)) =>
      SetPc(s, t, Checked(RemoveCanisterIfEmptyOp(c), g, Clients(s, g).Keys == {}))
    case Checked(op, _, true) =>
      Finish(s.(data := s.data - {op.canister}), t, op, CanisterRemoval(Empty))
    case Checked(op, _, false) =>
      Finish(s, t, op, CanisterRemoval(NotEmpty))
    case Located(RemoveFailedCanisterOp(c), Some(_)) =>
      Finish(s.(data := s.data - {c}), t, RemoveFailedCanisterOp(c), Returned)
    case Located(RemoveClientOp(c, k), None) => Finish(s, t, RemoveClientOp(c, k), Returned)
    case Located(RemoveClientIfExistsOp(c, k), None) =>
      Finish(s, t, RemoveClientIfExistsOp(c, k), ClientRemoval(Vacant))
    case Located(RemoveCanisterIfEmptyOp(c), None) =>
      Finish(s, t, RemoveCanisterIfEmptyOp(c), CanisterRemoval(NotEmpty))
    case Located(RemoveFailedCanisterOp(c), None) => Finish(s, t, RemoveFailedCanisterOp(c), Panicked)
    case _ => s
  }

  ghost predicate Enabled<S>(shardOf: CanisterId -> nat, s: State<S>, a: Action<S>) {
    a.thread < |s.threads| &&
    var pc := s.threads[a.thread].pc;
    match a
    case Call(_, _) => pc.Idle?
    case Acquire(_) => pc.Waiting? && shardOf(pc.op.canister) !in s.locks
    case LookUp(_) => pc.Locked?
    case Work(_) => pc.Located? || pc.Prepared? || pc.Checked?
    case Release(_) => pc.Finished?
  }

  ghost function Apply<S>(shardOf: CanisterId -> nat, s: State<S>, a: Action<S>): State<S>
    requires Enabled(shardOf, s, a)
  {
    var t := a.thread;
    var pc := s.threads[t].pc;
    match a
    case Call(_, op) => s.(threads := s.threads[t := Thread(Waiting(op), |s.history|)])
    case Acquire(_) => SetPc(s.(locks := s.locks[shardOf(pc.op.canister) := t]), t, Locked(pc.op))
    case LookUp(_) =>
      SetPc(s, t, Located(pc.op, if pc.op.canister in s.data then Some(s.data[pc.op.canister]) else None))
    case Work(_) => WorkStep(s, t)
    case Release(_) => SetPc(s.(locks := s.locks - {shardOf(pc.op.canister)}), t, Idle)
  }

  /** A thread that holds its lock has read nothing that has changed since. */
  ghost predicate ThreadInv<S>(shardOf: CanisterId -> nat, s: State<S>, t: nat)
    requires t < |s.threads|
  {
    var pc := s.threads[t].pc;
    && (Holds(pc) ==> shardOf(pc.op.canister) in s.locks && s.locks[shardOf(pc.op.canister)] == t)
    && s.threads[t].since <= |s.history|
    && match pc
       case Located(op, found) =>
         found == (if op.canister in s.data then Some(s.data[op.canister]) else None)
         && (found.Some? ==> found.value < |s.heap|)
       case Prepared(op, clients) =>
         op.InsertOp? && op.canister !in s.data && clients == map[op.key := op.sender]
       case Checked(op, g, empty) =>
         op.RemoveCanisterIfEmptyOp? && op.canister in s.data && s.data[op.canister] == g < |s.heap|
         && empty == (s.heap[g].Keys == {})
       case Finished(op, r, at) =>
         s.threads[t].since <= at < |s.history| && s.history[at] == Entry(t, op, r)
       case _ => true
  }

  ghost predicate Inv<S>(shardOf: CanisterId -> nat, s: State<S>) {
    && WellFormed(Shared(s)) && Unshared(Shared(s))
    && forall t :: 0 <= t < |s.threads| ==> ThreadInv(shardOf, s, t)
  }

  /** Threads inside a critical section of one shard are one thread. */
  lemma MutualExclusion<S>(shardOf: CanisterId -> nat, s: State<S>, t: nat, u: nat)
    requires Inv(shardOf, s) && t < |s.threads| && u < |s.threads|
    requires Holds(s.threads[t].pc) && Holds(s.threads[u].pc)
    requires shardOf(s.threads[t].pc.op.canister) == shardOf(s.threads[u].pc.op.canister)
    ensures t == u
  {
    assert ThreadInv(shardOf, s, t) && ThreadInv(shardOf, s, u);
  }

  /** From `s` to `s'` the pending operation of `t` takes effect, atomically and with the response recorded for it. */
  ghost predicate TakesEffect<S>(s: State<S>, s': State<S>, t: nat)
    requires WellFormed(Shared(s))
  {
    && t < |s.threads| && Holds(s.threads[t].pc)
    && |s'.history| == |s.history| + 1
    && var r := s'.history[|s.history|].response;
       s'.history == s.history + [Entry(t, s.threads[t].pc.op, r)]
       && (Shared(s'), r) == Perform(Shared(s), s.threads[t].pc.op)
  }

  ghost predicate Stutters<S>(s: State<S>, s': State<S>) {
    Shared(s') == Shared(s) && s'.history == s.history
  }

  /** A step either leaves shared state and history alone, or it is a whole atomic operation. */
  lemma StepRefinesAtomic<S>(shardOf: CanisterId -> nat, s: State<S>, a: Action<S>)
    requires Inv(shardOf, s) && Enabled(shardOf, s, a)
    ensures Stutters(s, Apply(shardOf, s, a)) || TakesEffect(s, Apply(shardOf, s, a), a.thread)
  {
    var t := a.thread;
    assert ThreadInv(shardOf, s, t);
    var pc := s.threads[t].pc;
    if pc.Located? && pc.found.Some? && (pc.op.RemoveClientOp? || pc.op.RemoveClientIfExistsOp?) {
      var g := pc.found.value;
      if pc.op.key !in s.heap[g] {
        assert s.heap[g] - {pc.op.key} == s.heap[g];
        assert s.heap[g := s.heap[g]] == s.heap;
      }
    }
  }

  /** What an operation on one canister leaves alone. */
  lemma PerformFrame<S>(gw: Gateway<S>, op: Op<S>, c: CanisterId)
    requires WellFormed(gw) && Unshared(gw) && c != op.canister
    ensures var gw' := Perform(gw, op).0;
            && |gw.heap| <= |gw'.heap|
            && (c in gw'.data <==> c in gw.data)
            && (c in gw.data ==> gw'.data[c] == gw.data[c] && gw'.heap[gw.data[c]] == gw.heap[gw.data[c]])
  {}

  lemma StepKeepsOwnThread<S>(shardOf: CanisterId -> nat, s: State<S>, a: Action<S>)
    requires Inv(shardOf, s) && Enabled(shardOf, s, a)
    ensures ThreadInv(shardOf, Apply(shardOf, s, a), a.thread)
  {
    assert ThreadInv(shardOf, s, a.thread);
  }

  lemma StepShape<S>(shardOf: CanisterId -> nat, s: State<S>, a: Action<S>, u: nat)
    requires Inv(shardOf, s) && Enabled(shardOf, s, a)
    requires u < |s.threads| && u != a.thread
    ensures var s' := Apply(shardOf, s, a);
            && |s'.threads| == |s.threads| && s'.threads[u] == s.threads[u]
            && s.history <= s'.history
            && forall h :: h in s.locks && s.locks[h] == u ==> h in s'.locks && s'.locks[h] == u
  {
    assert ThreadInv(shardOf, s, a.thread);
  }

  /** The lock keeps what another thread has read valid. */
  lemma StepKeepsOtherThread<S>(shardOf: CanisterId -> nat, s: State<S>, a: Action<S>, u: nat)
    requires Inv(shardOf, s) && Enabled(shardOf, s, a)
    requires u < |s.threads| && u != a.thread
    ensures u < |Apply(shardOf, s, a).threads| && ThreadInv(shardOf, Apply(shardOf, s, a), u)
  {
    hide Apply;
    var s' := Apply(shardOf, s, a);
    StepShape(shardOf, s, a, u);
    StepRefinesAtomic(shardOf, s, a);
    assert ThreadInv(shardOf, s, u);
    if TakesEffect(s, s', a.thread) && Holds(s.threads[u].pc) {
      assert ThreadInv(shardOf, s, a.thread);
      PerformFrame(Shared(s), s.threads[a.thread].pc.op, s.threads[u].pc.op.canister);
    }
  }

  lemma StepKeepsShared<S>(shardOf: CanisterId -> nat, s: State<S>, a: Action<S>)
    requires Inv(shardOf, s) && Enabled(shardOf, s, a)
    ensures WellFormed(Shared(Apply(shardOf, s, a))) && Unshared(Shared(Apply(shardOf, s, a)))
  {
    hide Apply, Perform, Enabled;
    StepRefinesAtomic(shardOf, s, a);
    if TakesEffect(s, Apply(shardOf, s, a), a.thread) {
      PerformUnshared(Shared(s), s.threads[a.thread].pc.op);
    }
  }

  lemma StepPreservesInv<S>(shardOf: CanisterId -> nat, s: State<S>, a: Action<S>)
    requires Inv(shardOf, s) && Enabled(shardOf, s, a)
    ensures Inv(shardOf, Apply(shardOf, s, a))
  {
    hide Apply, Perform, ThreadInv, Enabled;
    var s' := Apply(shardOf, s, a);
    StepKeepsShared(shardOf, s, a);
    forall u | 0 <= u < |s'.threads|
      ensures ThreadInv(shardOf, s', u)
    {
      StepKeepsThread(shardOf, s, a, u);
    }
  }

  lemma ThreadsStay<S>(shardOf: CanisterId -> nat, s: State<S>, a: Action<S>)
    requires Enabled(shardOf, s, a)
    ensures |Apply(shardOf, s, a).threads| == |s.threads|
  {}

  lemma StepKeepsThread<S>(shardOf: CanisterId -> nat, s: State<S>, a: Action<S>, u: nat)
    requires Inv(shardOf, s) && Enabled(shardOf, s, a) && u < |Apply(shardOf, s, a).threads|
    ensures ThreadInv(shardOf, Apply(shardOf, s, a), u)
  {
    hide Apply, ThreadInv, Inv, Enabled;
    ThreadsStay(shardOf, s, a);
    if u == a.thread {
      StepKeepsOwnThread(shardOf, s, a);
    } else {
      StepKeepsOtherThread(shardOf, s, a, u);
    }
  }

  ghost predicate Execution<S>(shardOf: CanisterId -> nat, ss: seq<State<S>>, actions: seq<Action<S>>) {
    && |ss| == |actions| + 1
    && ss[0].data == map[] && ss[0].heap == [] && ss[0].locks == map[] && ss[0].history == []
    && (forall t :: 0 <= t < |ss[0].threads| ==> ss[0].threads[t] == Thread(Idle, 0))
    && forall i :: 0 <= i < |actions| ==>
         Enabled(shardOf, ss[i], actions[i]) && ss[i + 1] == Apply(shardOf, ss[i], actions[i])
  }

  ghost function Ops<S>(history: seq<Entry<S>>): seq<Op<S>> {
    seq(|history|, i requires 0 <= i < |history| => history[i].op)
  }

  lemma {:induction false} ExecutionInv<S>(shardOf: CanisterId -> nat, ss: seq<State<S>>, actions: seq<Action<S>>,
                                           i: nat)
    requires Execution(shardOf, ss, actions) && i < |ss|
    ensures Inv(shardOf, ss[i])
  {
    if i > 0 {
      ExecutionInv(shardOf, ss, actions, i - 1);
      StepPreservesInv(shardOf, ss[i - 1], actions[i - 1]);
    }
  }

  /** Every execution is one of atomic operations: performing, one after the other, the operations in the order in
      which they took effect gives the same shared state and the same responses. */
  lemma {:induction false} ExecutionIsAtomic<S>(shardOf: CanisterId -> nat, ss: seq<State<S>>,
                                                actions: seq<Action<S>>, i: nat)
    requires Execution(shardOf, ss, actions) && i < |ss|
    ensures var ops := Ops(ss[i].history);
            && Replay(ops) == Shared(ss[i])
            && forall j :: 0 <= j < |ops| ==> ResponseAt(ops, j) == ss[i].history[j].response
  {
    hide Apply, Enabled, Perform, Inv;
    if i > 0 {
      var s, s' := ss[i - 1], ss[i];
      ExecutionIsAtomic(shardOf, ss, actions, i - 1);
      ExecutionInv(shardOf, ss, actions, i - 1);
      StepRefinesAtomic(shardOf, s, actions[i - 1]);
      if s'.history != s.history {
        AtomicStep(s, s', actions[i - 1].thread);
      }
    }
  }

  lemma AtomicStep<S>(s: State<S>, s': State<S>, t: nat)
    requires Replay(Ops(s.history)) == Shared(s) && TakesEffect(s, s', t)
    requires forall j :: 0 <= j < |s.history| ==> ResponseAt(Ops(s.history), j) == s.history[j].response
    ensures Replay(Ops(s'.history)) == Shared(s')
    ensures forall j :: 0 <= j < |s'.history| ==> ResponseAt(Ops(s'.history), j) == s'.history[j].response
  {
    hide Perform;
    var e := s'.history[|s.history|];
    var ops, ops' := Ops(s.history), Ops(s'.history);
    assert ops' == ops + [e.op];
    assert ops'[..|ops|] == ops;
    forall j | 0 <= j < |ops|
      ensures ResponseAt(ops', j) == s'.history[j].response
    {
      assert ops'[..j] == ops[..j];
    }
  }

  /** An operation that is about to return has taken effect since it was called, and returns the response recorded then:
      the order of the history respects the order of calls and returns. */
  lemma EffectIsWithinCall<S>(shardOf: CanisterId -> nat, ss: seq<State<S>>, actions: seq<Action<S>>, i: nat)
    requires Execution(shardOf, ss, actions) && i < |actions| && actions[i].Release?
    ensures var t := ss[i].threads[actions[i].thread];
            && t.since <= t.pc.at < |ss[i].history|
            && ss[i].history[t.pc.at] == Entry(actions[i].thread, t.pc.op, t.pc.response)
            && ResponseAt(Ops(ss[i].history), t.pc.at) == t.pc.response
  {
    ExecutionInv(shardOf, ss, actions, i);
    ExecutionIsAtomic(shardOf, ss, actions, i);
    assert ThreadInv(shardOf, ss[i], actions[i].thread);
  }

  /** No client joins a dying poller: once some thread has been told that the poller state of its canister was empty
      and is gone, nothing any thread does ever puts a client into it. */
  lemma NoClientJoinsADyingPoller<S>(shardOf: CanisterId -> nat, ss: seq<State<S>>, actions: seq<Action<S>>, i: nat,
                                     j: nat)
    requires Execution(shardOf, ss, actions) && i < |ss| && j < |ss[i].history|
    requires ss[i].history[j].op.RemoveCanisterIfEmptyOp? && ss[i].history[j].response == CanisterRemoval(Empty)
    ensures var ops := Ops(ss[i].history);
            ops[j].canister in Replay(ops[..j]).data &&
            var g := Replay(ops[..j]).data[ops[j].canister];
            g < |ss[i].heap| && ss[i].heap[g].Keys == {} && g !in ss[i].data.Values
  {
    ExecutionIsAtomic(shardOf, ss, actions, i);
    var ops := Ops(ss[i].history);
    EmptiedStaysEmpty(ops, j);
    var g := Replay(ops[..j]).data[ops[j].canister];
    assert Current(Shared(ss[i]), g) <==> g in ss[i].data.Values;
  }
}
