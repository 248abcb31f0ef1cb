/** The gateway state as a value, and what each of its operations does atomically
    (src/gateway-state/src/lib.rs:45-232).

    Every poller state is an allocation of its own, shared by reference. Its generation is the order
    in which it was allocated, and `heap[g]` is what it holds, whether or not the map still refers to it. */
module Gateway {
  import opened Basics

  datatype Gateway<!S> = Gateway(data: map<CanisterId, nat>, heap: seq<map<ClientKey, S>>)

  datatype ClientRemovalResult = Removed(clientKey: ClientKey) | Vacant

  datatype CanisterRemovalResult = Empty | NotEmpty

  function Initial<S>(): Gateway<S> { Gateway(map[], []) }

  /** The map refers to allocated poller states. */
  ghost predicate WellFormed<S>(gw: Gateway<S>) {
    forall c :: c in gw.data ==> gw.data[c] < |gw.heap|
  }

  /** No two canisters share a poller state. */
  ghost predicate Unshared<S>(gw: Gateway<S>) {
    forall c, d :: c in gw.data && d in gw.data && gw.data[c] == gw.data[d] ==> c == d
  }

  ghost predicate Current<S>(gw: Gateway<S>, g: nat) {
    exists c :: c in gw.data && gw.data[c] == g
  }

  /** Who is in the map under a canister and a key. */
  ghost function Find<S>(gw: Gateway<S>, c: CanisterId, k: ClientKey): Option<S>
    requires WellFormed(gw)
  {
    if c in gw.data && k in gw.heap[gw.data[c]] then Some(gw.heap[gw.data[c]][k]) else None
  }

  /** Adds a client. The result is the new poller state when the caller has to start the poller. */
  function Insert<S>(gw: Gateway<S>, c: CanisterId, k: ClientKey, s: S): (r: (Gateway<S>, Option<nat>))
    requires WellFormed(gw)
    ensures WellFormed(r.0)
    ensures r.1 == if c in gw.data then None else Some(|gw.heap|)
  {
    if c in gw.data then
      var g := gw.data[c];
      (gw.(heap := gw.heap[g := gw.heap[g][k := s]]), None)
    else
      (Gateway(gw.data[c := |gw.heap|], gw.heap + [map[k := s]]), Some(|gw.heap|))
  }

  /** Removes a client that is expected to be present. False stands for the panic when it is not. */
  function RemoveClient<S>(gw: Gateway<S>, c: CanisterId, k: ClientKey): (r: (Gateway<S>, bool))
    requires WellFormed(gw)
    ensures WellFormed(r.0)
  {
    if c in gw.data then
      var g := gw.data[c];
      if k in gw.heap[g] then (gw.(heap := gw.heap[g := gw.heap[g] - {k}]), true)
      else (gw, false)
    else (gw, true)
  }

  function RemoveClientIfExists<S>(gw: Gateway<S>, c: CanisterId, k: ClientKey): (r: (Gateway<S>, ClientRemovalResult))
    requires WellFormed(gw)
    ensures WellFormed(r.0)
  {
    if c in gw.data then
      var g := gw.data[c];
      if k in gw.heap[g] then (gw.(heap := gw.heap[g := gw.heap[g] - {k}]), Removed(k))
      else (gw, Vacant)
    else (gw, Vacant)
  }

  /** An absent canister also answers `NotEmpty`. */
  function RemoveCanisterIfEmpty<S>(gw: Gateway<S>, c: CanisterId): (r: (Gateway<S>, CanisterRemovalResult))
    requires WellFormed(gw)
    ensures WellFormed(r.0)
  {
    if c in gw.data && gw.heap[gw.data[c]].Keys == {} then (gw.(data := gw.data - {c}), Empty)
    else (gw, NotEmpty)
  }

  /** False stands for the panic when the canister is not in the map. */
  function RemoveFailedCanister<S>(gw: Gateway<S>, c: CanisterId): (r: (Gateway<S>, bool))
    requires WellFormed(gw)
    ensures WellFormed(r.0)
  {
    if c in gw.data then (gw.(data := gw.data - {c}), true) else (gw, false)
  }

  // ---- Histories of operations ----

  datatype Op<!S> =
    | InsertOp(canister: CanisterId, key: ClientKey, sender: S)
    | RemoveClientOp(canister: CanisterId, key: ClientKey)
    | RemoveClientIfExistsOp(canister: CanisterId, key: ClientKey)
    | RemoveCanisterIfEmptyOp(canister: CanisterId)
    | RemoveFailedCanisterOp(canister: CanisterId)

  datatype Response =
    | NewPollerState(gen: Option<nat>)
    | Returned
    | Panicked
    | ClientRemoval(client: ClientRemovalResult)
    | CanisterRemoval(result: CanisterRemovalResult)

  function Perform<S>(gw: Gateway<S>, op: Op<S>): (r: (Gateway<S>, Response))
    requires WellFormed(gw)
    ensures WellFormed(r.0)
  {
    match op
    case InsertOp(c, k, s) =>
      var (gw', g) := Insert(gw, c, k, s);
      (gw', NewPollerState(g))
    case RemoveClientOp(c, k) =>
      var (gw', ok) := RemoveClient(gw, c, k);
      (gw', if ok then Returned else Panicked)
    case RemoveClientIfExistsOp(c, k) =>
      var (gw', r) := RemoveClientIfExists(gw, c, k);
      (gw', ClientRemoval(r))
    case RemoveCanisterIfEmptyOp(c) =>
      var (gw', r) := RemoveCanisterIfEmpty(gw, c);
      (gw', CanisterRemoval(r))
    case RemoveFailedCanisterOp(c) =>
      var (gw', ok) := RemoveFailedCanister(gw, c);
      (gw', if ok then Returned else Panicked)
  }

  /** What an operation comes to, seen from outside: who is under any canister and key and which canisters have an entry
      afterwards, and what each response says about the state before. */
  lemma OperationsExactly<S>(gw: Gateway<S>, op: Op<S>, c: CanisterId, k: ClientKey)
    requires WellFormed(gw) && Unshared(gw)
    ensures var (gw', r) := Perform(gw, op);
            match op
            case InsertOp(d, l, tx) =>
              && Find(gw', c, k) == (if (c, k) == (d, l) then Some(tx) else Find(gw, c, k))
              && (c in gw'.data <==> c in gw.data || c == d)
              && r.NewPollerState? && (r.gen.Some? <==> d !in gw.data)
              && (c in gw.data ==> gw'.data[c] == gw.data[c])
              && (r.gen.Some? ==> gw'.data[d] == r.gen.value)
            case RemoveClientOp(d, l) =>
              && Find(gw', c, k) == (if (c, k) == (d, l) then None else Find(gw, c, k))
              && gw'.data == gw.data
              && r == if d in gw.data && Find(gw, d, l).None? then Panicked else Returned
            case RemoveClientIfExistsOp(d, l) =>
              && Find(gw', c, k) == (if (c, k) == (d, l) then None else Find(gw, c, k))
              && gw'.data == gw.data
              && r == ClientRemoval(if Find(gw, d, l).Some? then Removed(l) else Vacant)
            case RemoveCanisterIfEmptyOp(d) =>
              && Find(gw', c, k) == Find(gw, c, k)
              && (r == CanisterRemoval(Empty) <==> d in gw.data && forall l :: Find(gw, d, l).None?)
              && gw'.data == (if r == CanisterRemoval(Empty) then gw.data - {d} else gw.data)
              && r.CanisterRemoval?
            case RemoveFailedCanisterOp(d) =>
              && Find(gw', c, k) == (if c == d then None else Find(gw, c, k))
              && gw'.data == gw.data - {d}
              && r == if d in gw.data then Returned else Panicked
  {
    match op {
      case RemoveCanisterIfEmptyOp(d) =>
        if d in gw.data && gw.heap[gw.data[d]].Keys != {} {
          var l :| l in gw.heap[gw.data[d]];
          assert Find(gw, d, l).Some?;
        }
      case RemoveFailedCanisterOp(d) => assert d !in gw.data ==> gw.data - {d} == gw.data;
      case _ =>
    }
  }

  /** The state after a whole history. */
  function Replay<S>(ops: seq<Op<S>>): (gw: Gateway<S>)
    ensures WellFormed(gw)
  {
    if ops == [] then Initial() else Perform(Replay(ops[..|ops| - 1]), ops[|ops| - 1]).0
  }

  /** The response to the `i`-th operation of a history. */
  function ResponseAt<S>(ops: seq<Op<S>>, i: nat): Response
    requires i < |ops|
  {
    Perform(Replay(ops[..i]), ops[i]).1
  }

  /** The operation told its caller to start a poller for `c`. */
  predicate IsStart<S>(op: Op<S>, r: Response, c: CanisterId) {
    op.InsertOp? && op.canister == c && r.NewPollerState? && r.gen.Some?
  }

  /** The operation took the entry of `c` out of the map. */
  predicate IsRemoval<S>(op: Op<S>, r: Response, c: CanisterId) {
    op.canister == c
    && ((op.RemoveCanisterIfEmptyOp? && r == CanisterRemoval(Empty)) || (op.RemoveFailedCanisterOp? && r == Returned))
  }

  function Starts<S>(ops: seq<Op<S>>, c: CanisterId): nat {
    if ops == [] then 0
    else Starts(ops[..|ops| - 1], c) + if IsStart(ops[|ops| - 1], ResponseAt(ops, |ops| - 1), c) then 1 else 0
  }

  function Removals<S>(ops: seq<Op<S>>, c: CanisterId): nat {
    if ops == [] then 0
    else Removals(ops[..|ops| - 1], c) + if IsRemoval(ops[|ops| - 1], ResponseAt(ops, |ops| - 1), c) then 1 else 0
  }

  lemma PerformUnshared<S>(gw: Gateway<S>, op: Op<S>)
    requires WellFormed(gw) && Unshared(gw)
    ensures Unshared(Perform(gw, op).0)
  {}

  lemma {:induction false} ReplayUnshared<S>(ops: seq<Op<S>>)
    ensures Unshared(Replay(ops))
  {
    if ops != [] {
      ReplayUnshared(ops[..|ops| - 1]);
      PerformUnshared(Replay(ops[..|ops| - 1]), ops[|ops| - 1]);
    }
  }

  /** Over any history, pollers asked for are entries removed plus the entry that is there now. */
  lemma {:induction false} CountingLaw<S>(ops: seq<Op<S>>, c: CanisterId)
    ensures Starts(ops, c) == Removals(ops, c) + if c in Replay(ops).data then 1 else 0
  {
    if ops != [] {
      var front := ops[..|ops| - 1];
      CountingLaw(front, c);
      CountingStep(Replay(front), ops[|ops| - 1], c);
    }
  }

  lemma CountingStep<S>(gw: Gateway<S>, op: Op<S>, c: CanisterId)
    requires WellFormed(gw)
    ensures var (gw', r) := Perform(gw, op);
            && (IsStart(op, r, c) ==> c !in gw.data && c in gw'.data)
            && (IsRemoval(op, r, c) ==> c in gw.data && c !in gw'.data)
            && (!IsStart(op, r, c) && !IsRemoval(op, r, c) ==> (c in gw'.data <==> c in gw.data))
  {}

  /** Each poller state handed out is a new allocation: two starts never return the same one. */
  lemma {:induction false} StartsAreFresh<S>(ops: seq<Op<S>>, i: nat, j: nat, g: nat)
    requires i < j < |ops|
    requires ResponseAt(ops, i) == NewPollerState(Some(g))
    ensures ResponseAt(ops, j) != NewPollerState(Some(g))
  {
    StartAllocates(Replay(ops[..i]), ops[i], g);
    assert ops[..i + 1][..i] == ops[..i];
    HeapGrows(ops, i + 1, j);
    if ResponseAt(ops, j) == NewPollerState(Some(g)) {
      StartAllocates(Replay(ops[..j]), ops[j], g);
    }
  }

  lemma StartAllocates<S>(gw: Gateway<S>, op: Op<S>, g: nat)
    requires WellFormed(gw) && Perform(gw, op).1 == NewPollerState(Some(g))
    ensures g == |gw.heap| && |Perform(gw, op).0.heap| == g + 1
  {}

  lemma PerformGrows<S>(gw: Gateway<S>, op: Op<S>)
    requires WellFormed(gw)
    ensures |gw.heap| <= |Perform(gw, op).0.heap|
  {}

  lemma {:induction false} HeapGrows<S>(ops: seq<Op<S>>, i: nat, j: nat)
    requires i <= j <= |ops|
    ensures |Replay(ops[..i]).heap| <= |Replay(ops[..j]).heap|
    decreases j
  {
    hide Perform;
    if i < j {
      HeapGrows(ops, i, j - 1);
      assert ops[..j][..j - 1] == ops[..j - 1];
      PerformGrows(Replay(ops[..j - 1]), ops[j - 1]);
    }
  }

  /** A poller state that has left the map is never changed again and never comes back:
      no client can join it, whatever operations follow. */
  lemma {:induction false} RetiredForever<S>(ops: seq<Op<S>>, i: nat, g: nat)
    requires i <= |ops|
    requires g < |Replay(ops[..i]).heap| && !Current(Replay(ops[..i]), g)
    ensures g < |Replay(ops).heap| && !Current(Replay(ops), g)
    ensures Replay(ops).heap[g] == Replay(ops[..i]).heap[g]
    decreases |ops|
  {
    if i == |ops| {
      assert ops[..i] == ops;
    } else {
      var before := ops[..|ops| - 1];
      assert before[..i] == ops[..i];
      RetiredForever(before, i, g);
      RetiredStep(Replay(before), ops[|ops| - 1], g);
    }
  }

  lemma RetiredStep<S>(gw: Gateway<S>, op: Op<S>, g: nat)
    requires WellFormed(gw) && g < |gw.heap| && !Current(gw, g)
    ensures var gw' := Perform(gw, op).0;
            g < |gw'.heap| && !Current(gw', g) && gw'.heap[g] == gw.heap[g]
  {
    var gw' := Perform(gw, op).0;
    forall c | c in gw'.data
      ensures gw'.data[c] != g
    {
      assert c in gw.data && gw.data[c] == g ==> Current(gw, g);
    }
    if op.canister in gw.data {
      assert gw.data[op.canister] == g ==> Current(gw, g);
    }
  }

  /** A poller state taken out of the map because it was empty stays empty, whatever operations follow. */
  lemma EmptiedStaysEmpty<S>(ops: seq<Op<S>>, i: nat)
    requires i < |ops| && ops[i].RemoveCanisterIfEmptyOp? && ResponseAt(ops, i) == CanisterRemoval(Empty)
    ensures var g := Replay(ops[..i]).data[ops[i].canister];
            g < |Replay(ops).heap| && Replay(ops).heap[g].Keys == {} && !Current(Replay(ops), g)
  {
    var before := Replay(ops[..i]);
    assert ops[..i + 1][..i] == ops[..i];
    assert Replay(ops[..i + 1]) == before.(data := before.data - {ops[i].canister});
    ReplayUnshared(ops[..i]);
    RetiredForever(ops, i + 1, before.data[ops[i].canister]);
  }
}
