/** All tasks of the gateway together: session handlers, pollers, the gateway state and the client channels
    (src/ic-websocket-gateway/src/client_session_handler.rs:107-342, canister_poller.rs:70-347).

    A step is what one task does between two points where another task can come in between: one critical section
    of the gateway state, one event, one lookup or one send. Tasks take steps in any order. Fields marked
    `history` record what has happened; no task reads them. */
module World {
  import opened Basics
  import opened Gateway
  import opened ClientSession
  import opened Polling

  const CHANNEL_CAPACITY: nat := 100

  /** Where a session handler is. */
  datatype Pc =
    | Awaiting                          // in `select!`
    | Registering(message: WsMessage)   // Setup was reported
    | RelayingOpen(message: WsMessage)  // registered, the open message goes to the canister next
    | StartingPoller
    | UndoingSetup                      // the open message could not be relayed
    | Closing                           // Closed was reported
    | Failing                           // an error other than a poller error was reported
    | CallingWsClose
    | Ended
    | Crashed                           // its task has panicked

  datatype Handler = Handler(
    session: Session,
    pc: Pc,
    holdsSender: bool,                     // `client_channel_tx` is `Some`
    owed: Option<nat>,                     // `new_poller_state`, until its poller is started
    sent: seq<CanisterToClientMessage>,    // everything put into the client channel; the first `taken` were received
    taken: nat,
    written: seq<CanisterToClientMessage>, // written to the client's WebSocket
    gen: Option<nat>,                      // history: the poller state the client was added to
    joined: nat,                           // history: length of that poller's log when it was added
    left: Option<nat>,                     // history: length of that log when the handler removed it
    relayedOpen: bool,                     // history: the open message was handed over for the canister
    handed: seq<Handed>,                   // history: everything handed over for the canister
    wsCloses: nat)                         // history: calls of `ws_close`

  datatype PollerPc =
    | Asking
    | Relaying(rest: seq<Packet>)
    | Sending(packet: Packet, sid: nat, rest: seq<Packet>)  // holds the guard of the client's entry
    | Checking
    | Removing                                              // the poll failed
    | Stopped                                               // `run_polling` has returned
    | Gone                                                  // its task is over, its poller state is dropped
    | PollerCrashed

  datatype PollerTask = PollerTask(
    canister: CanisterId,
    gen: nat,            // its poller state
    next: u64,
    pc: PollerPc,
    log: seq<Packet>)    // history: the messages that went through the relay loop, in order

  /** history: what has become of a poller state. */
  datatype Role = Owed(sid: nat) | Polled(pid: nat) | Orphaned | Emptied(pid: nat) | FailedBy(pid: nat)

  datatype Generation = Generation(canister: CanisterId, role: Role)

  type SharedState = gw: Gateway<nat> | WellFormed(gw) ghost witness Initial()

  datatype World = World(
    gw: SharedState,             // client channels are identified by their session
    handlers: seq<Handler>,
    pollers: seq<PollerTask>,
    gens: seq<Generation>)       // history

  datatype Action =
    | Accept
    | Update(sid: nat, event: Event)
    | Register(sid: nat)
    | RelayOpen(sid: nat)
    | StartPoller(sid: nat)
    | UndoSetup(sid: nat)
    | RemoveClosed(sid: nat)
    | RemoveFailed(sid: nat)
    | CallWsClose(sid: nat)
    | PollAnswered(pid: nat, answer: Answer)
    | LookUpClient(pid: nat)
    | SendToClient(pid: nat)
    | CheckClients(pid: nat)
    | RemoveCanister(pid: nat)
    | DropPoller(pid: nat)

  const NEW_HANDLER := Handler(NEW_SESSION, Awaiting, true, None, [], 0, [], None, 0, None, false, [], 0)

  const START := World(Initial(), [], [], [])

  // ---- Channels and references ----

  predicate Alive(h: Handler) { !h.pc.Ended? && !h.pc.Crashed? }

  /** The handler has not yet come to the end of its session: it is not even telling the canister that it has. */
  predicate Connected(h: Handler) {
    Alive(h) && !h.pc.CallingWsClose?
  }

  /** Some reference to the poller state is left: in the map, with its poller, or with a handler that owes its start. */
  ghost predicate Held(w: World, g: nat) {
    || Current(w.gw, g)
    || (exists p :: 0 <= p < |w.pollers| && w.pollers[p].gen == g
                    && !w.pollers[p].pc.Gone? && !w.pollers[p].pc.PollerCrashed?)
    || (exists s :: 0 <= s < |w.handlers| && w.handlers[s].owed == Some(g))
  }

  /** Some sender of the session's channel is left. */
  ghost predicate ChannelOpen(w: World, sid: nat)
    requires sid < |w.handlers|
  {
    || w.handlers[sid].holdsSender
    || exists g, k :: 0 <= g < |w.gw.heap| && k in w.gw.heap[g] && w.gw.heap[g][k] == sid && Held(w, g)
  }

  /** A poller that is sending to a client holds the guard of its entry, so that nobody can insert or remove it. */
  ghost predicate Guarded(w: World, c: CanisterId, k: ClientKey) {
    c in w.gw.data &&
    exists p :: 0 <= p < |w.pollers| && w.pollers[p].gen == w.gw.data[c]
                && w.pollers[p].pc.Sending? && w.pollers[p].pc.packet.clientKey == k
  }

  // ---- History bookkeeping ----

  function LogOf(w: World, g: nat): seq<Packet> {
    if g >= |w.gens| then []
    else match w.gens[g].role
      case Polled(p) => if p < |w.pollers| then w.pollers[p].log else []
      case Emptied(p) => if p < |w.pollers| then w.pollers[p].log else []
      case FailedBy(p) => if p < |w.pollers| then w.pollers[p].log else []
      case _ => []
  }

  function SetRole(gens: seq<Generation>, g: nat, role: Role): seq<Generation> {
    if g < |gens| then gens[g := gens[g].(role := role)] else gens
  }

  // ---- Steps of session handlers ----

  function SetHandler(w: World, sid: nat, h: Handler): World
    requires sid < |w.handlers|
  {
    w.(handlers := w.handlers[sid := h])
  }

  /** The handler's task is over; what it still held is dropped. */
  function Finish(w: World, sid: nat, h: Handler, pc: Pc): World
    requires sid < |w.handlers|
  {
    var w' := SetHandler(w, sid, h.(pc := pc, holdsSender := false, owed := None));
    if h.owed.Some? then w'.(gens := SetRole(w.gens, h.owed.value, Orphaned)) else w'
  }

  /** What the handler does with what `try_update_state` reports. */
  function Dispatch(s: Session, report: Report): Pc {
    match report
    case NoChange => Awaiting
    case Changed(Init) => Crashed
    case Changed(Setup(m)) => Registering(m)
    case Changed(Open) => if s.clientKey.None? then Crashed else Awaiting
    case Changed(Closed) => if s.canisterId.None? || s.clientKey.None? then Crashed else Closing
    case Failed(Poller) => Ended
    case Failed(_) => if s.canisterId.None? || s.clientKey.None? then Crashed else Failing
    case Panicked => Crashed
  }

  function Delivers(h: Handler, e: Event): bool {
    e == FromCanister(Written) && (h.session.state.Setup? || h.session.state.Open?)
  }

  function UpdateStep(w: World, sid: nat, e: Event): World
    requires sid < |w.handlers|
    requires e.FromCanister? ==> w.handlers[sid].taken < |w.handlers[sid].sent|
  {
    var h := w.handlers[sid];
    var (session, report) := TryUpdateState(h.session, e);
    var h' := h.(session := session,
                 taken := if e.FromCanister? then h.taken + 1 else h.taken,
                 written := if Delivers(h, e) then h.written + [h.sent[h.taken]] else h.written,
                 handed := h.handed + HandsOver(h.session, e));
    var pc := Dispatch(session, report);
    if pc.Ended? || pc.Crashed? then Finish(w, sid, h', pc) else SetHandler(w, sid, h'.(pc := pc))
  }

  function RegisterStep(w: World, sid: nat): World
    requires sid < |w.handlers| && w.handlers[sid].pc.Registering?
  {
    var h := w.handlers[sid];
    if h.session.canisterId.None? || h.session.clientKey.None? || !h.holdsSender then Finish(w, sid, h, Crashed)
    else
      var c := h.session.canisterId.value;
      var (gw, owed) := Insert(w.gw, c, h.session.clientKey.value, sid);
      var g := if owed.Some? then owed.value else w.gw.data[c];
      var h' := h.(pc := RelayingOpen(h.pc.message), holdsSender := false, owed := owed, gen := Some(g),
                   joined := |LogOf(w, g)|);
      World(gw, w.handlers[sid := h'], w.pollers, if owed.Some? then w.gens + [Generation(c, Owed(sid))] else w.gens)
  }

  function RelayOpenStep(w: World, sid: nat): World
    requires sid < |w.handlers| && w.handlers[sid].pc.RelayingOpen?
  {
    var h := w.handlers[sid];
    match RelayClientMessage(h.session, h.pc.message)
    case Done =>
      SetHandler(w, sid, h.(pc := if h.owed.Some? then StartingPoller else Awaiting,
                            relayedOpen := true, handed := h.handed + HandsOverOpen(h.pc.message)))
    case Fail(_) => SetHandler(w, sid, h.(pc := UndoingSetup))
    case Panic => Finish(w, sid, h, Crashed)
  }

  function StartPollerStep(w: World, sid: nat): World
    requires sid < |w.handlers| && w.handlers[sid].pc.StartingPoller?
  {
    var h := w.handlers[sid];
    if h.session.canisterId.None? || h.owed.None? then Finish(w, sid, h, Crashed)
    else
      World(w.gw,
            w.handlers[sid := h.(pc := Awaiting, owed := None)],
            w.pollers + [PollerTask(h.session.canisterId.value, h.owed.value, 0, Asking, [])],
            SetRole(w.gens, h.owed.value, Polled(|w.pollers|)))
  }

  /** What the handler remembers when it has asked for its removal. */
  function MarkLeft(w: World, h: Handler, removed: bool): Handler {
    if removed && h.gen.Some? then h.(left := Some(|LogOf(w, h.gen.value)|)) else h
  }

  /** `remove_client`, which panics when the canister is there but the client is not. */
  function RemoveClientStep(w: World, sid: nat): World
    requires sid < |w.handlers|
  {
    var h := w.handlers[sid];
    if h.session.canisterId.None? || h.session.clientKey.None? then Finish(w, sid, h, Crashed)
    else
      var (gw, ok) := RemoveClient(w.gw, h.session.canisterId.value, h.session.clientKey.value);
      var h' := MarkLeft(w, h, ok && h.session.canisterId.value in w.gw.data);
      var w' := w.(gw := gw);
      if !ok then Finish(w', sid, h', Crashed)
      else if h.pc.Closing? then SetHandler(w', sid, h'.(pc := CallingWsClose))
      else Finish(w', sid, h', Ended)
  }

  function RemoveFailedStep(w: World, sid: nat): World
    requires sid < |w.handlers|
  {
    var h := w.handlers[sid];
    if h.session.canisterId.None? || h.session.clientKey.None? then Finish(w, sid, h, Crashed)
    else
      var (gw, r) := RemoveClientIfExists(w.gw, h.session.canisterId.value, h.session.clientKey.value);
      var h' := MarkLeft(w, h, r.Removed?);
      if r.Removed? then SetHandler(w.(gw := gw), sid, h'.(pc := CallingWsClose))
      else Finish(w.(gw := gw), sid, h', Ended)
  }

  function CallWsCloseStep(w: World, sid: nat): World
    requires sid < |w.handlers|
  {
    Finish(w, sid, w.handlers[sid].(wsCloses := w.handlers[sid].wsCloses + 1), Ended)
  }

  // ---- Steps of pollers ----

  function SetPoller(w: World, pid: nat, p: PollerTask): World
    requires pid < |w.pollers|
  {
    w.(pollers := w.pollers[pid := p])
  }

  function PollAnsweredStep(p: PollerTask, a: Answer): PollerTask {
    match PollCanister(a)
    case Err(_) => p.(pc := Removing)
    case Ok(MessagesPolled(output)) =>
      (match UpdateNonce(p.next, Packets(output))
       case Err(_) => p.(pc := Removing)
       case Ok(n) => p.(next := n, pc := Relaying(Packets(output))))
    case Ok(_) => p.(pc := Checking)
  }

  function LookUpClientStep(w: World, pid: nat): World
    requires pid < |w.pollers| && w.pollers[pid].pc.Relaying?
  {
    var p := w.pollers[pid];
    var rest := p.pc.rest;
    if rest == [] then SetPoller(w, pid, p.(pc := Checking))
    else if p.gen < |w.gw.heap| && rest[0].clientKey in w.gw.heap[p.gen] then
      SetPoller(w, pid, p.(pc := Sending(rest[0], w.gw.heap[p.gen][rest[0].clientKey], rest[1..])))
    else
      SetPoller(w, pid, p.(log := p.log + [rest[0]], pc := Relaying(rest[1..])))
  }

  function SendToClientStep(w: World, pid: nat): World
    requires pid < |w.pollers| && w.pollers[pid].pc.Sending? && w.pollers[pid].pc.sid < |w.handlers|
  {
    var p := w.pollers[pid];
    var sid := p.pc.sid;
    var h := w.handlers[sid];
    var w' := SetPoller(w, pid, p.(log := p.log + [p.pc.packet], pc := Relaying(p.pc.rest)));
    // a send to a session that is over fails and is ignored
    if Alive(h) then SetHandler(w', sid, h.(sent := h.sent + [p.pc.packet.message])) else w'
  }

  function CheckClientsStep(w: World, pid: nat): World
    requires pid < |w.pollers|
  {
    var p := w.pollers[pid];
    var (gw, r) := RemoveCanisterIfEmpty(w.gw, p.canister);
    if r.Empty? then
      World(gw, w.handlers, w.pollers[pid := p.(pc := Stopped)], SetRole(w.gens, w.gw.data[p.canister], Emptied(pid)))
    else SetPoller(w, pid, p.(pc := Asking))
  }

  function RemoveCanisterStep(w: World, pid: nat): World
    requires pid < |w.pollers|
  {
    var p := w.pollers[pid];
    var (gw, ok) := RemoveFailedCanister(w.gw, p.canister);
    if ok then
      World(gw, w.handlers, w.pollers[pid := p.(pc := Stopped)], SetRole(w.gens, w.gw.data[p.canister], FailedBy(pid)))
    else SetPoller(w, pid, p.(pc := PollerCrashed))
  }

  // ---- The transition system ----

  ghost predicate EventPossible(w: World, sid: nat, e: Event)
    requires sid < |w.handlers|
  {
    var h := w.handlers[sid];
    match e
    case FromClient(_, _) => true
    case FromCanister(_) => h.taken < |h.sent|
    case ChannelClosed(_) => h.taken >= |h.sent| && !ChannelOpen(w, sid)
  }

  /** The critical section of `sid` on its own client key can be entered. */
  ghost predicate EntryFree(w: World, sid: nat)
    requires sid < |w.handlers|
  {
    var s := w.handlers[sid].session;
    s.canisterId.Some? && s.clientKey.Some? ==> !Guarded(w, s.canisterId.value, s.clientKey.value)
  }

  ghost predicate Enabled(w: World, a: Action) {
    match a
    case Accept => true
    case Update(sid, e) => sid < |w.handlers| && w.handlers[sid].pc.Awaiting? && EventPossible(w, sid, e)
    case Register(sid) => sid < |w.handlers| && w.handlers[sid].pc.Registering? && EntryFree(w, sid)
    case RelayOpen(sid) => sid < |w.handlers| && w.handlers[sid].pc.RelayingOpen?
    case StartPoller(sid) => sid < |w.handlers| && w.handlers[sid].pc.StartingPoller?
    case UndoSetup(sid) => sid < |w.handlers| && w.handlers[sid].pc.UndoingSetup? && EntryFree(w, sid)
    case RemoveClosed(sid) => sid < |w.handlers| && w.handlers[sid].pc.Closing? && EntryFree(w, sid)
    case RemoveFailed(sid) => sid < |w.handlers| && w.handlers[sid].pc.Failing? && EntryFree(w, sid)
    case CallWsClose(sid) => sid < |w.handlers| && w.handlers[sid].pc.CallingWsClose?
    case PollAnswered(pid, _) => pid < |w.pollers| && w.pollers[pid].pc.Asking?
    case LookUpClient(pid) => pid < |w.pollers| && w.pollers[pid].pc.Relaying?
    case SendToClient(pid) =>
      pid < |w.pollers| && w.pollers[pid].pc.Sending? && w.pollers[pid].pc.sid < |w.handlers|
      && var h := w.handlers[w.pollers[pid].pc.sid];
         Alive(h) ==> |h.sent| < h.taken + CHANNEL_CAPACITY
    case CheckClients(pid) => pid < |w.pollers| && w.pollers[pid].pc.Checking?
    case RemoveCanister(pid) => pid < |w.pollers| && w.pollers[pid].pc.Removing?
    case DropPoller(pid) => pid < |w.pollers| && w.pollers[pid].pc.Stopped?
  }

  ghost function Apply(w: World, a: Action): World
    requires Enabled(w, a)
  {
    match a
    case Accept => w.(handlers := w.handlers + [NEW_HANDLER])
    case Update(sid, e) => UpdateStep(w, sid, e)
    case Register(sid) => RegisterStep(w, sid)
    case RelayOpen(sid) => RelayOpenStep(w, sid)
    case StartPoller(sid) => StartPollerStep(w, sid)
    case UndoSetup(sid) => RemoveClientStep(w, sid)
    case RemoveClosed(sid) => RemoveClientStep(w, sid)
    case RemoveFailed(sid) => RemoveFailedStep(w, sid)
    case CallWsClose(sid) => CallWsCloseStep(w, sid)
    case PollAnswered(pid, answer) => SetPoller(w, pid, PollAnsweredStep(w.pollers[pid], answer))
    case LookUpClient(pid) => LookUpClientStep(w, pid)
    case SendToClient(pid) => SendToClientStep(w, pid)
    case CheckClients(pid) => CheckClientsStep(w, pid)
    case RemoveCanister(pid) => RemoveCanisterStep(w, pid)
    case DropPoller(pid) => SetPoller(w, pid, w.pollers[pid].(pc := Gone))
  }

  /** A run: the worlds `ws`, each got from the one before by the action between them. */
  ghost predicate Run(ws: seq<World>, actions: seq<Action>) {
    && |ws| == |actions| + 1
    && ws[0] == START
    && forall i :: 0 <= i < |actions| ==> Enabled(ws[i], actions[i]) && ws[i + 1] == Apply(ws[i], actions[i])
  }

  /** Registering `sid` uses a key that no other session connected to the canister has. */
  ghost predicate FreshKey(w: World, a: Action) {
    a.Register? && a.sid < |w.handlers| ==>
      forall s :: 0 <= s < |w.handlers| && s != a.sid && Connected(w.handlers[s]) && w.handlers[s].gen.Some?
                  && w.handlers[s].session.canisterId == w.handlers[a.sid].session.canisterId
                  ==> w.handlers[s].session.clientKey != w.handlers[a.sid].session.clientKey
  }

  /** In a run with distinct keys, clients connected to a canister at the same time have different keys. */
  ghost predicate DistinctKeys(ws: seq<World>, actions: seq<Action>) {
    |ws| == |actions| + 1 && forall i :: 0 <= i < |actions| ==> FreshKey(ws[i], actions[i])
  }
}
