/** One IC WebSocket session: how its state reacts to what arrives from the client and from the poller
    (src/ic-websocket-gateway/src/client_session.rs:41-469). */
module ClientSession {
  import opened Basics

  // ---- Messages ----

  datatype OpenArguments = OpenArguments(clientNonce: u64, gatewayPrincipal: Principal)

  /** `arg` is what the argument bytes decode to as `CanisterWsOpenArguments`, if they do. */
  datatype EnvelopeContent =
    | Call(canister: CanisterId, sender: Principal, arg: Option<OpenArguments>)
    | ReadState(sender: Principal)
    | Query(canister: CanisterId, sender: Principal)

  /** `encodes` says whether serializing the envelope again succeeds. */
  datatype Envelope = Envelope(content: EnvelopeContent, encodes: bool)

  /** `request` is what the binary payload decodes to as a `ClientRequest`, if it does. */
  datatype WsMessage = Close | Binary(request: Option<Envelope>) | OtherMessage

  datatype SessionState = Init | Setup(openMessage: WsMessage) | Open | Closed

  datatype IcWsError = IcWsProtocol | WebSocket | Poller

  // ---- The session and what happens to it ----

  datatype Session = Session(clientKey: Option<ClientKey>, canisterId: Option<CanisterId>, state: SessionState)

  const NEW_SESSION := Session(None, None, Init)

  /** How writing to the client's WebSocket ends. */
  datatype Write = Written | NotEncoded | NotSent

  datatype Event =
    | FromClient(update: Result<WsMessage, ()>, closes: bool)  // `closes`: closing the WebSocket would succeed
    | FromCanister(write: Write)
    | ChannelClosed(closes: bool)

  /** How handling an event ends; `Panic` is an `unreachable!` or `expect` of the source. */
  datatype Outcome = Done | Fail(error: IcWsError) | Panic

  /** What `try_update_state` reports to the handler. */
  datatype Report = NoChange | Changed(state: SessionState) | Failed(error: IcWsError) | Panicked

  function GetClientRequest(m: WsMessage): Result<Envelope, IcWsError> {
    match m
    case Binary(Some(envelope)) => Ok(envelope)
    case _ => Err(WebSocket)
  }

  function InspectOpenMessage(m: WsMessage): Result<(ClientKey, CanisterId), IcWsError> {
    match GetClientRequest(m)
    case Err(e) => Err(e)
    case Ok(Envelope(Call(canister, sender, Some(arguments)), _)) =>
      Ok((ClientKey(sender, arguments.clientNonce), canister))
    case Ok(_) => Err(IcWsProtocol)
  }

  /** Relays a client message to the session's canister. */
  function RelayClientMessage(s: Session, m: WsMessage): Outcome {
    match GetClientRequest(m)
    case Err(e) => Fail(e)
    case Ok(envelope) =>
      if !envelope.content.Call? then Fail(IcWsProtocol)
      else if !envelope.encodes then Fail(WebSocket)
      else if s.canisterId.None? then Panic
      else Done
  }

  function HandleSetupTransition(s: Session, m: WsMessage, closes: bool): (Session, Outcome) {
    match InspectOpenMessage(m)
    case Ok((clientKey, canisterId)) =>
      // the key is replaced only if no canister was set before
      (Session(if s.canisterId.Some? then s.clientKey else Some(clientKey), Some(canisterId), Setup(m)), Done)
    case Err(_) => (s, Fail(if closes then IcWsProtocol else WebSocket))
  }

  function HandleClientUpdate(s: Session, update: Result<WsMessage, ()>, closes: bool): (Session, Outcome) {
    match update
    case Err(_) => (s.(state := Closed), Fail(WebSocket))
    case Ok(m) =>
      if m.Close? && !s.state.Closed? then (s.(state := Closed), Done)
      else
        match s.state
        case Init => HandleSetupTransition(s, m, closes)
        case Setup(_) => (s, Done)
        case Open => (s, RelayClientMessage(s, m))
        case Closed => (s, Fail(IcWsProtocol))
  }

  function WriteError(write: Write): IcWsError
    requires !write.Written?
  {
    if write.NotEncoded? then IcWsProtocol else WebSocket
  }

  function HandleCanisterMessage(s: Session, write: Write): (Session, Outcome) {
    match s.state
    case Init => (s, Panic)
    case Setup(_) => if write.Written? then (s.(state := Open), Done) else (s, Fail(WriteError(write)))
    case Open => if write.Written? then (s, Done) else (s, Fail(WriteError(write)))
    case Closed => (s, Fail(IcWsProtocol))
  }

  function HandleEvent(s: Session, e: Event): (Session, Outcome) {
    match e
    case FromClient(update, closes) => HandleClientUpdate(s, update, closes)
    case FromCanister(write) => HandleCanisterMessage(s, write)
    case ChannelClosed(closes) => (s, Fail(if closes then Poller else WebSocket))
  }

  function TryUpdateState(s: Session, e: Event): (Session, Report) {
    var (s', outcome) := HandleEvent(s, e);
    (s', match outcome
         case Panic => Panicked
         case Fail(error) => Failed(error)
         case Done => if s'.state != s.state then Changed(s'.state) else NoChange)
  }

  // ---- What the branches come to, read off the fields of messages and events ----

  predicate IsDecoded(m: WsMessage) { m.Binary? && m.request.Some? }

  predicate IsCall(m: WsMessage) { IsDecoded(m) && m.request.value.content.Call? }

  /** A call of a canister whose argument decodes to the arguments of an open message. */
  predicate IsOpenMessage(m: WsMessage) { IsCall(m) && m.request.value.content.arg.Some? }

  /** A call whose envelope can be serialized again. */
  predicate CanRelay(m: WsMessage) { IsCall(m) && m.request.value.encodes }

  /** Setup accepts exactly the open messages. The session is then that of the call's sender, with the nonce the client
      has chosen, and of the canister called. */
  lemma InspectExactly(m: WsMessage)
    ensures InspectOpenMessage(m).Ok? <==> IsOpenMessage(m)
    ensures IsOpenMessage(m) ==>
              var content, (key, canister) := m.request.value.content, InspectOpenMessage(m).value;
              && key.principal == content.sender
              && key.nonce == content.arg.value.clientNonce
              && canister == content.canister
    ensures InspectOpenMessage(m) == Err(WebSocket) <==> !IsDecoded(m)
  {}

  /** Two open messages set up the same key if and only if their senders and their nonces agree. */
  lemma SameKeyExactly(m: WsMessage, n: WsMessage)
    requires IsOpenMessage(m) && IsOpenMessage(n)
    ensures InspectOpenMessage(m).value.0 == InspectOpenMessage(n).value.0 <==>
              && m.request.value.content.sender == n.request.value.content.sender
              && m.request.value.content.arg.value.clientNonce == n.request.value.content.arg.value.clientNonce
  {
    InspectExactly(m);
    InspectExactly(n);
  }

  /** A client message is relayed if and only if it is a call that can be serialized again; the error tells a message
      that is no call from one that cannot be read or written. */
  lemma RelayExactly(s: Session, m: WsMessage)
    requires s.canisterId.Some?
    ensures RelayClientMessage(s, m).Done? <==> CanRelay(m)
    ensures RelayClientMessage(s, m) == Fail(IcWsProtocol) <==> IsDecoded(m) && !IsCall(m)
    ensures RelayClientMessage(s, m) == Fail(WebSocket) <==> !IsDecoded(m) || (IsCall(m) && !CanRelay(m))
  {}

  predicate Hears(e: Event) { e.FromClient? && e.update.Ok? }

  /** The client, or its WebSocket, has closed in an orderly way. */
  predicate HearsClose(e: Event) { Hears(e) && e.update.value.Close? }

  predicate HearsOpenMessage(e: Event) { Hears(e) && IsOpenMessage(e.update.value) }

  /** The client's first word is no open message. */
  predicate StartsBadly(e: Event) { e.FromClient? && !HearsOpenMessage(e) }

  /** A message that no open session can relay. */
  predicate HearsNonsense(e: Event) { Hears(e) && !e.update.value.Close? && !CanRelay(e.update.value) }

  /** Something goes wrong between a session past Init and its client. */
  predicate GoesWrong(s: Session, e: Event) {
    || (e.FromClient? && e.update.Err?)
    || e == ChannelClosed(false)
    || (e.FromCanister? && !e.write.Written?)
    || (s.state.Open? && HearsNonsense(e))
  }

  /** How the state of a session moves, and to what. */
  lemma StateMovesExactly(s: Session, e: Event)
    requires Consistent(s) && !s.state.Closed?
    ensures var state := HandleEvent(s, e).0.state;
            && (state.Closed? <==> HearsClose(e) || (e.FromClient? && e.update.Err?))
            && (state.Open? && !s.state.Open? <==> s.state.Setup? && e == FromCanister(Written))
            && (state.Setup? && !s.state.Setup? <==> s.state.Init? && HearsOpenMessage(e))
            && (state.Setup? && !s.state.Setup? ==> state.openMessage == e.update.value)
            && (state.Setup? && s.state.Setup? ==> state == s.state)
            && (state.Init? ==> s.state.Init?)
  {
    if Hears(e) {
      InspectExactly(e.update.value);
    }
  }

  /** Which events fail, and with which error. */
  lemma ErrorsExactly(s: Session, e: Event)
    requires Consistent(s) && !s.state.Closed?
    ensures var outcome := HandleEvent(s, e).1;
            && (outcome == Fail(Poller) <==> e == ChannelClosed(true))
            && (outcome.Panic? <==> s.state.Init? && e.FromCanister?)
            && (outcome == Fail(WebSocket) <==>
                  || (e.FromClient? && e.update.Err?)
                  || e == ChannelClosed(false)
                  || (!s.state.Init? && e == FromCanister(NotSent))
                  || (s.state.Init? && Hears(e) && !HearsClose(e) && !HearsOpenMessage(e) && !e.closes)
                  || (s.state.Open? && HearsNonsense(e) && (!IsDecoded(e.update.value) || IsCall(e.update.value))))
            && (outcome == Fail(IcWsProtocol) <==>
                  || (!s.state.Init? && e == FromCanister(NotEncoded))
                  || (s.state.Init? && Hears(e) && !HearsClose(e) && !HearsOpenMessage(e) && e.closes)
                  || (s.state.Open? && HearsNonsense(e) && IsDecoded(e.update.value) && !IsCall(e.update.value)))
  {
    if Hears(e) {
      InspectExactly(e.update.value);
      if s.state.Open? {
        RelayExactly(s, e.update.value);
      }
    }
  }

  /** What a session past Init reports, in every case there is. */
  lemma ReportsExactly(s: Session, e: Event)
    requires Consistent(s) && !s.state.Closed? && !s.state.Init?
    ensures var report := TryUpdateState(s, e).1;
            && (report == Changed(Closed) <==> HearsClose(e))
            && (report == Changed(Open) <==> s.state.Setup? && e == FromCanister(Written))
            && (report == Failed(Poller) <==> e == ChannelClosed(true))
            && (report.Failed? && report.error != Poller <==> GoesWrong(s, e))
            && !report.Panicked?
            && (report.Changed? ==> report.state.Closed? || report.state.Open?)
  {
    StateMovesExactly(s, e);
    ErrorsExactly(s, e);
  }

  /** What a session in Init reports. */
  lemma InitReportsExactly(s: Session, e: Event)
    requires Consistent(s) && s.state.Init?
    ensures var report := TryUpdateState(s, e).1;
            && (report == Changed(Closed) <==> HearsClose(e))
            && (report.Changed? && !report.state.Closed? <==> HearsOpenMessage(e))
            && (HearsOpenMessage(e) ==> report == Changed(Setup(e.update.value)))
            && (report == Failed(Poller) <==> e == ChannelClosed(true))
            && (report.Panicked? <==> e.FromCanister?)
            && report != NoChange
  {
    StateMovesExactly(s, e);
    ErrorsExactly(s, e);
  }

  // ---- What goes to the canister ----

  /** A call on its way to a canister. */
  type Handed = (CanisterId, Envelope)

  /** What a session hands over for its canister while it handles an event: in Open, a call that can be relayed. */
  function HandsOver(s: Session, e: Event): seq<Handed> {
    if s.state.Open? && s.canisterId.Some? && Hears(e) && CanRelay(e.update.value)
    then [(s.canisterId.value, e.update.value.request.value)] else []
  }

  /** An open message, once it has set the session up. */
  function HandsOverOpen(m: WsMessage): seq<Handed> {
    if IsOpenMessage(m) && CanRelay(m) then [(m.request.value.content.canister, m.request.value)] else []
  }

  /** What is handed over because of one event, by the session or, after Setup, by its handler. */
  function NowHanded(s: Session, e: Event): seq<Handed> {
    if s.state.Init? && HearsOpenMessage(e) then HandsOverOpen(e.update.value) else HandsOver(s, e)
  }

  /** All that is handed over for the canister of a new session that sees `events`: the open message, and then each call
      heard in Open, once and in order. */
  function HandedOver(events: seq<Event>): seq<Handed> {
    if events == [] then []
    else
      HandedOver(events[..|events| - 1]) +
      NowHanded(UpdateAll(NEW_SESSION, events[..|events| - 1]), events[|events| - 1])
  }

  // ---- Properties ----

  function Rank(state: SessionState): nat {
    match state case Init => 0 case Setup(_) => 1 case Open => 2 case Closed => 3
  }

  /** Canister and key are known exactly from Setup on; they are those of the message that set the session up. */
  ghost predicate Consistent(s: Session) {
    && (s.clientKey.Some? <==> s.canisterId.Some?)
    && (s.state.Init? ==> s.clientKey.None?)
    && (s.state.Setup? || s.state.Open? ==> s.clientKey.Some?)
    && (s.state.Setup? && s.clientKey.Some? ==>
          InspectOpenMessage(s.state.openMessage) == Ok((s.clientKey.value, s.canisterId.value)))
  }

  /** A reported change moves strictly forward in Init, Setup, Open, Closed; canister and key never change once set;
      a panic takes a canister message in Init. */
  lemma UpdateMovesForward(s: Session, e: Event)
    requires Consistent(s)
    ensures var (s', report) := TryUpdateState(s, e);
            && Consistent(s')
            && (report.Changed? ==> report.state == s'.state && Rank(s.state) < Rank(s'.state))
            && (!report.Changed? ==> s'.state == s.state || (s'.state.Closed? && report == Failed(WebSocket)))
            && (s.clientKey.Some? ==> s'.clientKey == s.clientKey && s'.canisterId == s.canisterId)
            && (s'.clientKey != s.clientKey ==> report.Changed? && report.state.Setup?)
            && (report == Panicked <==> e.FromCanister? && s.state.Init?)
  {}

  function UpdateAll(s: Session, events: seq<Event>): Session {
    if events == [] then s else TryUpdateState(UpdateAll(s, events[..|events| - 1]), events[|events| - 1]).0
  }

  /** The states reported along a sequence of events. */
  function Reports(s: Session, events: seq<Event>): seq<SessionState> {
    if events == [] then []
    else
      var report := TryUpdateState(UpdateAll(s, events[..|events| - 1]), events[|events| - 1]).1;
      Reports(s, events[..|events| - 1]) + if report.Changed? then [report.state] else []
  }

  /** Whatever the events, the reported states have strictly increasing ranks. So each of Setup, Open and Closed is
      reported at most once, and the channel's sender is taken at most once. */
  lemma {:induction false} ReportsIncrease(s: Session, events: seq<Event>)
    requires Consistent(s)
    ensures Consistent(UpdateAll(s, events)) && Rank(s.state) <= Rank(UpdateAll(s, events).state)
    ensures forall i :: 0 <= i < |Reports(s, events)| ==>
              Rank(s.state) < Rank(Reports(s, events)[i]) <= Rank(UpdateAll(s, events).state)
    ensures forall i, j :: 0 <= i < j < |Reports(s, events)| ==>
              Rank(Reports(s, events)[i]) < Rank(Reports(s, events)[j])
    ensures s.clientKey.Some? ==>
              UpdateAll(s, events).clientKey == s.clientKey && UpdateAll(s, events).canisterId == s.canisterId
  {
    if events != [] {
      ReportsIncrease(s, events[..|events| - 1]);
      UpdateMovesForward(UpdateAll(s, events[..|events| - 1]), events[|events| - 1]);
    }
  }

  /** Relaying the message that setup has accepted fails only if its envelope cannot be serialized again. */
  lemma OpenMessageAgreement(s: Session)
    requires Consistent(s) && s.state.Setup?
    ensures GetClientRequest(s.state.openMessage).Ok?
    ensures RelayClientMessage(s, s.state.openMessage) ==
            if GetClientRequest(s.state.openMessage).value.encodes then Done else Fail(WebSocket)
  {}

  // ---- The session as the object that is updated ----

  class ClientSessionActor {
    var clientKey: Option<ClientKey>
    var canisterId: Option<CanisterId>
    var sessionState: SessionState
    // the calls that were handed over for the canister, by tasks of their own
    var handedOver: seq<Handed>

    ghost function View(): Session
      reads this
    {
      Session(clientKey, canisterId, sessionState)
    }

    constructor ()
      ensures View() == NEW_SESSION && handedOver == []
    {
      clientKey, canisterId, sessionState, handedOver := None, None, Init, [];
    }

    method SetUp(m: WsMessage, closes: bool) returns (outcome: Outcome)
      modifies this
      ensures (View(), outcome) == HandleSetupTransition(old(View()), m, closes)
      ensures outcome.Done? <==> IsOpenMessage(m)
      ensures outcome.Done? ==> sessionState == Setup(m) && canisterId == Some(m.request.value.content.canister)
      ensures outcome.Done? && old(canisterId).None? ==>
                && clientKey.Some?
                && clientKey.value.principal == m.request.value.content.sender
                && clientKey.value.nonce == m.request.value.content.arg.value.clientNonce
      ensures outcome.Done? && old(canisterId).Some? ==> clientKey == old(clientKey)
      ensures outcome.Done? || outcome == Fail(if closes then IcWsProtocol else WebSocket)
      ensures handedOver == old(handedOver)
      ensures !outcome.Done? ==> unchanged(this)
    {
      InspectExactly(m);
      match InspectOpenMessage(m) {
        case Ok((key, canister)) =>
          var wasSet := canisterId.Some?;
          canisterId := Some(canister);
          if !wasSet { clientKey := Some(key); }
          sessionState := Setup(m);
          outcome := Done;
        case Err(_) =>
          if !closes { return Fail(WebSocket); }
          outcome := Fail(IcWsProtocol);
      }
    }

    /** Hands a client message over for the canister. */
    method Relay(m: WsMessage) returns (outcome: Outcome)
      modifies this`handedOver
      ensures outcome == RelayClientMessage(View(), m)
      ensures outcome.Panic? <==> CanRelay(m) && canisterId.None?
      ensures outcome == Fail(IcWsProtocol) <==> IsDecoded(m) && !IsCall(m)
      ensures handedOver == old(handedOver) +
                            if CanRelay(m) && canisterId.Some? then [(canisterId.value, m.request.value)] else []
    {
      var request := GetClientRequest(m);
      if request.Err? {
        return Fail(request.error);
      }
      if !request.value.content.Call? {
        return Fail(IcWsProtocol);
      }
      if !request.value.encodes {
        return Fail(WebSocket);
      }
      if canisterId.None? {
        return Panic;
      }
      handedOver := handedOver + [(canisterId.value, request.value)];
      outcome := Done;
    }

    method OnClientUpdate(update: Result<WsMessage, ()>, closes: bool) returns (outcome: Outcome)
      modifies this
      ensures (View(), outcome) == HandleClientUpdate(old(View()), update, closes)
      ensures !old(sessionState).Init? ==> clientKey == old(clientKey) && canisterId == old(canisterId)
      ensures sessionState != old(sessionState) ==>
                Rank(sessionState) > Rank(old(sessionState)) && (sessionState.Closed? || sessionState.Setup?)
      ensures sessionState.Closed? && !old(sessionState).Closed? <==>
                !old(sessionState).Closed? && (update.Err? || update.value.Close?)
      ensures outcome.Panic? ==> old(sessionState).Open? && canisterId.None?
      ensures old(sessionState).Open? && canisterId.Some? && update.Ok? && !update.value.Close? ==>
                && (outcome.Done? <==> CanRelay(update.value))
                && (outcome == Fail(IcWsProtocol) <==> IsDecoded(update.value) && !IsCall(update.value))
                && (outcome == Fail(WebSocket) <==>
                      !IsDecoded(update.value) || (IsCall(update.value) && !CanRelay(update.value)))
      ensures handedOver == old(handedOver) + old(HandsOver(View(), FromClient(update, closes)))
    {
      if update.Err? {
        sessionState := Closed;
        return Fail(WebSocket);
      }
      var m := update.value;
      if m.Close? && !sessionState.Closed? {
        sessionState := Closed;
        return Done;
      }
      match sessionState {
        case Init => outcome := SetUp(m, closes);
        case Setup(_) => outcome := Done;
        case Open => outcome := Relay(m);
        case Closed => outcome := Fail(IcWsProtocol);
      }
    }

    method OnCanisterMessage(write: Write) returns (outcome: Outcome)
      modifies this
      ensures (View(), outcome) == HandleCanisterMessage(old(View()), write)
      ensures clientKey == old(clientKey) && canisterId == old(canisterId) && handedOver == old(handedOver)
      ensures sessionState != old(sessionState) <==> old(sessionState).Setup? && write.Written?
      ensures sessionState != old(sessionState) ==> sessionState.Open?
      ensures outcome.Done? <==> (old(sessionState).Setup? || old(sessionState).Open?) && write.Written?
    {
      match sessionState {
        case Init => outcome := Panic;
        case Setup(_) =>
          if !write.Written? { return Fail(WriteError(write)); }
          sessionState := Open;
          outcome := Done;
        case Open => outcome := if write.Written? then Done else Fail(WriteError(write));
        case Closed => outcome := Fail(IcWsProtocol);
      }
    }

    method UpdateState(e: Event) returns (report: Report)
      modifies this
      ensures (View(), report) == TryUpdateState(old(View()), e)
      ensures report.Changed? ==> report.state == sessionState && Rank(old(sessionState)) < Rank(sessionState)
      ensures sessionState != old(sessionState) ==>
              report == Changed(sessionState) || (sessionState.Closed? && report == Failed(WebSocket))
      ensures old(Consistent(View())) ==>
              Consistent(View()) && (report.Panicked? <==> e.FromCanister? && old(sessionState).Init?)
      ensures old(Consistent(View()) && clientKey.Some?) ==>
              clientKey == old(clientKey) && canisterId == old(canisterId)
      ensures report == Failed(Poller) <==> e == ChannelClosed(true)
      ensures handedOver == old(handedOver) + old(HandsOver(View(), e))
    {
      var previous := sessionState;
      var outcome;
      match e {
        case FromClient(update, closes) => outcome := OnClientUpdate(update, closes);
        case FromCanister(write) => outcome := OnCanisterMessage(write);
        case ChannelClosed(closes) => outcome := Fail(if closes then Poller else WebSocket);
      }
      match outcome {
        case Panic => report := Panicked;
        case Fail(error) => report := Failed(error);
        case Done => report := if sessionState != previous then Changed(sessionState) else NoChange;
      }
    }
  }
}
