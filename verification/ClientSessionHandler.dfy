/** The session handler as the object that runs, with its event loop
    (src/ic-websocket-gateway/src/client_session_handler.rs:107-342). It is given the events its session sees; other
    tasks are the business of the module `World`. */
module ClientSessionHandler {
  import opened Basics
  import opened G = Gateway
  import opened GatewayState
  import opened ClientSession

  /** How the handler stands when the events are over. */
  datatype HandlerResult =
    | StillOpen
    | ClosedByClient
    | OpenNotRelayed
    | PollerGone
    | SessionFailed
    | HandlerPanicked

  /** A client that was just added is found, so that both ways of removing it come to the same. */
  lemma AddedIsFound<S>(gw: Gateway<S>, c: CanisterId, k: ClientKey, tx: S)
    requires WellFormed(gw)
    ensures var added := Insert(gw, c, k, tx).0;
            && G.RemoveClient(added, c, k).1
            && G.RemoveClientIfExists(added, c, k) == (G.RemoveClient(added, c, k).0, Removed(k))
  {}

  /** At most one poller state has been allocated, and it is new. */
  twostate predicate OneMoreAtMost<S>(gs: GatewayState<S>)
    reads gs
  {
    || gs.states == old(gs.states)
    || (|gs.states| == |old(gs.states)| + 1 && old(gs.states) <= gs.states && fresh(gs.states[|old(gs.states)|]))
  }

  /** Both ways of ending a registered session leave what removing its client leaves. */
  lemma EndLeaves<S>(before: Gateway<S>, s: Session, tx: S)
    requires WellFormed(before) && Registered(s)
    ensures var gw := Leaves(before, s, tx, StillOpen);
            && WellFormed(gw)
            && G.RemoveClient(gw, s.canisterId.value, s.clientKey.value).0 == Leaves(before, s, tx, ClosedByClient)
            && G.RemoveClient(gw, s.canisterId.value, s.clientKey.value).0 == Leaves(before, s, tx, OpenNotRelayed)
            && G.RemoveClientIfExists(gw, s.canisterId.value, s.clientKey.value)
               == (Leaves(before, s, tx, SessionFailed), Removed(s.clientKey.value))
  {
    AddedIsFound(before, s.canisterId.value, s.clientKey.value, tx);
  }

  /** A report that is no Setup leaves the registration as it was. */
  lemma SameClientLeaves<S>(before: Gateway<S>, s: Session, s': Session, tx: S)
    requires WellFormed(before) && s'.clientKey == s.clientKey && s'.canisterId == s.canisterId
    ensures Leaves(before, s', tx, StillOpen) == Leaves(before, s, tx, StillOpen)
    ensures Leaves(before, s', tx, PollerGone) == Leaves(before, s, tx, StillOpen)
  {}

  lemma NotRegisteredEndLeaves<S>(before: Gateway<S>, s: Session, tx: S)
    requires WellFormed(before)
    ensures !Registered(s) ==> Leaves(before, s, tx, HandlerPanicked) == Leaves(before, s, tx, StillOpen)
  {}

  lemma SetupLeaves<S>(before: Gateway<S>, s: Session, tx: S)
    requires WellFormed(before) && Registered(s)
    ensures var added := Insert(before, s.canisterId.value, s.clientKey.value, tx).0;
            && Leaves(before, s, tx, StillOpen) == added
            && Leaves(before, s, tx, OpenNotRelayed) == G.RemoveClient(added, s.canisterId.value, s.clientKey.value).0
  {}

  lemma NotRegisteredLeaves<S>(before: Gateway<S>, s: Session, tx: S)
    requires WellFormed(before) && !Registered(s)
    ensures Leaves(before, s, tx, StillOpen) == before
  {}

  predicate Registered(s: Session) { s.canisterId.Some? && s.clientKey.Some? }

  /** What a handler that has come to `r` leaves in the gateway state: the canister has an entry, new if it had none,
      and its client is in it as long as it has neither closed nor failed. A client that was there under the same key
      is replaced, and is gone with it. */
  ghost function Leaves<S>(before: Gateway<S>, s: Session, tx: S, r: HandlerResult): Gateway<S>
    requires WellFormed(before)
  {
    if !Registered(s) then before
    else
      var added := Insert(before, s.canisterId.value, s.clientKey.value, tx).0;
      if r.ClosedByClient? || r.OpenNotRelayed? || r.SessionFailed? then
        G.RemoveClient(added, s.canisterId.value, s.clientKey.value).0
      else added
  }

  /** Under its own canister and key the handler leaves its own client or, once it has ended the session, nobody.
      Everybody else stays registered or not, as before, and at most the handler's own canister is new in the map. */
  lemma LeavesOthersAlone<S>(before: Gateway<S>, s: Session, tx: S, r: HandlerResult, c: CanisterId, k: ClientKey)
    requires WellFormed(before) && Unshared(before)
    ensures var gw := Leaves(before, s, tx, r);
            && WellFormed(gw)
            && Find(gw, c, k) ==
               (if !Registered(s) || (c, k) != (s.canisterId.value, s.clientKey.value) then Find(before, c, k)
                else if r.ClosedByClient? || r.OpenNotRelayed? || r.SessionFailed? then None else Some(tx))
            && (c in gw.data <==> c in before.data || (Registered(s) && c == s.canisterId.value))
  {}

  /** The calls of `ws_close` of such a handler. */
  ghost function Closes(s: Session, r: HandlerResult): seq<(CanisterId, ClientKey)> {
    if Registered(s) && (r.ClosedByClient? || r.SessionFailed?) then [(s.canisterId.value, s.clientKey.value)] else []
  }

  /** It has a poller started: its client is the first of the canister and its open message was relayed. */
  ghost predicate StartsPoller<S>(before: Gateway<S>, s: Session, r: HandlerResult) {
    Registered(s) && s.canisterId.value !in before.data && !r.OpenNotRelayed?
  }

  /** How things stand after an event that took the session from `was` to `s`. */
  ghost predicate Settled<S>(before: Gateway<S>, was: Session, s: Session, tx: S, r: HandlerResult,
                             senderLeft: Option<S>,
                             started: bool, wsCloses: seq<(CanisterId, ClientKey)>) {
    && Consistent(s)
    && (r.StillOpen? ==> (s.state.Init? <==> !Registered(s)) && senderLeft == if Registered(s) then None else Some(tx))
    && (r.StillOpen? ==> !s.state.Closed?)
    && wsCloses == Closes(s, r)
    && (StartsPoller(before, s, r) <==> StartsPoller(before, was, StillOpen) || started)
    && (started ==> !Registered(was))
    && (r.ClosedByClient? || r.OpenNotRelayed? || r.SessionFailed? ==> Registered(s))
    && (r.HandlerPanicked? ==> !Registered(s))
    && (Registered(was) ==> Registered(s))
  }

  lemma SetupSettles<S>(before: Gateway<S>, was: Session, s: Session, tx: S, r: HandlerResult, started: bool)
    requires Consistent(s) && s.state.Setup? && !Registered(was) && (r.StillOpen? || r.OpenNotRelayed?)
    requires started <==> StartsPoller(before, s, r)
    ensures Settled(before, was, s, tx, r, None, started, [])
  {}

  /** What an event that is no Setup leaves of the session, in the terms of the handler. */
  ghost predicate Unchanged(was: Session, s: Session, report: Report) {
    && Consistent(s) && s.clientKey == was.clientKey && s.canisterId == was.canisterId
    && (report.NoChange? ==> s.state == was.state)
    && (report.Changed? ==> s.state == report.state && (report.state.Open? || report.state.Closed?))
    && (report.Changed? && report.state.Open? ==> Registered(s))
    && (report.Panicked? ==> !Registered(s))
  }

  lemma ReportedChanges(was: Session, e: Event)
    requires Consistent(was) && (was.state.Init? <==> !Registered(was))
    ensures var (s, report) := TryUpdateState(was, e);
            if report.Changed? && report.state.Setup? then
              Consistent(s) && s.state == report.state && Registered(s) && !Registered(was)
            else Unchanged(was, s, report)
  {
    UpdateMovesForward(was, e);
  }

  /** The report is one at which the handler takes its client out: a close, or an error other than a poller error. */
  predicate Ends(report: Report) {
    match report
    case Changed(Closed) => true
    case Failed(error) => !error.Poller?
    case _ => false
  }

  /** What becomes of the handler at a report that is neither a Setup nor an end. */
  function WithoutEnd(report: Report): HandlerResult {
    match report
    case Failed(_) => PollerGone
    case Changed(Init) => HandlerPanicked
    case Panicked => HandlerPanicked
    case _ => StillOpen
  }

  /** An event does not touch the registration. */
  lemma ReportedLeaves<S>(before: Gateway<S>, was: Session, e: Event, tx: S)
    requires WellFormed(before) && Consistent(was) && (was.state.Init? <==> !Registered(was))
    ensures var (s, report) := TryUpdateState(was, e);
            Leaves(before, was, tx, StillOpen) ==
              if report.Changed? && report.state.Setup? then before else Leaves(before, s, tx, StillOpen)
  {
    ReportedChanges(was, e);
  }

  /** What the handler comes to at an event that the session sees in state `s`, read off the event. */
  ghost predicate ComesTo(s: Session, e: Event, r: HandlerResult) {
    && (r.PollerGone? <==> e == ChannelClosed(true))
    && (r.ClosedByClient? <==> !s.state.Init? && HearsClose(e))
    && (r.SessionFailed? <==> !s.state.Init? && GoesWrong(s, e))
    && (r.OpenNotRelayed? <==> s.state.Init? && HearsOpenMessage(e) && !CanRelay(e.update.value))
    && (r.HandlerPanicked? <==>
          s.state.Init? && (StartsBadly(e) || e.FromCanister? || e == ChannelClosed(false)))
  }

  lemma SetupComesTo(s: Session, e: Event, r: HandlerResult)
    requires Consistent(s) && s.state.Init?
    requires TryUpdateState(s, e).1.Changed? && TryUpdateState(s, e).1.state.Setup?
    ensures HearsOpenMessage(e) && TryUpdateState(s, e).1 == Changed(Setup(e.update.value))
    ensures r == (if CanRelay(e.update.value) then StillOpen else OpenNotRelayed) ==> ComesTo(s, e, r)
  {
    InitReportsExactly(s, e);
  }

  lemma OtherwiseComesTo(was: Session, e: Event, r: HandlerResult)
    requires Consistent(was) && (was.state.Init? <==> !Registered(was)) && !was.state.Closed?
    requires var report := TryUpdateState(was, e).1;
             && !(report.Changed? && report.state.Setup?)
             && r == if !Ends(report) then WithoutEnd(report)
                     else if !Registered(was) then HandlerPanicked
                     else if report.Changed? then ClosedByClient
                     else SessionFailed
    ensures ComesTo(was, e, r) && !HearsOpenMessageInInit(was, e)
  {
    if was.state.Init? {
      InitReportsExactly(was, e);
      ErrorsExactly(was, e);
    } else {
      ReportsExactly(was, e);
    }
  }

  /** The session is set up for the canister that the open message calls. */
  lemma SetUpForCanister(s: Session, e: Event)
    requires Consistent(s) && HearsOpenMessageInInit(s, e)
    ensures TryUpdateState(s, e).0.canisterId == Some(e.update.value.request.value.content.canister)
  {
    InspectExactly(e.update.value);
  }

  predicate HearsOpenMessageInInit(s: Session, e: Event) { s.state.Init? && HearsOpenMessage(e) }

  lemma OtherwiseSettles<S>(before: Gateway<S>, was: Session, s: Session, report: Report, tx: S, r: HandlerResult,
                            senderLeft: Option<S>, wsCloses: seq<(CanisterId, ClientKey)>)
    requires (was.state.Init? <==> !Registered(was)) && !was.state.Closed? && Unchanged(was, s, report)
    requires senderLeft == if Registered(was) then None else Some(tx)
    requires wsCloses == Closes(s, r)
    requires !(report.Changed? && report.state.Setup?)
    requires r == if !Ends(report) then WithoutEnd(report)
                  else if !Registered(s) then HandlerPanicked
                  else if report.Changed? then ClosedByClient
                  else SessionFailed
    ensures Settled(before, was, s, tx, r, senderLeft, false, wsCloses)
  {}

  class Handler<S> {
    const gatewayState: GatewayState<S>

    constructor (gatewayState: GatewayState<S>)
      ensures this.gatewayState == gatewayState
    {
      this.gatewayState := gatewayState;
    }

    /** Puts the client into the gateway state. */
    method Register(session: ClientSessionActor, tx: S, ghost before: Gateway<S>)
      returns (newPollerState: Option<PollerState<S>>)
      requires gatewayState.Valid() && Registered(session.View()) && gatewayState.View() == before
      modifies gatewayState, gatewayState.states
      ensures gatewayState.Valid() && gatewayState.View() == Leaves(before, session.View(), tx, StillOpen)
      ensures Find(gatewayState.View(), session.canisterId.value, session.clientKey.value) == Some(tx)
      ensures newPollerState.Some? <==> session.canisterId.value !in before.data
      ensures newPollerState.Some? ==> fresh(newPollerState.value) && newPollerState.value.gen == |before.heap|
      ensures OneMoreAtMost(gatewayState)
    {
      SetupLeaves(before, session.View(), tx);
      hide Insert, G.RemoveClient, Contents, Generations, WellFormed, Leaves, Find;
      newPollerState :=
        gatewayState.InsertClientChannelAndGetNewPollerState(session.canisterId.value, session.clientKey.value, tx);
    }

    /** Relays the open message. The client has to be in the gateway state by then, lest the reply finds nobody. */
    method RelayOpen(session: ClientSessionActor, m: WsMessage, ghost tx: S) returns (relayed: bool)
      requires gatewayState.Valid() && Registered(session.View())
      requires Find(gatewayState.View(), session.canisterId.value, session.clientKey.value) == Some(tx)
      modifies session`handedOver
      ensures relayed <==> CanRelay(m)
      ensures session.handedOver ==
                old(session.handedOver) + if CanRelay(m) then [(session.canisterId.value, m.request.value)] else []
    {
      RelayExactly(session.View(), m);
      var outcome := session.Relay(m);
      relayed := outcome.Done?;
    }

    /** Takes the client out, where it is expected to be. */
    method TakeOut(session: ClientSessionActor, ghost before: Gateway<S>, ghost tx: S)
      requires gatewayState.Valid() && WellFormed(before) && Registered(session.View())
      requires gatewayState.View() == Leaves(before, session.View(), tx, StillOpen)
      modifies gatewayState.states
      ensures gatewayState.Valid() && gatewayState.states == old(gatewayState.states)
      ensures gatewayState.View() == Leaves(before, session.View(), tx, OpenNotRelayed)
      ensures gatewayState.View() == Leaves(before, session.View(), tx, ClosedByClient)
    {
      EndLeaves(before, session.View(), tx);
      hide Insert, G.RemoveClient, G.RemoveClientIfExists, Contents, Generations, Leaves;
      var found := gatewayState.RemoveClient(session.canisterId.value, session.clientKey.value);
    }

    /** Takes the client out, if it is there, and says whether the canister is to be told. */
    method TakeOutIfExists(session: ClientSessionActor, ghost before: Gateway<S>, ghost tx: S)
      returns (wsCloses: seq<(CanisterId, ClientKey)>)
      requires gatewayState.Valid() && WellFormed(before) && Registered(session.View())
      requires gatewayState.View() == Leaves(before, session.View(), tx, StillOpen)
      modifies gatewayState.states
      ensures gatewayState.Valid() && gatewayState.states == old(gatewayState.states)
      ensures gatewayState.View() == Leaves(before, session.View(), tx, SessionFailed)
      ensures wsCloses == [(session.canisterId.value, session.clientKey.value)]
    {
      EndLeaves(before, session.View(), tx);
      hide Insert, G.RemoveClient, G.RemoveClientIfExists, Contents, Generations, Leaves;
      var c, k := session.canisterId.value, session.clientKey.value;
      var removal := gatewayState.RemoveClientIfExists(c, k);
      wsCloses := if removal.Removed? then [(c, removal.clientKey)] else [];
    }

    /** Setup was reported: registers, then relays the open message, and then has the poller started if it is the
        first. */
    method OnSetup(session: ClientSessionActor, m: WsMessage, tx: S, ghost before: Gateway<S>)
      returns (r: HandlerResult, started: Option<PollerState<S>>)
      requires gatewayState.Valid() && Registered(session.View()) && session.sessionState == Setup(m)
      requires gatewayState.View() == before
      modifies session`handedOver, gatewayState, gatewayState.states
      ensures gatewayState.Valid()
      ensures r == if CanRelay(m) then StillOpen else OpenNotRelayed
      ensures gatewayState.View() == Leaves(before, session.View(), tx, r)
      ensures started.Some? <==> StartsPoller(before, session.View(), r)
      ensures started.Some? <==> session.canisterId.value !in before.data && CanRelay(m)
      ensures started.Some? ==> fresh(started.value) && started.value.gen == |before.heap|
      ensures OneMoreAtMost(gatewayState)
      ensures session.handedOver ==
                old(session.handedOver) + if CanRelay(m) then [(session.canisterId.value, m.request.value)] else []
    {
      hide Insert, G.RemoveClient, Contents, Generations, RelayClientMessage, WellFormed, Leaves, Find;
      started := Register(session, tx, before);
      r := StillOpen;
      var relayed := RelayOpen(session, m, tx);
      if !relayed {
        TakeOut(session, before, tx);
        r, started := OpenNotRelayed, None;
      }
    }

    /** Closed was reported, or an error other than a poller error: the client is removed and the canister told. */
    method OnEnd(session: ClientSessionActor, closed: bool, ghost before: Gateway<S>, ghost tx: S)
      returns (r: HandlerResult, wsCloses: seq<(CanisterId, ClientKey)>)
      requires gatewayState.Valid() && WellFormed(before)
      requires gatewayState.View() == Leaves(before, session.View(), tx, StillOpen)
      modifies gatewayState.states
      ensures gatewayState.Valid() && gatewayState.states == old(gatewayState.states)
      ensures r == if !Registered(session.View()) then HandlerPanicked
                   else if closed then ClosedByClient
                   else SessionFailed
      ensures gatewayState.View() == Leaves(before, session.View(), tx, r)
      ensures wsCloses == Closes(session.View(), r)
      ensures Registered(session.View()) ==>
                |wsCloses| == 1 && wsCloses[0].0 == session.canisterId.value && wsCloses[0].1 == session.clientKey.value
      ensures !Registered(session.View()) ==> wsCloses == []
    {
      hide Insert, G.RemoveClient, G.RemoveClientIfExists, Generations, Contents, Leaves, WellFormed;
      r, wsCloses := HandlerPanicked, [];
      NotRegisteredEndLeaves(before, session.View(), tx);
      if session.canisterId.Some? && session.clientKey.Some? {
        if closed {
          TakeOut(session, before, tx);
          r, wsCloses := ClosedByClient, [(session.canisterId.value, session.clientKey.value)];
        } else {
          wsCloses := TakeOutIfExists(session, before, tx);
          r := SessionFailed;
        }
      }
    }

    /** What the loop does with a report that is no Setup. `s` is the session before the event. */
    method OnOtherReport(session: ClientSessionActor, report: Report, senderLeft: Option<S>,
                         ghost s: Session, ghost before: Gateway<S>, ghost tx: S)
      returns (r: HandlerResult, wsCloses: seq<(CanisterId, ClientKey)>)
      requires gatewayState.Valid() && WellFormed(before)
      requires Unchanged(s, session.View(), report) && (s.state.Init? <==> !Registered(s)) && !s.state.Closed?
      requires !(report.Changed? && report.state.Setup?)
      requires senderLeft == if Registered(s) then None else Some(tx)
      requires gatewayState.View() == Leaves(before, session.View(), tx, StillOpen)
      modifies gatewayState.states
      ensures gatewayState.Valid() && gatewayState.states == old(gatewayState.states)
      ensures gatewayState.View() == Leaves(before, session.View(), tx, r)
      ensures Settled(before, s, session.View(), tx, r, senderLeft, false, wsCloses)
      ensures r == if !Ends(report) then WithoutEnd(report)
                   else if !Registered(s) then HandlerPanicked
                   else if report.Changed? then ClosedByClient
                   else SessionFailed
    {
      SameClientLeaves(before, s, session.View(), tx);
      NotRegisteredEndLeaves(before, session.View(), tx);
      hide Insert, Generations, Contents, WellFormed, Leaves, Settled, Unchanged, StartsPoller, Consistent;
      r, wsCloses := WithoutEnd(report), [];
      if Ends(report) {
        r, wsCloses := OnEnd(session, report.Changed?, before, tx);
      }
      OtherwiseSettles(before, s, session.View(), report, tx, r, senderLeft, wsCloses);
    }

    /** What the loop does with a report. `s` is the session before the event, `senderLeft` what is left of the
        channel's sender for a registration. */
    method OnReport(session: ClientSessionActor, report: Report, senderLeft: Option<S>,
                    ghost s: Session, ghost e: Event, ghost before: Gateway<S>, ghost tx: S)
      returns (r: HandlerResult, senderLeft': Option<S>, started: Option<PollerState<S>>,
               wsCloses: seq<(CanisterId, ClientKey)>)
      requires gatewayState.Valid() && WellFormed(before) && Consistent(s)
      requires (session.View(), report) == TryUpdateState(s, e)
      requires (s.state.Init? <==> !Registered(s)) && !s.state.Closed?
      requires senderLeft == if Registered(s) then None else Some(tx)
      requires gatewayState.View() == Leaves(before, s, tx, StillOpen)
      modifies session`handedOver, gatewayState, gatewayState.states
      ensures gatewayState.Valid()
      ensures gatewayState.View() == Leaves(before, session.View(), tx, r)
      ensures Settled(before, s, session.View(), tx, r, senderLeft', started.Some?, wsCloses)
      ensures started.Some? ==> fresh(started.value) && started.value.gen == |before.heap|
      ensures OneMoreAtMost(gatewayState)
      ensures (r.StillOpen? && !Registered(session.View())) || Registered(s) ==>
                gatewayState.states == old(gatewayState.states)
      ensures ComesTo(s, e, r)
      ensures session.handedOver ==
                old(session.handedOver) + if HearsOpenMessageInInit(s, e) then HandsOverOpen(e.update.value) else []
    {
      ReportedChanges(s, e);
      ReportedLeaves(before, s, e, tx);
      hide Insert, Generations, Contents, TryUpdateState, WellFormed, Leaves, Settled, Unchanged, StartsPoller,
          Consistent;
      senderLeft', started, wsCloses := senderLeft, None, [];
      if report.Changed? && report.state.Setup? {
        if senderLeft.None? { return HandlerPanicked, senderLeft, None, []; }
        r, started := OnSetup(session, report.state.openMessage, senderLeft.value, before);
        senderLeft' := None;
        SetupSettles(before, s, session.View(), tx, r, started.Some?);
        SetupComesTo(s, e, r);
        SetUpForCanister(s, e);
      } else {
        r, wsCloses := OnOtherReport(session, report, senderLeft, s, before, tx);
        OtherwiseComesTo(s, e, r);
      }
    }

    /** One pass of the event loop. */
    method OnEvent(session: ClientSessionActor, e: Event, senderLeft: Option<S>, ghost before: Gateway<S>, ghost tx: S)
      returns (r: HandlerResult, senderLeft': Option<S>, started: Option<PollerState<S>>,
               wsCloses: seq<(CanisterId, ClientKey)>)
      requires gatewayState.Valid() && WellFormed(before) && MayGoOn(session.View(), senderLeft, tx)
      requires gatewayState.View() == Leaves(before, session.View(), tx, StillOpen)
      modifies session, gatewayState, gatewayState.states
      ensures gatewayState.Valid()
      ensures session.View() == TryUpdateState(old(session.View()), e).0
      ensures gatewayState.View() == Leaves(before, session.View(), tx, r)
      ensures Settled(before, old(session.View()), session.View(), tx, r, senderLeft', started.Some?, wsCloses)
      ensures started.Some? ==> fresh(started.value) && started.value.gen == |before.heap|
      ensures OneMoreAtMost(gatewayState)
      ensures (r.StillOpen? && !Registered(session.View())) || old(Registered(session.View())) ==>
                gatewayState.states == old(gatewayState.states)
      ensures ComesTo(old(session.View()), e, r)
      ensures session.handedOver == old(session.handedOver) + NowHanded(old(session.View()), e)
    {
      hide TryUpdateState, Leaves, Generations, Contents, ComesTo, Settled, Insert, WellFormed, HandsOverOpen,
          Consistent;
      NowHandedInParts(session.View(), e);
      ghost var s := session.View();
      var report := session.UpdateState(e);
      r, senderLeft', started, wsCloses := OnReport(session, report, senderLeft, s, e, before, tx);
    }

    /** The event loop, while no other task interferes. The client is registered from the event that sets the session
        up to the one that ends it, one poller is started if the canister had no entry, and `ws_close` is called once
        if the session ended on its client's side. */
    method HandleClientSession(session: ClientSessionActor, tx: S, events: seq<Event>)
      returns (r: HandlerResult, used: nat, started: Option<PollerState<S>>, wsCloses: seq<(CanisterId, ClientKey)>)
      requires gatewayState.Valid() && session.View() == NEW_SESSION
      modifies session, gatewayState, gatewayState.states
      ensures gatewayState.Valid() && used <= |events|
      ensures session.View() == UpdateAll(NEW_SESSION, events[..used])
      ensures r.StillOpen? ==> used == |events| && StaysOpen(events, used)
      ensures !r.StillOpen? ==> used > 0 && EndsAt(events, used - 1, r)
      ensures gatewayState.View() == Leaves(old(gatewayState.View()), session.View(), tx, r)
      ensures |wsCloses| == if r.ClosedByClient? || r.SessionFailed? then 1 else 0
      ensures |wsCloses| == 1 ==>
                session.canisterId == Some(wsCloses[0].0) && session.clientKey == Some(wsCloses[0].1)
      ensures started.Some? <==>
                && session.canisterId.Some? && session.clientKey.Some?
                && session.canisterId.value !in old(gatewayState.View()).data && !r.OpenNotRelayed?
      ensures started.Some? ==> fresh(started.value) && started.value.gen == |old(gatewayState.View()).heap|
      ensures r.ClosedByClient? || r.OpenNotRelayed? || r.SessionFailed? ==> Registered(session.View())
      ensures r.HandlerPanicked? ==> !Registered(session.View())
      ensures session.handedOver == old(session.handedOver) + HandedOver(events[..used])
    {
      hide TryUpdateState, UpdateAll, Leaves, Generations, Contents, ComesTo, HandedOver, NowHanded, StaysOpen, EndsAt,
        Insert, WellFormed, Settled, Consistent;
      var clientChannelTx := Some(tx);
      started := None;
      ghost var before := gatewayState.View();
      NothingYet(before, events, tx);
      for i := 0 to |events|
        invariant gatewayState.Valid() && gatewayState.View() == Leaves(before, session.View(), tx, StillOpen)
        invariant session.View() == UpdateAll(NEW_SESSION, events[..i]) && StaysOpen(events, i)
        invariant MayGoOn(session.View(), clientChannelTx, tx)
        invariant session.handedOver == old(session.handedOver) + HandedOver(events[..i])
        invariant started.Some? <==> StartsPoller(before, session.View(), StillOpen)
        invariant started.Some? ==> fresh(started.value) && started.value.gen == |before.heap|
        invariant OneMoreAtMost(gatewayState)
        invariant !Registered(session.View()) ==> gatewayState.states == old(gatewayState.states)
      {
        OneMoreEvent(events, i);
        ghost var s := session.View();
        var newPollerState;
        r, clientChannelTx, newPollerState, wsCloses := OnEvent(session, events[i], clientChannelTx, before, tx);
        SettledMeans(before, s, session.View(), tx, r, clientChannelTx, newPollerState.Some?, wsCloses);
        FirstEnd(events, i, r);
        if newPollerState.Some? { started := newPollerState; }
        if !r.StillOpen? { return r, i + 1, started, wsCloses; }
      }
      assert events[..|events|] == events;
      return StillOpen, |events|, started, [];
    }
  }

  /** The session can see more events. */
  ghost predicate MayGoOn<S>(s: Session, senderLeft: Option<S>, tx: S) {
    && Consistent(s) && (s.state.Init? <==> !Registered(s)) && !s.state.Closed?
    && senderLeft == if Registered(s) then None else Some(tx)
  }

  lemma SettledMeans<S>(before: Gateway<S>, was: Session, s: Session, tx: S, r: HandlerResult, senderLeft: Option<S>,
                        started: bool, wsCloses: seq<(CanisterId, ClientKey)>)
    requires Settled(before, was, s, tx, r, senderLeft, started, wsCloses)
    ensures r.StillOpen? ==> MayGoOn(s, senderLeft, tx)
    ensures |wsCloses| == if r.ClosedByClient? || r.SessionFailed? then 1 else 0
    ensures |wsCloses| == 1 ==> s.canisterId == Some(wsCloses[0].0) && s.clientKey == Some(wsCloses[0].1)
    ensures StartsPoller(before, s, r) <==> StartsPoller(before, was, StillOpen) || started
    ensures r.ClosedByClient? || r.OpenNotRelayed? || r.SessionFailed? ==> Registered(s)
    ensures r.HandlerPanicked? ==> !Registered(s)
    ensures Registered(was) ==> Registered(s)
  {}

  /** None of the first `n` events ends the session. */
  ghost predicate StaysOpen(events: seq<Event>, n: nat) {
    forall j :: 0 <= j < n && j < |events| ==> ComesTo(UpdateAll(NEW_SESSION, events[..j]), events[j], StillOpen)
  }

  /** The event at `i` is the first to end the session, with the result `r`. */
  ghost predicate EndsAt(events: seq<Event>, i: nat, r: HandlerResult) {
    i < |events| && StaysOpen(events, i) && ComesTo(UpdateAll(NEW_SESSION, events[..i]), events[i], r)
  }

  lemma OneMoreEvent(events: seq<Event>, i: nat)
    requires i < |events|
    ensures var s := UpdateAll(NEW_SESSION, events[..i]);
            && UpdateAll(NEW_SESSION, events[..i + 1]) == TryUpdateState(s, events[i]).0
            && HandedOver(events[..i + 1]) == HandedOver(events[..i]) + NowHanded(s, events[i])
  {
    hide ComesTo, TryUpdateState, NowHanded;
    assert events[..i + 1][..i] == events[..i];
  }

  lemma FirstEnd(events: seq<Event>, i: nat, r: HandlerResult)
    requires i < |events| && StaysOpen(events, i) && ComesTo(UpdateAll(NEW_SESSION, events[..i]), events[i], r)
    ensures EndsAt(events, i, r) && (r.StillOpen? ==> StaysOpen(events, i + 1))
  {}

  lemma NowHandedInParts(s: Session, e: Event)
    ensures NowHanded(s, e) ==
              HandsOver(s, e) + if HearsOpenMessageInInit(s, e) then HandsOverOpen(e.update.value) else []
  {}

  lemma NothingYet<S>(before: Gateway<S>, events: seq<Event>, tx: S)
    requires WellFormed(before)
    ensures Leaves(before, NEW_SESSION, tx, StillOpen) == before && MayGoOn(NEW_SESSION, Some(tx), tx)
    ensures UpdateAll(NEW_SESSION, events[..0]) == NEW_SESSION && HandedOver(events[..0]) == [] && StaysOpen(events, 0)
  {}
}
