/** What a session makes of what it hears, in every run: where its handler goes, who it takes its client to be, and
    what it hands over for its canister. */
module Conversation {
  import opened Basics
  import opened ClientSession
  import opened World
  import opened Steps
  import opened Sessions
  import opened Entries

  // ---- Where the handler goes ----

  /** What a waiting handler does next, by what its session hears: it registers its client at an open message in Init,
      takes it out at a close or when something goes wrong past Init, ends without taking it out when the channel is
      closed, panics at anything else in Init, and waits on at everything else. */
  lemma UpdateLeadsTo(w: World, s: nat, e: Event)
    requires Enabled(w, Update(s, e)) && HandlerOk(w.handlers[s])
    ensures s < |Apply(w, Update(s, e)).handlers|
    ensures var session, pc := w.handlers[s].session, Apply(w, Update(s, e)).handlers[s].pc;
            && (pc.Registering? <==> session.state.Init? && HearsOpenMessage(e))
            && (pc.Registering? ==> pc.message == e.update.value)
            && (pc.Closing? <==> !session.state.Init? && HearsClose(e))
            && (pc.Failing? <==> !session.state.Init? && GoesWrong(session, e))
            && (pc.Ended? <==> e == ChannelClosed(true))
            && (pc.Crashed? <==> session.state.Init? && StartsBadly(e))
            && (pc.Awaiting? || pc.Registering? || pc.Closing? || pc.Failing? || pc.Ended? || pc.Crashed?)
  {
    hide HandleEvent, TryUpdateState;
    var h := w.handlers[s];
    UpdateMovesForward(h.session, e);
    if h.session.state.Init? {
      OnlyClientEventsInInit(w, s, e);
      InitReportsExactly(h.session, e);
    } else {
      ReportsExactly(h.session, e);
    }
  }

  // ---- Who the client is ----

  /** The session has the key and the canister of the open message `m`. */
  predicate IsSetUpBy(session: Session, m: WsMessage)
    requires IsOpenMessage(m)
  {
    && session.clientKey.Some? && session.canisterId.Some?
    && session.clientKey.value.principal == m.request.value.content.sender
    && session.clientKey.value.nonce == m.request.value.content.arg.value.clientNonce
    && session.canisterId.value == m.request.value.content.canister
  }

  /** The key and the canister of a session are those of an open message that it heard from its client while in Init. */
  lemma {:induction false} IdentityWasHeard(ws: seq<World>, actions: seq<Action>, i: nat, s: nat) returns (j: nat)
    requires Run(ws, actions) && i < |ws| && s < |ws[i].handlers| && ws[i].handlers[s].session.clientKey.Some?
    ensures j < i && actions[j].Update? && actions[j].sid == s && HearsOpenMessage(actions[j].event)
    ensures s < |ws[j].handlers| && ws[j].handlers[s].session.state.Init?
    ensures IsSetUpBy(ws[i].handlers[s].session, actions[j].event.update.value)
  {
    hide Apply;
    var w, a := ws[i - 1], actions[i - 1];
    HandlersFrame(w, a);
    RunInv(ws, actions, i - 1);
    assert HandlerOk(w.handlers[s]);
    if w.handlers[s].session.clientKey.Some? {
      StepKeepsIdentity(w, a, s);
      j := IdentityWasHeard(ws, actions, i - 1, s);
    } else {
      NewIdentity(w, a, s);
      j := i - 1;
    }
  }

  lemma NewIdentity(w: World, a: Action, s: nat)
    requires Enabled(w, a) && s < |w.handlers| && HandlerOk(w.handlers[s]) && w.handlers[s].session.clientKey.None?
    requires s < |Apply(w, a).handlers| && Apply(w, a).handlers[s].session.clientKey.Some?
    ensures a.Update? && a.sid == s && HearsOpenMessage(a.event) && w.handlers[s].session.state.Init?
    ensures IsSetUpBy(Apply(w, a).handlers[s].session, a.event.update.value)
  {
    HandlerFields(w, a, s);
    UpdateMovesForward(w.handlers[s].session, a.event);
    if Hears(a.event) {
      InspectExactly(a.event.update.value);
    }
  }

  // ---- What goes to the canister ----

  /** The events that the session of `s` has seen in the first `i` steps. */
  ghost function EventsOf(actions: seq<Action>, i: nat, s: nat): seq<Event>
    requires i <= |actions|
  {
    if i == 0 then []
    else EventsOf(actions, i - 1, s) + if IsUpdateOf(actions[i - 1], s) then [actions[i - 1].event] else []
  }

  predicate IsUpdateOf(a: Action, s: nat) { a.Update? && a.sid == s }

  /** What is handed over once the handler has come to relaying the open message that it holds. */
  function OwedOpen(h: Handler): seq<Handed> {
    match h.pc
    case Registering(m) => HandsOverOpen(m)
    case RelayingOpen(m) => HandsOverOpen(m)
    case _ => []
  }

  ghost predicate FollowsEvents(h: Handler, events: seq<Event>) {
    h.session == UpdateAll(NEW_SESSION, events) && h.handed + OwedOpen(h) == HandedOver(events)
  }

  lemma {:induction false} NoEventsBeforeAccept(ws: seq<World>, actions: seq<Action>, i: nat, s: nat)
    requires Run(ws, actions) && i < |ws| && |ws[i].handlers| <= s
    ensures EventsOf(actions, i, s) == []
  {
    hide Apply;
    if i > 0 {
      HandlersFrame(ws[i - 1], actions[i - 1]);
      NoEventsBeforeAccept(ws, actions, i - 1, s);
    }
  }

  lemma EventFollows(w: World, s: nat, e: Event, events: seq<Event>)
    requires Enabled(w, Update(s, e)) && HandlerOk(w.handlers[s]) && FollowsEvents(w.handlers[s], events)
    ensures s < |Apply(w, Update(s, e)).handlers| && FollowsEvents(Apply(w, Update(s, e)).handlers[s], events + [e])
  {
    var h, h' := w.handlers[s], Apply(w, Update(s, e)).handlers[s];
    assert (events + [e])[..|events|] == events;
    UpdateLeadsTo(w, s, e);
    UpdateFields(w, s, e);
    assert h.handed + [] == h.handed;
    assert h'.handed + [] == h'.handed;
  }

  lemma UpdateFields(w: World, s: nat, e: Event)
    requires Enabled(w, Update(s, e))
    ensures s < |Apply(w, Update(s, e)).handlers|
    ensures var h, h' := w.handlers[s], Apply(w, Update(s, e)).handlers[s];
            h'.session == TryUpdateState(h.session, e).0 && h'.handed == h.handed + HandsOver(h.session, e)
  {}

  lemma OtherStepFollows(w: World, a: Action, s: nat, events: seq<Event>)
    requires Enabled(w, a) && s < |w.handlers| && HandlerOk(w.handlers[s]) && FollowsEvents(w.handlers[s], events)
    requires !IsUpdateOf(a, s)
    ensures s < |Apply(w, a).handlers| && FollowsEvents(Apply(w, a).handlers[s], events)
  {
    hide Apply;
    HandlerFields(w, a, s);
    if ByHandler(a, s) {
      OwnStepHands(w, a, s);
    }
  }

  lemma OwnStepHands(w: World, a: Action, s: nat)
    requires Enabled(w, a) && ByHandler(a, s) && !a.Update? && s < |w.handlers| && HandlerOk(w.handlers[s])
    ensures s < |Apply(w, a).handlers|
    ensures var h, h' := w.handlers[s], Apply(w, a).handlers[s];
            h'.handed + OwedOpen(h') == h.handed + OwedOpen(h)
  {
    var h := w.handlers[s];
    assert h.handed + [] == h.handed;
    if a.RelayOpen? {
      RelayExactly(h.session, h.pc.message);
      assert h.handed + HandsOverOpen(h.pc.message) + [] == h.handed + HandsOverOpen(h.pc.message);
    } else if RemovesClient(a) {
      RemovalHandsNothing(w, a, s);
    }
  }

  lemma RemovalHandsNothing(w: World, a: Action, s: nat)
    requires Enabled(w, a) && RemovesClient(a) && a.sid == s
    ensures s < |Apply(w, a).handlers| && Apply(w, a).handlers[s].handed == w.handlers[s].handed
    ensures OwedOpen(w.handlers[s]) == OwedOpen(Apply(w, a).handlers[s]) == []
  {}

  lemma NewFollows()
    ensures FollowsEvents(NEW_HANDLER, [])
  {
    assert NEW_HANDLER.handed + [] == [];
  }

  lemma {:induction false} RunFollows(ws: seq<World>, actions: seq<Action>, i: nat, s: nat)
    requires Run(ws, actions) && i < |ws| && s < |ws[i].handlers|
    ensures FollowsEvents(ws[i].handlers[s], EventsOf(actions, i, s))
  {
    hide Apply, FollowsEvents;
    var w, a := ws[i - 1], actions[i - 1];
    HandlersFrame(w, a);
    if s < |w.handlers| {
      RunFollows(ws, actions, i - 1, s);
      RunInv(ws, actions, i - 1);
      if IsUpdateOf(a, s) {
        EventFollows(w, s, a.event, EventsOf(actions, i - 1, s));
      } else {
        OtherStepFollows(w, a, s, EventsOf(actions, i - 1, s));
        assert EventsOf(actions, i, s) == EventsOf(actions, i - 1, s);
      }
    } else {
      NoEventsBeforeAccept(ws, actions, i - 1, s);
      NewFollows();
    }
  }

  /** In every run a session is where the events it has seen lead, whatever the other tasks do, and what was handed over
      for its canister is its open message and then each call that it heard in Open and that can be relayed: once, in
      order and for no other canister. The open message may be still to come. */
  lemma SessionFollowsItsEvents(ws: seq<World>, actions: seq<Action>, i: nat, s: nat)
    requires Run(ws, actions) && i < |ws| && s < |ws[i].handlers|
    ensures var h, events := ws[i].handlers[s], EventsOf(actions, i, s);
            h.session == UpdateAll(NEW_SESSION, events) && h.handed + OwedOpen(h) == HandedOver(events)
  {
    RunFollows(ws, actions, i, s);
  }

  /** A call that an open session hears from its client is handed over for the canister of the session, as it is, and
      nothing else that it hears is. */
  lemma CallsAreHandedOver(ws: seq<World>, actions: seq<Action>, i: nat)
    requires Run(ws, actions) && i < |actions| && actions[i].Update?
    requires actions[i].sid < |ws[i].handlers| && actions[i].sid < |ws[i + 1].handlers|
    requires ws[i].handlers[actions[i].sid].session.state.Open?
    ensures var s, e := actions[i].sid, actions[i].event;
            var h, h' := ws[i].handlers[s], ws[i + 1].handlers[s];
            if Hears(e) && IsCall(e.update.value) && e.update.value.request.value.encodes then
              && |h'.handed| == |h.handed| + 1 && h'.handed[..|h.handed|] == h.handed
              && Some(h'.handed[|h.handed|].0) == h.session.canisterId
              && h'.handed[|h.handed|].1 == e.update.value.request.value
            else h'.handed == h.handed
  {
    hide Apply;
    RunInv(ws, actions, i);
    assert HandlerOk(ws[i].handlers[actions[i].sid]);
    UpdateFields(ws[i], actions[i].sid, actions[i].event);
  }

  /** The open message is handed over when it is relayed, for the canister it calls, if it can be; otherwise setup is
      undone. */
  lemma OpenIsHandedOver(ws: seq<World>, actions: seq<Action>, i: nat)
    requires Run(ws, actions) && i < |actions| && actions[i].RelayOpen?
    ensures actions[i].sid < |ws[i].handlers| && actions[i].sid < |ws[i + 1].handlers|
    ensures var h, h' := ws[i].handlers[actions[i].sid], ws[i + 1].handlers[actions[i].sid];
            && h.pc.RelayingOpen? && IsOpenMessage(h.pc.message)
            && var request := h.pc.message.request.value;
               if request.encodes then
                 && |h'.handed| == |h.handed| + 1 && h'.handed[..|h.handed|] == h.handed
                 && h'.handed[|h.handed|].0 == request.content.canister && h'.handed[|h.handed|].1 == request
                 && h'.relayedOpen && (h'.pc.StartingPoller? || h'.pc.Awaiting?)
                 && (h'.pc.StartingPoller? <==> h.owed.Some?)
               else h'.pc.UndoingSetup? && h'.handed == h.handed
  {
    RunInv(ws, actions, i);
    var h := ws[i].handlers[actions[i].sid];
    assert HandlerOk(h);
    InspectExactly(h.pc.message);
    RelayExactly(h.session, h.pc.message);
  }
}
