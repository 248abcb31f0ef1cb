/** What the gateway guarantees in every run, whatever the clients, the canisters and the scheduling. */
module Guarantees {
  import opened Basics
  import opened Gateway
  import opened ClientSession
  import opened World
  import opened Steps
  import opened Ownership
  import opened Sessions
  import opened Entries

  // ---- Ownership of canisters ----

  /** Whoever has to see to it that a canister is polled. */
  datatype Owner = Starter(sid: nat) | Running(pid: nat)

  ghost predicate Owns(w: World, o: Owner, c: CanisterId) {
    match o
    case Starter(s) => s < |w.handlers| && w.handlers[s].owed.Some? && w.handlers[s].session.canisterId == Some(c)
    case Running(p) => p < |w.pollers| && Active(w.pollers[p]) && w.pollers[p].canister == c
  }

  ghost function OwnedState(w: World, o: Owner, c: CanisterId): nat
    requires Owns(w, o, c)
  {
    match o
    case Starter(s) => w.handlers[s].owed.value
    case Running(p) => w.pollers[p].gen
  }

  /** Nobody polls the canister, although its entry is there. */
  ghost predicate IsOrphan(w: World, c: CanisterId) {
    c in w.gw.data && w.gw.data[c] < |w.gens| && w.gens[w.gw.data[c]].role.Orphaned?
  }

  lemma OwnerHoldsCurrent(w: World, o: Owner, c: CanisterId)
    requires SessionsInv(w) && Owns(w, o, c)
    ensures c in w.gw.data && OwnedState(w, o, c) == w.gw.data[c] < |w.gens|
    ensures w.gens[w.gw.data[c]].role == match o case Starter(s) => Owed(s) case Running(p) => Polled(p)
  {
    match o {
      case Starter(s) =>
        assert HandlerOwes(w, s) && GenIsOwnCanister(w, s);
        assert GenOk(w, w.handlers[s].owed.value);
      case Running(p) =>
        assert PollerOwns(w, p);
        ActivePollerIsInMap(w, p);
    }
  }

  /** A canister is in the map exactly when it has an owner, or has been orphaned, and not both. The owner is the only
      one, and its poller state is the very one in the map: two pollers never poll one canister. */
  lemma OneOwnerPerCanister(ws: seq<World>, actions: seq<Action>, i: nat, c: CanisterId)
    requires Run(ws, actions) && i < |ws|
    ensures forall o, p :: Owns(ws[i], o, c) && Owns(ws[i], p, c) ==> o == p
    ensures forall o :: Owns(ws[i], o, c) ==> c in ws[i].gw.data && OwnedState(ws[i], o, c) == ws[i].gw.data[c]
    ensures c in ws[i].gw.data <==> IsOrphan(ws[i], c) || exists o :: Owns(ws[i], o, c)
    ensures IsOrphan(ws[i], c) ==> forall o :: !Owns(ws[i], o, c)
  {
    var w := ws[i];
    RunInv(ws, actions, i);
    forall o | Owns(w, o, c)
      ensures c in w.gw.data && OwnedState(w, o, c) == w.gw.data[c] < |w.gens|
              && w.gens[w.gw.data[c]].role == match o case Starter(s) => Owed(s) case Running(p) => Polled(p)
    {
      OwnerHoldsCurrent(w, o, c);
    }
    if c in w.gw.data {
      var g := w.gw.data[c];
      assert CanisterOk(w, c) && GenOk(w, g);
      match w.gens[g].role {
        case Owed(s) => assert Owns(w, Starter(s), c);
        case Polled(p) => assert Owns(w, Running(p), c);
        case _ =>
      }
    }
  }

  /** Over the whole run, each poller state is polled by at most one poller. */
  lemma OnePollerPerPollerState(ws: seq<World>, actions: seq<Action>, i: nat, p: nat, q: nat)
    requires Run(ws, actions) && i < |ws| && p < |ws[i].pollers| && q < |ws[i].pollers|
    requires ws[i].pollers[p].gen == ws[i].pollers[q].gen
    ensures p == q
  {
    RunInv(ws, actions, i);
    assert PollerOwns(ws[i], p) && PollerOwns(ws[i], q);
  }

  /** When a poller asks whether its canister is empty, or removes it as failed, the entry is there and is its own:
      `NotEmpty` means that clients are left, and the `unreachable!` of the removal is never reached. */
  lemma RemovalPreconditions(ws: seq<World>, actions: seq<Action>, i: nat)
    requires Run(ws, actions) && i < |actions| && RemovesCanister(actions[i])
    ensures var p := ws[i].pollers[actions[i].pid];
            && p.canister in ws[i].gw.data && ws[i].gw.data[p.canister] == p.gen
            && (actions[i].CheckClients? ==>
                  (ws[i + 1].pollers[actions[i].pid].pc.Asking? <==> ws[i].gw.heap[p.gen].Keys != {}))
            && (actions[i].RemoveCanister? ==> ws[i + 1].pollers[actions[i].pid].pc.Stopped?)
            && (ws[i + 1].pollers[actions[i].pid].pc.Stopped? ==> p.canister !in ws[i + 1].gw.data)
  {
    RunInv(ws, actions, i);
    ActivePollerIsInMap(ws[i], actions[i].pid);
  }

  // ---- Orphans: the poller nobody starts ----

  /** The envelope of a message was decoded but cannot be serialized again. */
  predicate CannotEncode(m: WsMessage) {
    IsDecoded(m) && !m.request.value.encodes
  }

  /** A handler starts to undo its setup exactly when the message it is about to relay cannot be serialized again, and
      then goes on to do nothing else. */
  lemma UndoingStep(w: World, a: Action, s: nat)
    requires Enabled(w, a) && s < |w.handlers| && HandlerOk(w.handlers[s])
    ensures s < |Apply(w, a).handlers|
    ensures var h, h' := w.handlers[s], Apply(w, a).handlers[s];
            && (h'.pc.UndoingSetup? <==>
                  || (h.pc.UndoingSetup? && a != UndoSetup(s))
                  || (a == RelayOpen(s) && CannotEncode(h.pc.message)))
            && (h'.pc.UndoingSetup? ==> h'.owed == h.owed && h'.session == h.session)
  {
    hide Apply;
    HandlerFields(w, a, s);
    if ByHandler(a, s) {
      OwnUndoingStep(w, a, s);
    }
  }

  lemma OwnUndoingStep(w: World, a: Action, s: nat)
    requires Enabled(w, a) && ByHandler(a, s) && s < |w.handlers| && HandlerOk(w.handlers[s])
    ensures s < |Apply(w, a).handlers|
    ensures var h, h' := w.handlers[s], Apply(w, a).handlers[s];
            && (h'.pc.UndoingSetup? <==> a.RelayOpen? && CannotEncode(h.pc.message))
            && (h'.pc.UndoingSetup? ==> h'.owed == h.owed && h'.session == h.session)
  {
    assert Consistent(w.handlers[s].session);
    if a.UndoSetup? || a.RemoveClosed? {
      RemovalIsNotUndo(w, s);
    }
  }

  lemma RemovalIsNotUndo(w: World, s: nat)
    requires s < |w.handlers|
    ensures |RemoveClientStep(w, s).handlers| == |w.handlers| && !RemoveClientStep(w, s).handlers[s].pc.UndoingSetup?
  {}

  /** The message a handler holds as its open message is one that it has heard from its client. */
  lemma {:induction false} OpenMessageWasHeard(ws: seq<World>, actions: seq<Action>, i: nat, s: nat) returns (j: nat)
    requires Run(ws, actions) && i < |ws| && s < |ws[i].handlers| && ws[i].handlers[s].session.state.Setup?
    ensures j < i && actions[j].Update? && actions[j].sid == s && actions[j].event.FromClient?
    ensures actions[j].event.update == Ok(ws[i].handlers[s].session.state.openMessage)
  {
    hide Apply;
    var w, a := ws[i - 1], actions[i - 1];
    HandlersFrame(w, a);
    if s < |w.handlers| && w.handlers[s].session.state == ws[i].handlers[s].session.state {
      j := OpenMessageWasHeard(ws, actions, i - 1, s);
    } else {
      SetupIsHeard(w, a, s);
      j := i - 1;
    }
  }

  lemma SetupIsHeard(w: World, a: Action, s: nat)
    requires Enabled(w, a) && s < |Apply(w, a).handlers| && Apply(w, a).handlers[s].session.state.Setup?
    requires s < |w.handlers| ==> w.handlers[s].session.state != Apply(w, a).handlers[s].session.state
    ensures a.Update? && a.sid == s && a.event.FromClient?
    ensures a.event.update == Ok(Apply(w, a).handlers[s].session.state.openMessage)
  {
    HandlersFrame(w, a);
    if s < |w.handlers| {
      HandlerFields(w, a, s);
    }
  }

  /** A poller state is orphaned exactly when the handler that owes its poller undoes its setup. */
  lemma OrphanedByUndoSetup(w: World, a: Action, g: nat)
    requires SessionsInv(w) && Enabled(w, a) && g < |w.gens| && !w.gens[g].role.Orphaned?
    ensures g < |Apply(w, a).gens|
    ensures Apply(w, a).gens[g].role.Orphaned? <==> a.UndoSetup? && w.handlers[a.sid].owed == Some(g)
  {
    hide Apply;
    RolesMove(w, a, g);
    if HandlerAction(a) {
      EnabledHandler(w, a, a.sid);
      OrphanedByHandler(w, a, a.sid, g);
    }
  }

  lemma OrphanedByHandler(w: World, a: Action, s: nat, g: nat)
    requires SessionsInv(w) && Enabled(w, a) && g < |w.gens| && !w.gens[g].role.Orphaned? && ByHandler(a, s)
             && s < |w.handlers|
    ensures g < |Apply(w, a).gens|
    ensures Apply(w, a).gens[g].role.Orphaned? <==> a.UndoSetup? && w.handlers[s].owed == Some(g)
  {
    assert HandlerOk(w.handlers[s]) && HandlerOwes(w, s);
    if a.UndoSetup? || a.RemoveClosed? {
      RemoveClientShape(w, s);
    }
  }

  lemma NewRole(w: World, a: Action, g: nat)
    requires Enabled(w, a) && |w.gens| <= g < |Apply(w, a).gens|
    ensures Apply(w, a).gens[g].role.Owed?
  {
    if a.UndoSetup? || a.RemoveClosed? {
      RemoveClientFrame(w, a.sid);
    }
  }

  lemma OrphanStays(w: World, a: Action, c: CanisterId)
    requires OwnershipInv(w) && Enabled(w, a) && OwnershipInv(Apply(w, a)) && IsOrphan(w, c)
    ensures IsOrphan(Apply(w, a), c)
  {
    hide Apply;
    var g := w.gw.data[c];
    assert CanisterOk(w, c);
    RolesMove(w, a, g);
    GensFrame(w, a);
    assert GenOk(Apply(w, a), g);
  }

  /** The handler of a canister's first client removes its client again, without having started the poller. */
  ghost predicate UndoesOwed(w: World, a: Action, c: CanisterId) {
    a.UndoSetup? && a.sid < |w.handlers| && w.handlers[a.sid].owed.Some?
        && w.handlers[a.sid].session.canisterId == Some(c)
  }

  lemma OrphanStep(w: World, a: Action, c: CanisterId)
    requires SessionsInv(w) && Enabled(w, a) && SessionsInv(Apply(w, a))
    ensures IsOrphan(Apply(w, a), c) <==> IsOrphan(w, c) || UndoesOwed(w, a, c)
  {
    hide Apply;
    var w' := Apply(w, a);
    GensFrame(w, a);
    if IsOrphan(w, c) {
      OrphanStays(w, a, c);
    } else if UndoesOwed(w, a, c) {
      var g := w.handlers[a.sid].owed.value;
      assert HandlerOwes(w, a.sid) && GenOk(w, g);
      OrphanedByUndoSetup(w, a, g);
      assert GenOk(w', g);
    } else if IsOrphan(w', c) {
      NewOrphan(w, a, c);
    }
  }

  lemma NewOrphan(w: World, a: Action, c: CanisterId)
    requires SessionsInv(w) && Enabled(w, a) && SessionsInv(Apply(w, a))
    requires IsOrphan(Apply(w, a), c) && !IsOrphan(w, c)
    ensures UndoesOwed(w, a, c)
  {
    hide Apply;
    var g := Apply(w, a).gw.data[c];
    GensFrame(w, a);
    assert CanisterOk(Apply(w, a), c);
    if g < |w.gens| {
      assert GenOk(w, g);
      OrphanedByUndoSetup(w, a, g);
      EnabledHandler(w, a, a.sid);
      assert HandlerOwes(w, a.sid);
    } else {
      NewRole(w, a, g);
    }
  }

  /** In every run, a canister is orphaned if and only if the handler of a first client of it has undone its setup. */
  lemma {:induction false} OrphanedExactly(ws: seq<World>, actions: seq<Action>, i: nat, c: CanisterId)
    requires Run(ws, actions) && i < |ws|
    ensures IsOrphan(ws[i], c) <==> exists j :: 0 <= j < i && UndoesOwed(ws[j], actions[j], c)
  {
    hide Apply;
    if i > 0 {
      OrphanedExactly(ws, actions, i - 1, c);
      RunInv(ws, actions, i - 1);
      RunInv(ws, actions, i);
      OrphanStep(ws[i - 1], actions[i - 1], c);
    }
  }

  /** The handler of the canister's first client is about to relay an open message that cannot be serialized again. */
  ghost predicate RelaysInVain(w: World, a: Action, c: CanisterId) {
    a.RelayOpen? && a.sid < |w.handlers| && w.handlers[a.sid].pc.RelayingOpen?
        && CannotEncode(w.handlers[a.sid].pc.message)
    && w.handlers[a.sid].owed.Some? && w.handlers[a.sid].session.canisterId == Some(c)
  }

  /** The handler that owes the canister's poller has nothing left to do but to undo its setup. */
  ghost predicate GivesUp(w: World, s: nat, c: CanisterId)
    requires s < |w.handlers|
  {
    w.handlers[s].pc.UndoingSetup? && w.handlers[s].owed.Some? && w.handlers[s].session.canisterId == Some(c)
  }

  /** The canister is orphaned, or its only owner is about to orphan it. */
  ghost predicate Doomed(w: World, c: CanisterId) {
    IsOrphan(w, c) || exists s :: 0 <= s < |w.handlers| && GivesUp(w, s, c)
  }

  lemma DoomedStep(w: World, a: Action, c: CanisterId)
    requires SessionsInv(w) && Enabled(w, a) && SessionsInv(Apply(w, a))
    ensures Doomed(Apply(w, a), c) <==> Doomed(w, c) || RelaysInVain(w, a, c)
  {
    hide Apply, Enabled, SessionsInv, IsOrphan, GivesUp;
    var w' := Apply(w, a);
    OrphanStep(w, a, c);
    if exists s :: 0 <= s < |w'.handlers| && GivesUp(w', s, c) {
      var s :| 0 <= s < |w'.handlers| && GivesUp(w', s, c);
      GivesUpBefore(w, a, s, c);
      GivesUpStep(w, a, s, c);
    }
    if exists s :: 0 <= s < |w.handlers| && GivesUp(w, s, c) {
      var s :| 0 <= s < |w.handlers| && GivesUp(w, s, c);
      GivesUpStep(w, a, s, c);
      if a == UndoSetup(s) {
        GivingUpUndoes(w, s, c);
      }
    }
    if UndoesOwed(w, a, c) {
      UndoesAfterGivingUp(w, a, c);
    }
    if RelaysInVain(w, a, c) {
      assert a == RelayOpen(a.sid);
      GivesUpStep(w, a, a.sid, c);
    }
  }

  lemma GivingUpUndoes(w: World, s: nat, c: CanisterId)
    requires s < |w.handlers| && GivesUp(w, s, c)
    ensures UndoesOwed(w, UndoSetup(s), c)
  {}

  lemma UndoesAfterGivingUp(w: World, a: Action, c: CanisterId)
    requires Enabled(w, a) && UndoesOwed(w, a, c)
    ensures GivesUp(w, a.sid, c)
  {}

  lemma GivesUpBefore(w: World, a: Action, s: nat, c: CanisterId)
    requires Enabled(w, a) && s < |Apply(w, a).handlers| && GivesUp(Apply(w, a), s, c)
    ensures s < |w.handlers|
  {
    hide Apply;
    HandlersFrame(w, a);
  }

  lemma GivesUpStep(w: World, a: Action, s: nat, c: CanisterId)
    requires SessionsInv(w) && Enabled(w, a) && s < |w.handlers|
    ensures s < |Apply(w, a).handlers|
    ensures GivesUp(Apply(w, a), s, c) <==>
              (GivesUp(w, s, c) && a != UndoSetup(s)) || (a == RelayOpen(s) && RelaysInVain(w, a, c))
  {
    hide Apply;
    assert HandlerOk(w.handlers[s]);
    UndoingStep(w, a, s);
    if a == RelayOpen(s) {
      RelayOpenEnabled(w, s);
    }
  }

  lemma RelayOpenEnabled(w: World, s: nat)
    requires Enabled(w, RelayOpen(s))
    ensures s < |w.handlers| && w.handlers[s].pc.RelayingOpen?
  {}

  /** In every run, a canister is orphaned or about to be if and only if a first client of it has sent an open message
      that cannot be serialized again, and its handler has come to relaying it. */
  lemma {:induction false} DoomedExactly(ws: seq<World>, actions: seq<Action>, i: nat, c: CanisterId)
    requires Run(ws, actions) && i < |ws|
    ensures Doomed(ws[i], c) <==> exists j :: 0 <= j < i && RelaysInVain(ws[j], actions[j], c)
  {
    hide Apply;
    if i > 0 {
      DoomedExactly(ws, actions, i - 1, c);
      RunInv(ws, actions, i - 1);
      RunInv(ws, actions, i);
      DoomedStep(ws[i - 1], actions[i - 1], c);
    }
  }

  /** "In the map if and only if somebody owns it" holds of a canister if and only if no handler of a first client of
      it has undone its setup; in particular as long as none of them relays an open message that cannot be serialized
      again. */
  lemma OwnedExactly(ws: seq<World>, actions: seq<Action>, i: nat, c: CanisterId)
    requires Run(ws, actions) && i < |ws|
    ensures (c in ws[i].gw.data <==> exists o :: Owns(ws[i], o, c)) <==>
            !exists j :: 0 <= j < i && UndoesOwed(ws[j], actions[j], c)
    ensures (forall j :: 0 <= j < i ==> !RelaysInVain(ws[j], actions[j], c)) ==>
              !IsOrphan(ws[i], c) && (c in ws[i].gw.data <==> exists o :: Owns(ws[i], o, c))
  {
    hide Apply;
    OneOwnerPerCanister(ws, actions, i, c);
    OrphanedExactly(ws, actions, i, c);
    DoomedExactly(ws, actions, i, c);
  }

  /** Once orphaned, a canister stays in the map without a poller for the rest of the run: no client that registers
      later makes anybody start one. */
  lemma {:induction false} OrphanForever(ws: seq<World>, actions: seq<Action>, i: nat, j: nat, c: CanisterId)
    requires Run(ws, actions) && i <= j < |ws| && IsOrphan(ws[i], c)
    ensures IsOrphan(ws[j], c) && forall p :: 0 <= p < |ws[j].pollers| && Active(ws[j].pollers[p]) ==>
            ws[j].pollers[p].canister != c
    decreases j
  {
    hide Apply;
    RunInv(ws, actions, j);
    if i < j {
      OrphanForever(ws, actions, i, j - 1, c);
      RunInv(ws, actions, j - 1);
      OrphanStays(ws[j - 1], actions[j - 1], c);
    }
    forall p | 0 <= p < |ws[j].pollers| && Active(ws[j].pollers[p])
      ensures ws[j].pollers[p].canister != c
    {
      ActivePollerIsInMap(ws[j], p);
      assert PollerOwns(ws[j], p);
    }
  }

  // ---- Counting ----

  ghost function Starters(w: World): set<Owner> {
    set s | 0 <= s < |w.handlers| && w.handlers[s].owed.Some? :: Starter(s)
  }

  ghost function Runners(w: World): set<Owner> {
    set p | 0 <= p < |w.pollers| && Active(w.pollers[p]) :: Running(p)
  }

  ghost function Orphans(w: World): set<CanisterId> {
    set c | c in w.gw.data && IsOrphan(w, c)
  }

  /** The owner a role stands for. */
  ghost function RoleOwner(r: Role): Owner {
    match r
    case Owed(s) => Starter(s)
    case Polled(p) => Running(p)
    case _ => Starter(0)
  }

  lemma {:induction false} InjectiveCard<A, B>(m: map<A, B>)
    requires forall a, b :: a in m && b in m && m[a] == m[b] ==> a == b
    ensures |m.Keys| == |m.Values|
  {
    if m.Keys != {} {
      var a :| a in m;
      var rest := m - {a};
      InjectiveCard(rest);
      assert m.Keys == rest.Keys + {a};
      assert m.Values == rest.Values + {m[a]};
    }
  }

  /** `get_active_pollers_count` is the number of pollers that are running, plus those that some handler is about to
      start, plus the orphaned canisters. */
  lemma ActivePollersCount(ws: seq<World>, actions: seq<Action>, i: nat)
    requires Run(ws, actions) && i < |ws|
    ensures |ws[i].gw.data| == |Runners(ws[i])| + |Starters(ws[i])| + |Orphans(ws[i])|
  {
    hide Apply;
    RunInv(ws, actions, i);
    CountOwners(ws[i]);
  }

  lemma CanisterIsOwned(w: World, c: CanisterId)
    requires SessionsInv(w) && c in w.gw.data && !IsOrphan(w, c)
    ensures w.gw.data[c] < |w.gens| && Owns(w, RoleOwner(w.gens[w.gw.data[c]].role), c)
    ensures OwnedState(w, RoleOwner(w.gens[w.gw.data[c]].role), c) == w.gw.data[c]
  {
    assert CanisterOk(w, c) && GenOk(w, w.gw.data[c]);
  }

  /** The canisters that are not orphaned, each with its owner. */
  lemma OwnerMap(w: World) returns (m: map<CanisterId, Owner>)
    requires SessionsInv(w)
    ensures m.Keys == w.gw.data.Keys - Orphans(w)
    ensures forall c :: c in m ==> Owns(w, m[c], c)
  {
    var owned := w.gw.data.Keys - Orphans(w);
    forall c | c in owned
      ensures w.gw.data[c] < |w.gens| && Owns(w, RoleOwner(w.gens[w.gw.data[c]].role), c)
    {
      CanisterIsOwned(w, c);
    }
    m := map c | c in owned :: RoleOwner(w.gens[w.gw.data[c]].role);
  }

  lemma CountOwners(w: World)
    requires SessionsInv(w)
    ensures |w.gw.data| == |Runners(w)| + |Starters(w)| + |Orphans(w)|
  {
    var m := OwnerMap(w);
    forall c, d | c in m && d in m && m[c] == m[d]
      ensures c == d
    {
      SameOwnerSameCanister(w, m[c], c, d);
    }
    OwnersAreValues(w, m);
    Partition(w.gw.data.Keys, Orphans(w), m, Runners(w), Starters(w));
  }

  lemma Partition(keys: set<CanisterId>, orphans: set<CanisterId>, m: map<CanisterId, Owner>, a: set<Owner>,
                  b: set<Owner>)
    requires orphans <= keys && m.Keys == keys - orphans && m.Values == b + a && a !! b
    requires forall c, d :: c in m && d in m && m[c] == m[d] ==> c == d
    ensures |keys| == |a| + |b| + |orphans|
  {
    InjectiveCard(m);
    assert keys == m.Keys + orphans && m.Keys !! orphans;
  }

  lemma SameOwnerSameCanister(w: World, o: Owner, c: CanisterId, d: CanisterId)
    requires Owns(w, o, c) && Owns(w, o, d)
    ensures c == d
  {}

  lemma OwnersAreValues(w: World, m: map<CanisterId, Owner>)
    requires SessionsInv(w)
    requires m.Keys == w.gw.data.Keys - Orphans(w)
    requires forall c :: c in m ==> Owns(w, m[c], c)
    ensures m.Values == Starters(w) + Runners(w)
  {
    forall o | o in Starters(w) + Runners(w)
      ensures o in m.Values
    {
      var c := OwnedCanister(w, o);
      OwnerIsInMap(w, m, o, c);
    }
    forall o | o in m.Values
      ensures o in Starters(w) + Runners(w)
    {
      var c :| c in m && m[c] == o;
    }
  }

  lemma OwnerIsInMap(w: World, m: map<CanisterId, Owner>, o: Owner, c: CanisterId)
    requires SessionsInv(w) && m.Keys == w.gw.data.Keys - Orphans(w)
    requires Owns(w, o, c) && (c in m ==> Owns(w, m[c], c))
    ensures c in m && m[c] == o
  {
    OwnerHoldsCurrent(w, o, c);
    if c in m {
      OwnerHoldsCurrent(w, m[c], c);
    }
  }

  lemma OwnedCanister(w: World, o: Owner) returns (c: CanisterId)
    requires SessionsInv(w) && o in Starters(w) + Runners(w)
    ensures Owns(w, o, c)
  {
    match o {
      case Starter(s) =>
        assert HandlerOwes(w, s) && GenOk(w, w.handlers[s].owed.value);
        c := w.handlers[s].session.canisterId.value;
      case Running(p) => c := w.pollers[p].canister;
    }
  }

  // ---- The run as a history of atomic operations ----

  /** The operation of the gateway state that a step performs, if it performs one. */
  ghost function OperationOf(w: World, a: Action): Option<Op<nat>>
    requires Enabled(w, a)
  {
    if a.Register? || RemovesClient(a) then
      var h := w.handlers[a.sid];
      if h.session.canisterId.None? || h.session.clientKey.None? then None
      else
        var c, k := h.session.canisterId.value, h.session.clientKey.value;
        if a.Register? then (if h.holdsSender then Some(InsertOp(c, k, a.sid)) else None)
        else if a.RemoveFailed? then Some(RemoveClientIfExistsOp(c, k))
        else Some(RemoveClientOp(c, k))
    else if a.CheckClients? then Some(RemoveCanisterIfEmptyOp(w.pollers[a.pid].canister))
    else if a.RemoveCanister? then Some(RemoveFailedCanisterOp(w.pollers[a.pid].canister))
    else None
  }

  lemma StepPerforms(w: World, a: Action)
    requires Enabled(w, a)
    ensures Apply(w, a).gw == match OperationOf(w, a) case None => w.gw case Some(op) => Perform(w.gw, op).0
  {}

  /** The operations performed by the first `i` steps of a run. */
  ghost function History(ws: seq<World>, actions: seq<Action>, i: nat): seq<Op<nat>>
    requires Run(ws, actions) && i <= |actions|
  {
    if i == 0 then []
    else
      History(ws, actions, i - 1) +
      match OperationOf(ws[i - 1], actions[i - 1]) case None => [] case Some(op) => [op]
  }

  /** The gateway state of a run is that of the history of its atomic operations. */
  lemma {:induction false} RunIsHistory(ws: seq<World>, actions: seq<Action>, i: nat)
    requires Run(ws, actions) && i <= |actions|
    ensures Replay(History(ws, actions, i)) == ws[i].gw
  {
    hide Apply;
    if i > 0 {
      RunIsHistory(ws, actions, i - 1);
      StepPerforms(ws[i - 1], actions[i - 1]);
      var before := History(ws, actions, i - 1);
      match OperationOf(ws[i - 1], actions[i - 1]) {
        case None => assert History(ws, actions, i) == before;
        case Some(op) => assert (before + [op])[..|before|] == before;
      }
    }
  }

  /** Over any run, for each canister, the pollers asked for are the entries taken out of the map plus the entry that is
      there now. */
  lemma RunCountingLaw(ws: seq<World>, actions: seq<Action>, i: nat, c: CanisterId)
    requires Run(ws, actions) && i <= |actions|
    ensures var ops := History(ws, actions, i);
            Starts(ops, c) == Removals(ops, c) + if c in ws[i].gw.data then 1 else 0
  {
    RunIsHistory(ws, actions, i);
    CountingLaw(History(ws, actions, i), c);
  }
}
