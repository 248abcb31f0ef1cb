/** What becomes of the entry under a canister and a key, and which canisters are told that a client is gone, in every
    run, whatever keys clients use. */
module Keys {
  import opened Basics
  import opened Gateway
  import opened World
  import opened Steps
  import opened Sessions
  import opened Entries
  import opened Registration

  // ---- Whose entry it is ----

  /** In step `j` the session of `t` registers with `c` under `k`, and until step `i` nobody else does, nobody with this
      canister and key takes itself out, and the canister is not taken out as failed. */
  ghost predicate LastRegistered(ws: seq<World>, actions: seq<Action>, j: nat, i: nat, c: CanisterId, k: ClientKey,
                                 t: nat)
    requires |ws| == |actions| + 1 && j < i <= |actions|
  {
    && Registers(ws[j], actions[j], c, k) && actions[j].sid == t
    && forall l :: j < l < i ==> !Registers(ws[l], actions[l], c, k) && !TakesOut(ws[l], actions[l], c, k)
  }

  /** An entry is that of the last session to register under it, if nothing has taken it out since. */
  lemma {:induction false} FoundExactly(ws: seq<World>, actions: seq<Action>, i: nat, c: CanisterId, k: ClientKey,
                                        t: nat)
    requires Run(ws, actions) && i < |ws|
    ensures Find(ws[i].gw, c, k) == Some(t) <==> exists j :: 0 <= j < i && LastRegistered(ws, actions, j, i, c, k, t)
  {
    hide Apply, Enabled, TakesOut, Find, SessionsInv, LastRegistered;
    if i == 0 {
      NobodyAtFirst(ws, actions, c, k);
    } else {
      var before := i - 1;
      FoundExactly(ws, actions, before, c, k, t);
      RunInv(ws, actions, before);
      FindStep(ws[before], actions[before], c, k);
      if exists j :: 0 <= j < before && LastRegistered(ws, actions, j, before, c, k, t) {
        var j :| 0 <= j < before && LastRegistered(ws, actions, j, before, c, k, t);
        LastRegisteredStep(ws, actions, j, i, c, k, t);
      }
      if exists j :: 0 <= j < i && LastRegistered(ws, actions, j, i, c, k, t) {
        var j :| 0 <= j < i && LastRegistered(ws, actions, j, i, c, k, t);
        LastRegisteredStep(ws, actions, j, i, c, k, t);
      }
      LastRegisteredStep(ws, actions, before, i, c, k, t);
    }
  }

  lemma LastRegisteredStep(ws: seq<World>, actions: seq<Action>, j: nat, i: nat, c: CanisterId, k: ClientKey, t: nat)
    requires |ws| == |actions| + 1 && j < i <= |actions|
    ensures LastRegistered(ws, actions, j, i, c, k, t) <==>
              var w, a := ws[i - 1], actions[i - 1];
              if j == i - 1 then Registers(w, a, c, k) && a.sid == t
              else LastRegistered(ws, actions, j, i - 1, c, k, t) && !Registers(w, a, c, k) && !TakesOut(w, a, c, k)
  {}

  lemma NobodyAtFirst(ws: seq<World>, actions: seq<Action>, c: CanisterId, k: ClientKey)
    requires Run(ws, actions)
    ensures Find(ws[0].gw, c, k) == None
  {}

  /** A session that is in a poller state has registered at some step, with the canister and the key it has now. */
  lemma {:induction false} HasRegistered(ws: seq<World>, actions: seq<Action>, i: nat, s: nat) returns (j: nat)
    requires Run(ws, actions) && i < |ws| && s < |ws[i].handlers| && ws[i].handlers[s].gen.Some?
    ensures j < i && actions[j] == Register(s) && s < |ws[j].handlers|
    ensures ws[j].handlers[s].session.canisterId == ws[i].handlers[s].session.canisterId
    ensures ws[j].handlers[s].session.clientKey == ws[i].handlers[s].session.clientKey
  {
    hide Apply;
    var w, a := ws[i - 1], actions[i - 1];
    HandlersFrame(w, a);
    RunInv(ws, actions, i - 1);
    assert HandlerOk(w.handlers[s]);
    if a.Register? && a.sid == s {
      j := i - 1;
      RegisterShape(w, s);
    } else {
      if w.handlers[s].gen.None? {
        OnlyRegisterSetsGen(w, a, s);
      }
      j := HasRegistered(ws, actions, i - 1, s);
    }
    StepKeepsIdentity(w, a, s);
  }

  /** A session that takes itself out leaves nobody under its canister and key. It takes out another session `t` exactly
      when `t` has registered under the same canister and key after it, and nothing has taken `t` out since. */
  lemma TakesAnothersEntry(ws: seq<World>, actions: seq<Action>, i: nat, t: nat)
    requires Run(ws, actions) && i < |actions| && RemovesClient(actions[i]) && t != actions[i].sid
    ensures actions[i].sid < |ws[i].handlers|
    ensures var session := ws[i].handlers[actions[i].sid].session;
            && session.canisterId.Some? && session.clientKey.Some?
            && var c, k := session.canisterId.value, session.clientKey.value;
               && Find(ws[i + 1].gw, c, k) == None
               && (Find(ws[i].gw, c, k) == Some(t) <==>
                     exists r, j :: 0 <= r < j < i && actions[r] == Register(actions[i].sid)
                                    && LastRegistered(ws, actions, j, i, c, k, t))
  {
    hide Apply;
    var w, s := ws[i], actions[i].sid;
    RunInv(ws, actions, i);
    EnabledHandler(w, actions[i], s);
    RemovingIsRegistered(w, actions[i], s);
    var c, k := w.handlers[s].session.canisterId.value, w.handlers[s].session.clientKey.value;
    FindStep(w, actions[i], c, k);
    FoundExactly(ws, actions, i, c, k, t);
    var r := HasRegistered(ws, actions, i, s);
    assert Registers(ws[r], actions[r], c, k);
    forall j | 0 <= j < i && LastRegistered(ws, actions, j, i, c, k, t)
      ensures r < j
    {
    }
  }

  lemma RemovingIsRegistered(w: World, a: Action, s: nat)
    requires SessionsInv(w) && Enabled(w, a) && RemovesClient(a) && a.sid == s && s < |w.handlers|
    ensures var h := w.handlers[s];
            h.gen.Some? && h.session.canisterId.Some? && h.session.clientKey.Some? && Connected(h) && h.wsCloses == 0
  {
    assert HandlerOk(w.handlers[s]);
  }

  // ---- Which canisters are told ----

  /** The step is one after which the handler of `s` calls `ws_close`: it has closed, and the removal of its client
      does not panic; or it has failed, and somebody is there under its canister and key. */
  ghost predicate DecidesToTell(w: World, a: Action, s: nat) {
    RemovesClient(a) && a.sid == s && s < |w.handlers|
    && w.handlers[s].session.canisterId.Some? && w.handlers[s].session.clientKey.Some?
    && var c, k := w.handlers[s].session.canisterId.value, w.handlers[s].session.clientKey.value;
       || (a.RemoveClosed? && (c in w.gw.data ==> Find(w.gw, c, k).Some?))
       || (a.RemoveFailed? && Find(w.gw, c, k).Some?)
  }

  /** The canister has been told, or its being told is all that is left to do. */
  predicate Tells(h: Handler) { h.wsCloses == 1 || h.pc.CallingWsClose? }

  lemma TellsStep(w: World, a: Action, s: nat)
    requires SessionsInv(w) && Enabled(w, a) && s < |w.handlers|
    ensures s < |Apply(w, a).handlers|
    ensures Tells(Apply(w, a).handlers[s]) <==> Tells(w.handlers[s]) || DecidesToTell(w, a, s)
  {
    hide Apply;
    HandlersFrame(w, a);
    assert HandlerOk(w.handlers[s]);
    if ByHandler(a, s) {
      OwnTellsStep(w, a, s);
    } else {
      OthersFields(w, a, s);
    }
  }

  lemma OwnTellsStep(w: World, a: Action, s: nat)
    requires SessionsInv(w) && Enabled(w, a) && s < |w.handlers| && ByHandler(a, s)
    ensures s < |Apply(w, a).handlers|
    ensures Tells(Apply(w, a).handlers[s]) <==> Tells(w.handlers[s]) || DecidesToTell(w, a, s)
  {
    if RemovesClient(a) {
      RemovalTells(w, a, s);
    } else {
      assert HandlerOk(w.handlers[s]);
    }
  }

  lemma RemovalTells(w: World, a: Action, s: nat)
    requires SessionsInv(w) && Enabled(w, a) && s < |w.handlers| && RemovesClient(a) && a.sid == s
    ensures s < |Apply(w, a).handlers|
    ensures Tells(Apply(w, a).handlers[s]) <==> DecidesToTell(w, a, s)
    ensures !Tells(w.handlers[s])
  {
    hide SessionsInv;
    RemovingIsRegistered(w, a, s);
  }

  /** In every run the canister of a session is told of its end, or is about to be, if and only if the session has come
      to the step that decides it. */
  lemma {:induction false} ToldExactly(ws: seq<World>, actions: seq<Action>, i: nat, s: nat)
    requires Run(ws, actions) && i < |ws| && s < |ws[i].handlers|
    ensures Tells(ws[i].handlers[s]) <==> exists j :: 0 <= j < i && DecidesToTell(ws[j], actions[j], s)
  {
    hide Apply;
    if i > 0 {
      HandlersFrame(ws[i - 1], actions[i - 1]);
      RunInv(ws, actions, i - 1);
      if s < |ws[i - 1].handlers| {
        ToldExactly(ws, actions, i - 1, s);
        TellsStep(ws[i - 1], actions[i - 1], s);
      } else {
        NobodyDecidesBefore(ws, actions, i - 1, s);
      }
    }
  }

  lemma {:induction false} NobodyDecidesBefore(ws: seq<World>, actions: seq<Action>, i: nat, s: nat)
    requires Run(ws, actions) && i < |actions| && |ws[i].handlers| <= s
    ensures forall j :: 0 <= j <= i ==> !DecidesToTell(ws[j], actions[j], s)
  {
    hide Apply, DecidesToTell;
    DecidesOnlyExisting(ws[i], actions[i], s);
    if i > 0 {
      HandlersFrame(ws[i - 1], actions[i - 1]);
      NobodyDecidesBefore(ws, actions, i - 1, s);
    }
  }

  lemma DecidesOnlyExisting(w: World, a: Action, s: nat)
    requires |w.handlers| <= s
    ensures !DecidesToTell(w, a, s)
  {}

  /** With distinct keys that step is: the session has closed, and its removal does not panic; or it has failed while
      its own poller state is still its canister's current one. */
  lemma ToldIfCurrent(ws: seq<World>, actions: seq<Action>, j: nat, s: nat)
    requires Run(ws, actions) && DistinctKeys(ws, actions) && j < |actions| && s < |ws[j].handlers|
    ensures s < |ws[j + 1].handlers|
    ensures DecidesToTell(ws[j], actions[j], s) <==>
              || (actions[j] == RemoveClosed(s) && !ws[j + 1].handlers[s].pc.Crashed?)
              || (actions[j] == RemoveFailed(s) && ws[j].handlers[s].gen.Some?
                  && IsCurrent(ws[j], ws[j].handlers[s].gen.value))
  {
    hide Apply;
    var w, a := ws[j], actions[j];
    RunKeysInv(ws, actions, j);
    HandlersFrame(w, a);
    if RemovesClient(a) && a.sid == s {
      RemovingIsRegistered(w, a, s);
      RemovalIsExact(w, a, s);
      FindsOwnEntry(w, s);
    }
  }
}
