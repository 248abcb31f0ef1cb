# The IC WebSocket gateway: pollers and sessions

This project models the part of the gateway in which several tasks share state, and proves what they keep to in every run.

- `Gateway` is the two-level map from canisters to clients as a value, with what each operation does atomically. Every
  poller state is an allocation of its own (the source shares it as an `Arc`), identified by the order of allocation, its
  *generation*. `GatewayState` is the same map as the object that is updated in place, proved against `Gateway`.
- `LockedGateway` splits each operation into taking the shard's lock, looking up, changing and releasing, for any number
  of threads, and shows that every execution is one of atomic operations.
- `NonceKey` and `Polling` are the reading of message keys and the rules of nonces and relaying as functions;
  `CanisterPoller` is the poller as the object that runs, with its loops.
- `ClientSession` is the session's state machine (Init, Setup, Open, Closed), as functions and as the object that is
  updated; `ClientSessionHandler` is the handler's event loop as the object that runs.
- `World` puts everything together as one transition system: any number of session handlers and pollers, the shared map and
  the channels, with every interleaving of their critical sections, events, lookups and sends. `Steps`, `Ownership`,
  `Sessions` and `Entries` build up an inductive invariant of every run, and `Registration` one of the runs with distinct
  keys. The results about all runs are in `Guarantees` (who polls what), `Isolation` (entries, panics, failures),
  `Conversation` (what sessions make of what they hear), `Delivery` (what clients read), `Keys` (whose entry it is, and which canisters are told of an end) and `EndToEnd` (from
  the canister's queue to the client's WebSocket). `Deadlock` says when a poller and a session block each other forever.
  `Witnesses` has runs in which the code does what its comments exclude.

## Assumptions

Each is a hypothesis of the lemmas that need it, never built into the transition system.

- `DistinctKeys`: sessions of one canister that are connected at the same time have different client keys. What goes wrong
  otherwise is `Witnesses.EqualKeysAreConfused`, and exactly when is `Keys.TakesAnothersEntry`.
- `RepliesOnly`: one canister addresses one client only after the client's open message was handed over for it. Nothing is
  asked of other canisters or clients.
- `ServedFrom`: a canister answers a poll with a piece of its queue that starts at the nonce asked for.
- `NoWrap` and `BelowLimit`: nonces do not reach 2^64-1. The Dockerfile builds with `--release` and no manifest turns
  overflow checks on, so that `message_nonce + 1` wraps around to zero there, which the model does.

Whether a decoded envelope can be serialized again is a flag of the envelope, `encodes`, because the source provides for the
failure. No envelope is known that decodes and does not encode; if there is none, no canister is ever orphaned
(`Guarantees.OwnedExactly`).

The map's shards are taken to be locked as the SAFETY comments describe, channels to be first-in first-out with a capacity
of 100, and `select!` to choose arbitrarily. The guard that the relay loop holds on a client's entry while it sends is
modelled as blocking only critical sections on that very key; in the source it blocks a whole shard, so the model
has more interleavings than the program.

`World` carries fields that no task reads and that only record what happened: `gen`, `joined`, `left`, `relayedOpen`,
`handed`, `wsCloses`, `log` and `gens`.

## Where code and comments disagree

The model follows the code.

- A close or an error while the session is in Init ends in an `expect` (`src/ic-websocket-gateway/src/client_session_handler.rs:206-207`,
  `:236-237`), although the comment at `:240-241` provides for it. The handler panics; the gateway state is not affected.
- `remove_client` reaches its `unreachable!` (`src/gateway-state/src/lib.rs:117-121`) when the session's poller has failed
  and another client has re-created the entry. The comment at `:133-136` covers only the vacant case.
  `Isolation.PanicsExactly` says exactly when either happens.
- The error path of Setup drops the poller start that the handler owes (`src/ic-websocket-gateway/src/client_session_handler.rs:158-170`):
  the canister stays in the map with nobody polling it, for good. `Guarantees.OrphanedExactly`
  and `Guarantees.DoomedExactly` say exactly when.
- `relay_message` provides for a session that has ended between lookup and send
  (`src/ic-websocket-gateway/src/canister_poller.rs:338-343`). The guard rules that out: `Delivery.SendFindsSession`.

## Model

| member | source | states |
|---|---|---|
| Gateway.CountingLaw | src/gateway-state/src/lib.rs:45-97 | over any history of operations, for each canister, the inserts that told their caller to start a poller are the entries taken out of the map plus one if the entry is there now |
| Gateway.StartsAreFresh | src/gateway-state/src/lib.rs:74-93 | two inserts never hand out the same poller state |
| Gateway.RetiredForever | src/gateway-state/src/lib.rs:53-95 | a poller state that is not in the map is never changed and never comes back, whatever operations follow |
| Gateway.EmptiedStaysEmpty | src/gateway-state/src/lib.rs:193-217 | a poller state removed because it was empty stays empty and outside the map for good |
| Gateway.OperationsExactly | src/gateway-state/src/lib.rs:45-232 | for each operation, who is found under any canister and key and which canisters have an entry afterwards, and what each response says about the state before, stated without the operations |
| GatewayState.GatewayState.InsertClientChannelAndGetNewPollerState | src/gateway-state/src/lib.rs:45-97 | in place: the client is put into the canister's poller state; a new, freshly allocated one is returned exactly when the canister was vacant |
| GatewayState.GatewayState.RemoveClient | src/gateway-state/src/lib.rs:113-137 | in place: removes exactly that client; reports the panic exactly when the canister is there and the client is not |
| GatewayState.GatewayState.GetActivePollersCount | src/gateway-state/src/lib.rs:139-141 | the number of canisters in the map |
| GatewayState.GatewayState.RemoveClientIfExists | src/gateway-state/src/lib.rs:157-191 | in place: as above, but an absent client is an answer and not a panic |
| GatewayState.GatewayState.RemoveCanisterIfEmpty | src/gateway-state/src/lib.rs:202-217 | in place: takes the canister out exactly when it is there without clients; an absent canister also answers `NotEmpty` |
| GatewayState.GatewayState.RemoveFailedCanister | src/gateway-state/src/lib.rs:228-232 | in place: takes the canister out with whatever clients it has; reports the panic exactly when it is absent |
| LockedGateway.MutualExclusion | src/gateway-state/src/lib.rs:30-44 | two threads inside critical sections of one shard are one thread |
| LockedGateway.StepRefinesAtomic | src/gateway-state/src/lib.rs:30-97 | with lock, lookup, change and unlock as separate steps, each step of each thread either changes nothing shared or is one whole atomic operation with its response |
| LockedGateway.ExecutionIsAtomic | src/gateway-state/src/lib.rs:157-217 | every interleaving of any number of threads has the state and the responses of some sequential order of the operations |
| LockedGateway.EffectIsWithinCall | src/gateway-state/src/lib.rs:193-217 | an operation takes effect between its call and its return, and returns the response it has in the sequential order |
| LockedGateway.NoClientJoinsADyingPoller | src/gateway-state/src/lib.rs:193-217 | after some thread was told `Empty`, no interleaving ever puts a client into that poller state, and the map never refers to it again |
| NonceKey.ParseU64IsNumeralValue | src/ic-websocket-gateway/src/canister_poller.rs:351-353 | the parser accepts exactly the decimal numerals, optionally with one plus sign, whose value fits in 64 bits, and returns that value |
| NonceKey.LastPiece | src/ic-websocket-gateway/src/canister_poller.rs:350-351 | every key is its last piece, alone or after a prefix and an underscore |
| NonceKey.NonceRoundTrip | src/ic-websocket-gateway/src/canister_poller.rs:349-359 | `prefix_n` is read back as n for every prefix, underscores included, and every n below 2^64 |
| NonceKey.NonceOnlyFromNumeral | src/ic-websocket-gateway/src/canister_poller.rs:349-359 | a key is read as v exactly when what follows its last underscore is a numeral of v, optionally with a plus sign |
| Polling.AcceptedIffConsecutive | src/ic-websocket-gateway/src/canister_poller.rs:291-310 | a batch passes the check, without wrapping around, if and only if its nonces are consecutive and start at the nonce asked for, which zero leaves open |
| Polling.RefusedExactly | src/ic-websocket-gateway/src/canister_poller.rs:295-308 | a batch is refused if and only if one of its messages is the first whose nonce cannot be read or is not the one expected, and the error is that message's |
| Polling.FailsExactly | src/ic-websocket-gateway/src/canister_poller.rs:169-213 | a poll fails if and only if its answer is an agent error that is not recoverable, a Candid or CDK error, or a batch that is refused |
| Polling.StuttersExactly | src/ic-websocket-gateway/src/canister_poller.rs:181-212 | an answer changes nothing, from whatever state, if and only if it is a timeout, a recoverable error or empty |
| Polling.ShareOfBatch | src/ic-websocket-gateway/src/canister_poller.rs:219-225 | what a client gets of a batch is, one by one, the messages addressed to it, each with its own key and content and the batch's certificate and tree |
| Polling.BatchAllOrNothing | src/ic-websocket-gateway/src/canister_poller.rs:116-147 | a batch is relayed whole or not at all, and is refused exactly when its nonces are not consecutive from the one asked for, as long as they do not wrap around |
| Polling.RelayedIsAccepted | src/ic-websocket-gateway/src/canister_poller.rs:295-308 | everything a poller ever relays passes the nonce check as one sequence |
| Polling.WholeRunConsecutive | src/ic-websocket-gateway/src/canister_poller.rs:116-135 | whatever the canister answers, all that is relayed has consecutive nonces, if and only if none but the last is 2^64-1 |
| Polling.StutterInvariance | src/ic-websocket-gateway/src/canister_poller.rs:165-213 | timeouts, recoverable errors and empty polls can be inserted or deleted anywhere without changing log, nonce or failure |
| Polling.RelaysAPieceOfTheQueue | src/ic-websocket-gateway/src/canister_poller.rs:295-308 | against a canister that serves its queue the poller never fails and relays one contiguous piece of it |
| Polling.ForIncreasing | src/ic-websocket-gateway/src/canister_poller.rs:216-251 | in a consecutive log the messages of one client have strictly increasing nonces |
| CanisterPoller.EffectivePollingInterval | src/ic-websocket-gateway/src/canister_poller.rs:259-285 | the sleep is at most the interval and fills it up exactly when polling was no longer than it |
| CanisterPoller.SleepsExactly | src/ic-websocket-gateway/src/canister_poller.rs:116-157 | an iteration that does not fail goes without a sleep exactly after a timeout or an undrained queue |
| CanisterPoller.SleptCountCounts | src/ic-websocket-gateway/src/canister_poller.rs:154-157 | the iterations counted as sleeping are those that sleep |
| CanisterPoller.TimedOutCountCounts | src/ic-websocket-gateway/src/canister_poller.rs:142-146 | the iterations counted as timed out are those that timed out |
| CanisterPoller.LeastDurationCounts | src/ic-websocket-gateway/src/canister_poller.rs:136-157 | the least duration of a run is the interval times the iterations that slept plus 5000 ms times those that timed out |
| CanisterPoller.Poller.UpdateNonce | src/ic-websocket-gateway/src/canister_poller.rs:291-310 | the loop over a batch ends with the nonce, or the first error, that the recursive rule gives |
| CanisterPoller.Poller.RelayMessages | src/ic-websocket-gateway/src/canister_poller.rs:216-256 | the relay loop appends to each live client's channel exactly the batch's messages with its key, in order and field by field with the batch's certificate and tree, and touches no other channel |
| CanisterPoller.Poller.PollAndRelay | src/ic-websocket-gateway/src/canister_poller.rs:116-159 | one iteration fails exactly at a fatal answer, delivers a batch or nothing, and sleeps unless it timed out or brought messages with the news that more are waiting; a missing flag means a sleep |
| CanisterPoller.Poller.RunPolling | src/ic-websocket-gateway/src/canister_poller.rs:70-114 | the whole loop: nonce, channels and failure are those of the rules over all iterations; the canister is taken out of the map exactly at a failure or when it has no clients, and the map is left alone otherwise; iterations are counted; the duration is at least the bound above |
| ClientSession.UpdateMovesForward | src/ic-websocket-gateway/src/client_session.rs:143-162 | a reported change raises the state's rank, canister and key are set once and agree with the open message, and the only panic is a canister message in Init |
| ClientSession.ReportsIncrease | src/ic-websocket-gateway/src/client_session.rs:143-259 | over any sequence of events the reported states have strictly increasing ranks, so each is reported at most once |
| ClientSession.InspectExactly | src/ic-websocket-gateway/src/client_session.rs:317-343 | setup accepts exactly the binary calls with decodable arguments; the key is the call's sender with the client's nonce, the canister is the one called |
| ClientSession.SameKeyExactly | src/ic-websocket-gateway/src/client_session.rs:335-336 | two open messages set up the same key if and only if sender and nonce agree |
| ClientSession.RelayExactly | src/ic-websocket-gateway/src/client_session.rs:358-377 | a client message is relayed if and only if it is a call that can be serialized; a message that is no call is a protocol error, one that cannot be read or written a WebSocket error |
| ClientSession.StateMovesExactly | src/ic-websocket-gateway/src/client_session.rs:164-259 | the state changes exactly at a close or read error, an open message in Init, and the first written message in Setup |
| ClientSession.ErrorsExactly | src/ic-websocket-gateway/src/client_session.rs:164-259 | which events fail with which error, by the fields of event and message |
| ClientSession.ReportsExactly | src/ic-websocket-gateway/src/client_session.rs:143-162 | past Init, a close, the first written message, a closed channel and everything that goes wrong are reported as what they are, and nothing else is |
| ClientSession.InitReportsExactly | src/ic-websocket-gateway/src/client_session.rs:143-162 | in Init, the same for a close, an open message, a closed channel and a canister message |
| ClientSession.OpenMessageAgreement | src/ic-websocket-gateway/src/client_session.rs:317-377 | relaying the message that setup accepted takes the Call branch and fails exactly when its envelope cannot be serialized |
| ClientSession.ClientSessionActor.SetUp | src/ic-websocket-gateway/src/client_session.rs:280-315 | in place: from an open message the canister called, the sender and the client's nonce, field by field; from anything else nothing and an error |
| ClientSession.ClientSessionActor.Relay | src/ic-websocket-gateway/src/client_session.rs:358-393 | in place: exactly a call that can be serialized is handed over, for the session's canister and as it is |
| ClientSession.ClientSessionActor.OnClientUpdate | src/ic-websocket-gateway/src/client_session.rs:164-209 | in place: the new state and outcome for anything the client does; outside Init canister and key stay, and the state becomes Closed exactly on a close or a read error; in Open exactly the calls that can be serialized are handed over, and the others fail with their error |
| ClientSession.ClientSessionActor.OnCanisterMessage | src/ic-websocket-gateway/src/client_session.rs:211-250 | in place: canister and key stay, and the state changes exactly when the first message is written in Setup, to Open |
| ClientSession.ClientSessionActor.UpdateState | src/ic-websocket-gateway/src/client_session.rs:143-162 | in place: a report is the state that was reached, of higher rank than the one before; canister and key stay once set; the panic is exactly a canister message in Init |
| ClientSessionHandler.Handler.OnSetup | src/ic-websocket-gateway/src/client_session_handler.rs:131-187 | afterwards the client is registered if its open message could be relayed, and otherwise nobody is under its canister and key, also if somebody was before; `RelayOpen`, which relays it, may only be called with the client in the gateway state; a poller is started exactly when the message was relayed and the canister had no entry |
| ClientSessionHandler.Handler.RelayOpen | src/ic-websocket-gateway/src/client_session_handler.rs:132-165 | the relay of an open message requires that its client is in the gateway state; it hands the call over exactly when its envelope can be serialized |
| ClientSessionHandler.Handler.OnEnd | src/ic-websocket-gateway/src/client_session_handler.rs:201-258 | a close and a session error both remove exactly the session's client and call `ws_close` once, with the session's canister and key; a session without them panics and calls nothing |
| ClientSessionHandler.Handler.HandleClientSession | src/ic-websocket-gateway/src/client_session_handler.rs:107-261 | without interference, the loop puts its own client under its canister and key, in the place of whoever was there, and takes it out once the session is closed or failed; a poller is started exactly if the canister had no entry and the open message was relayed; there is one `ws_close`, with the session's canister and key, exactly after a close or a session error; the first event that ends the session is told by its fields what it ends in; the calls handed over are exactly those due |
| ClientSessionHandler.LeavesOthersAlone | src/ic-websocket-gateway/src/client_session_handler.rs:142-257 | whatever the handler has come to, under its own canister and key there is its client or, after the end, nobody; every other client of every canister is registered as before, and at most its own canister is new in the map |
| ClientSessionHandler.AddedIsFound | src/ic-websocket-gateway/src/client_session_handler.rs:206-252 | right after a registration both ways of removing the client find it and do the same |
| Ownership.OwnershipKept | src/ic-websocket-gateway/src/client_session_handler.rs:142-185 | every step of every task keeps the ownership invariant between map, allocated poller states, handlers that owe a start and pollers |
| Sessions.SessionsKept | src/ic-websocket-gateway/src/client_session_handler.rs:107-261 | every step keeps the invariant on handlers, entries, poller guards and what is left to relay, with no assumption on keys |
| Entries.EntriesKept | src/ic-websocket-gateway/src/client_session_handler.rs:142-257 | every step keeps, with no assumption on keys, that whoever the map has under a canister and a key is connected, and that each session was sent exactly the messages with its key up to some point of its poller's log, the present as long as it has its own entry |
| Registration.KeysKept | src/ic-websocket-gateway/src/client_session_handler.rs:201-258 | with distinct keys, every step keeps the invariant that ties entries, sessions and what their channels have carried |
| Registration.FindsOwnEntry | src/gateway-state/src/lib.rs:115-122 | a connected session finds its key under its canister exactly when its own poller state is the current one, and then finds its own entry |
| Registration.RemovalIsExact | src/ic-websocket-gateway/src/client_session_handler.rs:206-245 | a session that takes itself out removes its own entry if its poller state is current and changes nothing otherwise; the panic comes exactly in the second case when the canister is there again |
| Entries.RolesMove | src/ic-websocket-gateway/src/client_session_handler.rs:300-341 | a poller state is owed, then polled, then emptied or failed; or owed and then orphaned; never back |
| Entries.LogStep | src/ic-websocket-gateway/src/canister_poller.rs:216-251 | the log of a poller state grows by what its own poller relays and by nothing else |
| Entries.LoggedIsSent | src/ic-websocket-gateway/src/canister_poller.rs:228-250 | a session that has its own entry is sent a message of its poller's log exactly when its key is on it, whatever keys others use |
| Guarantees.OneOwnerPerCanister | src/ic-websocket-gateway/src/client_session_handler.rs:142-185 | in every run, a canister is in the map if and only if it has an owner (a handler about to start its poller, or a running poller) or is orphaned; the owner is the only one and holds the very poller state of the map |
| Guarantees.OnePollerPerPollerState | src/ic-websocket-gateway/src/client_session_handler.rs:299-325 | over a whole run, no poller state is ever given to two pollers |
| Guarantees.RemovalPreconditions | src/gateway-state/src/lib.rs:201-232 | whenever a poller removes its canister the entry is there and is its own: `NotEmpty` means clients are left, and the removal's `unreachable!` is never reached |
| Guarantees.OrphanedByUndoSetup | src/ic-websocket-gateway/src/client_session_handler.rs:158-170 | the step that orphans a poller state is exactly that of the handler that owes its poller undoing its setup |
| Guarantees.UndoingStep | src/ic-websocket-gateway/src/client_session_handler.rs:158-170 | a handler comes to undoing its setup exactly when the message it is about to relay cannot be serialized again, and stays there until it has undone it |
| Guarantees.OpenMessageWasHeard | src/ic-websocket-gateway/src/client_session.rs:164-183 | the message a handler holds as its open message is one it heard from its own client |
| Guarantees.OrphanedExactly | src/ic-websocket-gateway/src/client_session_handler.rs:158-170 | in every run, a canister is orphaned if and only if the handler of a first client of it has undone its setup |
| Guarantees.DoomedExactly | src/ic-websocket-gateway/src/client_session_handler.rs:158-170 | in every run, a canister is orphaned or about to be if and only if the handler of a first client of it has come to relaying an open message that cannot be serialized again |
| Guarantees.OwnedExactly | src/ic-websocket-gateway/src/client_session_handler.rs:142-185 | 'in the map if and only if somebody owns it' holds of a canister if and only if no handler of a first client of it has undone its setup; in particular as long as none of them has relayed in vain |
| Guarantees.OrphanForever | src/gateway-state/src/lib.rs:54-73 | an orphaned canister is in the map without a poller for the rest of the run |
| Guarantees.ActivePollersCount | src/gateway-state/src/lib.rs:139-141 | in every run the count is the pollers running plus the pollers owed plus the orphaned canisters |
| Guarantees.RunIsHistory | src/gateway-state/src/lib.rs:45-232 | the gateway state of a run is that of the sequence of operations its steps performed |
| Guarantees.RunCountingLaw | src/gateway-state/src/lib.rs:53-95 | the counting law for the operations of any run |
| Isolation.EntryHoldsConnectedSessions | src/gateway-state/src/lib.rs:58-85 | in every run with distinct keys, a canister's entry holds exactly its connected sessions, each under its key |
| Isolation.ExactWithoutFailures | src/gateway-state/src/lib.rs:113-137 | a connected session has its entry in its canister's current poller state if and only if the poller of its own poller state has not failed; failures of other pollers do not matter |
| Isolation.FailedExactly | src/ic-websocket-gateway/src/canister_poller.rs:87-101 | a poller state has failed if and only if its own poller has taken it out of the map after a failed poll |
| Isolation.PanicsExactly | src/ic-websocket-gateway/src/client_session_handler.rs:201-258 | a handler panics if and only if the first thing from its client is no acceptable open message, or a removal that expects its client comes after the poller's failure and the re-creation of the entry |
| Isolation.FailedSessionsAreHarmless | src/gateway-state/src/lib.rs:113-137 | no ending of a session of a failed poller changes the gateway state, even if the canister was registered again |
| Isolation.ChannelOpenIffHeld | src/ic-websocket-gateway/src/client_session_handler.rs:110-112 | after registration a session's channel is open exactly while it has its own entry and somebody holds its poller state; with distinct keys it has its entry exactly until it takes itself out |
| Isolation.HeldUntilPollerIsGone | src/ic-websocket-gateway/src/client_session_handler.rs:312-341 | a poller state is held exactly until the poller that emptied or failed it is gone |
| Isolation.PollerLetsGo | src/ic-websocket-gateway/src/client_session_handler.rs:312-341 | in every run, the last reference to a poller state goes when its poller's task ends |
| Isolation.FailureIsSeen | src/ic-websocket-gateway/src/client_session.rs:251-257 | after a failed poller is gone each of its sessions can read what is left in its channel, and can see the channel closed exactly when nothing is left |
| Isolation.BufferIsFinal | src/ic-websocket-gateway/src/client_session.rs:251-257 | from the moment its poller has failed or stopped nothing more is put into a session's channel, for the rest of the run |
| Isolation.ClosedChannelMeansFailure | src/ic-websocket-gateway/src/client_session_handler.rs:230-235 | a session sees its channel closed only after its poller has failed and is gone |
| Delivery.WrittenInOrderAlways | src/ic-websocket-gateway/src/client_session.rs:224-239 | in every run, whatever keys clients use, what was written to a client is a prefix of the messages with its key that its poller relayed from its registration up to some point, the present as long as the session has its own entry; while it waits, written and buffered messages together are all of them |
| Delivery.WrittenInOrder | src/ic-websocket-gateway/src/client_session.rs:224-239 | in every run with distinct keys that point is the session's removal, or the present |
| Delivery.NothingBeforeRegistration | src/ic-websocket-gateway/src/client_session_handler.rs:132-150 | nothing is sent to a session that has not registered |
| Delivery.InitHearsOnlyItsClient | src/ic-websocket-gateway/src/client_session.rs:217-223 | in Init neither a canister message nor a closed channel can be seen, and the sender is still there to be taken |
| Delivery.LogIsConsecutive | src/ic-websocket-gateway/src/canister_poller.rs:291-310 | in every run the log of a poller is consecutive if and only if none but the last nonce is 2^64-1 |
| Delivery.WrittenNoncesIncrease | src/ic-websocket-gateway/src/client_session.rs:404-421 | in every run without such a wrap the nonces a client reads increase strictly |
| Delivery.NoMissedReply | src/ic-websocket-gateway/src/canister_poller.rs:228-250 | a message is ignored only if every session it could be for has taken itself out or belongs to a failed poller, whatever canisters send; if this canister addresses this client only after its open message was handed over, there is such a session |
| Delivery.SendFindsSession | src/ic-websocket-gateway/src/canister_poller.rs:334-347 | in every run a send finds its session connected and puts the message into its channel |
| Delivery.ChannelIsBounded | src/ic-websocket-gateway/src/client_session_handler.rs:64-70 | in every run a client channel never holds more than 100 messages |
| Delivery.SendsWhileRoom | src/ic-websocket-gateway/src/canister_poller.rs:338-346 | in every run a send waits exactly as long as the channel holds 100 messages |
| Delivery.IdentityIsKept | src/ic-websocket-gateway/src/client_session.rs:289-299 | canister, key and poller state of a session never change once set |
| Delivery.RegistersOnce | src/ic-websocket-gateway/src/client_session_handler.rs:142-150 | a session registers at most once, with its sender in hand |
| Delivery.CloseDiscipline | src/ic-websocket-gateway/src/client_session_handler.rs:201-258 | in every run `ws_close` is called at most once per session, only after it registered, and never while an entry of its own is in the map |
| Delivery.EmptiedForever | src/ic-websocket-gateway/src/canister_poller.rs:312-331 | in every run, a poller state emptied by its poller never has a client again |
| Keys.FoundExactly | src/gateway-state/src/lib.rs:53-95 | in every run, the session under a canister and key is the last one that registered there, if nothing has taken it out since (a removal under that canister and key, or the canister's removal as failed) |
| Keys.TakesAnothersEntry | src/gateway-state/src/lib.rs:113-182 | in every run, a session that takes itself out leaves nobody under its canister and key, and takes out another session exactly if that one registered there after it and nothing has taken it out since |
| Keys.ToldExactly | src/ic-websocket-gateway/src/client_session_handler.rs:201-257 | in every run, a session's canister is told of its end, or is about to be, if and only if the session closed and its removal did not panic, or failed and its removal found somebody |
| Keys.ToldIfCurrent | src/ic-websocket-gateway/src/client_session_handler.rs:201-257 | with distinct keys, that is: it closed without a panic, or failed while its own poller state was its canister's current one |
| EndToEnd.PollerFollowsItsAnswers | src/ic-websocket-gateway/src/canister_poller.rs:70-135 | in every run each poller's log and pending messages, nonce and failure are those the polling rules give for the answers it got, whatever the other tasks do |
| EndToEnd.AnswerLeadsTo | src/ic-websocket-gateway/src/canister_poller.rs:87-147 | in every run a poll's answer makes its poller remove its canister exactly if it is fatal, go on at once with the check for clients exactly if it is a stutter, and relay otherwise |
| EndToEnd.WrittenHasOrigin | src/ic-websocket-gateway/src/canister_poller.rs:219-225 | in every run each message a client reads comes out of an answer to its own poller: a message addressed to it, with its own key and content and that batch's certificate and tree |
| EndToEnd.StuttersDoNotMatter | src/ic-websocket-gateway/src/canister_poller.rs:165-213 | two pollers, in any two runs, whose answers differ only in timeouts, recoverable errors and empty polls have the same messages for their clients |
| EndToEnd.FailureIsAnswered | src/ic-websocket-gateway/src/canister_poller.rs:87-101 | in every run, a poller is removing its canister as failed, or has, if and only if the rules refuse what it was answered |
| EndToEnd.RelaysTheQueue | src/ic-websocket-gateway/src/canister_poller.rs:295-308 | in every run, a poller served from a queue of consecutive nonces does not fail and relays one contiguous piece of the queue |
| EndToEnd.QueueReachesClient | src/ic-websocket-gateway/src/client_session.rs:211-249 | in every run, what a client reads is a prefix of the messages addressed to it in one contiguous piece of such a queue, with strictly increasing nonces; with distinct keys the piece is what its poller relayed from its registration to its removal, and it does not hear of a poller failure |
| Conversation.UpdateLeadsTo | src/ic-websocket-gateway/src/client_session_handler.rs:120-259 | what a waiting handler does next, by the fields of what its session hears: registration, removal after a close or after anything that goes wrong, an end without removal at a closed channel, a panic, or waiting on |
| Conversation.IdentityWasHeard | src/ic-websocket-gateway/src/client_session.rs:284-304 | in every run a session's key and canister are the sender, the nonce and the canister of an open message it heard in Init |
| Conversation.SessionFollowsItsEvents | src/ic-websocket-gateway/src/client_session.rs:143-209 | in every run a session is where the events it saw lead, whatever other tasks do; what was handed over for its canister is its open message and then each relayable call heard in Open, once and in order |
| Conversation.CallsAreHandedOver | src/ic-websocket-gateway/src/client_session.rs:190-194 | in every run an open session hands over a call that can be serialized as it is, for its own canister, and nothing else |
| Conversation.OpenIsHandedOver | src/ic-websocket-gateway/src/client_session_handler.rs:158-185 | in every run the open message is handed over when it is relayed, for the canister it calls, or setup is undone; the poller start follows exactly if it is owed |
| Deadlock.DeadlockStays | src/ic-websocket-gateway/src/canister_poller.rs:227-244 | a handler that wants to remove its client and the poller that sends to it with a full channel: no step of anybody moves either |
| Deadlock.DeadlockedForever | src/ic-websocket-gateway/src/canister_poller.rs:228-244 | in every run the two stay as they are for good |
| Deadlock.DeadlockedExactly | src/ic-websocket-gateway/src/canister_poller.rs:227-244 | in every run with distinct keys, a handler that wants to remove its client stays where it is however the run goes on, if and only if a poller holds the guard on its entry while sending into its full channel. The guard is on one key here and on a shard in the source, where a handler can also wait for a send to another client of the shard |
| Deadlock.HandlerBlocksExactly | src/ic-websocket-gateway/src/client_session_handler.rs:120-260 | a handler that is not over can take a step if and only if it does not have to wait for the guard on its entry |
| Deadlock.PollerBlocksExactly | src/ic-websocket-gateway/src/canister_poller.rs:74-113 | in every run, a poller whose task is not over can take a step if and only if it is not sending into a full channel |
| Deadlock.DeadlockIsReached | src/ic-websocket-gateway/src/client_session_handler.rs:201-211 | a run with distinct keys that ends in the deadlock: a client closes while its poller has more messages for it than the channel holds |
| Witnesses.CanisterIsOrphaned | src/ic-websocket-gateway/src/client_session_handler.rs:158-170 | a run with an envelope whose flag says that it cannot be serialized again, in which an owed poller is dropped and its canister stays in the map |
| Witnesses.CloseInInitPanics | src/ic-websocket-gateway/src/client_session_handler.rs:201-207 | a run in which a close before the open message makes the handler panic |
| Witnesses.UnreachableIsReached | src/gateway-state/src/lib.rs:117-121 | a run in which `remove_client` reaches its `unreachable!` |
| Witnesses.EqualKeysAreConfused | src/gateway-state/src/lib.rs:58-64 | a run with equal keys in which one session's end removes the other's entry |
| Witnesses.NonceWrapsAround | src/ic-websocket-gateway/src/canister_poller.rs:307 | a batch whose nonces wrap around is accepted and not consecutive |

## Left out

- WebSocket framing, TLS and the accept loop: a client event is only a close, a binary message with or without a decodable
  request, another message, or a read error.
- The IC agent, Candid and CBOR: an answer to a poll is any value, and an envelope is its variant, sender, canister and argument.
- The internals of DashMap, tokio channels and `select!`, and the inner map's own shards.
- The handshake message sent when a session is created, and what becomes of a call after it was handed over for the canister,
  which is the business of a spawned task of its own.
- Metrics, tracing spans, identity files, configuration and telemetry.
- Liveness. There is no freedom from deadlock either: a guard is held across a send on a channel of 100 messages, and
  `Deadlock` says exactly when a session that ends meanwhile is stuck with its poller. What else the source blocks then, through
  the shards' locks and the runtime's threads, is not modelled.
- The table of recoverable agent errors: whether an error is recoverable is part of the answer.
- The canister's side of the protocol, acknowledgements and keep-alive, except as assumptions on answers.
- CanisterPoller.Poller.RunPolling: no other task interferes, and a send to a full channel does not wait; both are in `World`.
- ClientSessionHandler.Handler.HandleClientSession: no other task interferes; every interference is in `World`.
- Polling.WholeRunConsecutive: a debug build would panic where the release build wraps around.
