# Call-transfer coordination, modelled in Dafny

This project models the core of an AI call-center backend. The core hands a live voice call over
from an automated agent to a human operator. It has three in-memory stores:

- the **transfer ledger**: an append-only list of hand-off requests, each `pending`, `accepted`
  or `completed`;
- the **operator directory**: the notification sockets of the connected operators;
- the **session registry**: the state of the agent's active call, keyed by room name.

The backend's endpoints change these stores. `create_transfer` adds a request and
`accept_transfer` lets one operator claim it. `end_transfer` closes it. Each call's agent keeps
a small set of flags. It sets `transfer_initiated` when it escalates. Its keep-alive loop ends,
and its session is unregistered, once `should_disconnect` is set, either by a claim or by an
operator joining the room with an `agent_` identity. Last, there is a start-up check of the three credentials.

Everything is modelled functionally. The stores and the call state are immutable datatypes.
Each operation is a pure function from the old state to the new state and a response.

| file | module | source |
|---|---|---|
| `wrappers.dfy` | `Wrappers` | `Option`, the stand-in for `None` |
| `transfer_ids.dfy` | `TransferIds` | the `transfer_<n>_<HHMMSS>` identifiers of `utils/backend.py` |
| `models.dfy` | `Models` | `utils/models.py` |
| `storage.dfy` | `Storage` | `utils/storage.py` |
| `backend.dfy` | `Backend` | `utils/backend.py` |
| `agent.dfy` | `Agent` | `utils/agent.py` |
| `config.dfy` | `Config` | `utils/config.py` |
| `coordinator.dfy` | `Coordinator` | all of the above as one event machine |

`Coordinator.Step` applies one event to the whole state. The events are:

- a call starting;
- the agent escalating or ending the call;
- a direct create-transfer request, for any room;
- an operator accepting or ending a transfer;
- a participant joining a room;
- an operator socket connecting or disconnecting;
- a check of the keep-alive loop;
- an agent job ending.

Every handler runs to completion between two events. This is faithful for `accept_transfer`:
nothing is awaited between its lookup and its update, so on one event loop the claim is atomic.

Some values come from outside the core, so they are parameters:

- the clock readings, as opaque strings;
- whether each socket send raises, given as the set of failing sockets;
- how the escalation's HTTP request fared;
- the three credential values.

## Behaviour worth knowing


- Creating a transfer does not check that the room has a registered session (`CreateTransfer` has
  no such precondition).
- Registering a session for a room that already has one silently replaces it. It does not fail
  (`SetActiveSessionOverwrites`).
- A socket whose send fails during a broadcast stays in the directory (`Broadcast`).
- The "transfer accepted" notice goes to every connected socket, the claimant's included, not
  only to the remaining operators.
- When the escalation request fails, the `transfer_initiated` flag is reset to false. It is not
  left set (`EscalateToHuman`).
- `end_transfer` marks a request completed from any status, pending included, and it reports
  success even for an unknown id (`EndTransfer`).
- When a call's job ends, its pending requests stay pending and can still be claimed. The claim
  then finds no session and succeeds anyway (`AcceptTransfer`, `ClaimEvictsAgent`).
- Only an `agent_` participant joining the room starts the agent's media disconnect (closing
  its speech session and leaving the room). A claim only sets `should_disconnect`, which ends
  the keep-alive loop and unregisters the session (`ClaimEvictsAgent`, `OnParticipantConnected`).
- The entrypoint registers the call before it awaits the speech session's start and greeting.
  If either await raises, or the job is cancelled there, the `try`/`finally` of the keep-alive
  loop has not been entered, so the room stays registered for good. A later claim then sets the
  flag on a state that no loop polls (utils/agent.py:89-132, 140-142).
- The end-of-call tool does not end the keep-alive loop. Only `should_disconnect` or the job
  ending does (`PollKeepAlive`, `EndJob`).

## Model

| member | source | states |
|---|---|---|
| `Models.NewCallState` | utils/models.py:5-11 | a new call has not asked for a transfer, has seen no negative sentiment, has an empty log and has not been asked to leave |
| `Agent.FreshCallBehaviour` | utils/models.py:8-11 | a new call's defaults lead to the neutral goodbye and to an escalation that contacts the backend; its keep-alive loop keeps running |
| `Storage.PendingTransfers` | utils/storage.py:8-10 | a record is listed exactly when it is in the ledger with status pending |
| `Storage.PendingTransfersAppend` | utils/storage.py:8-10 | listing pending records commutes with concatenation, so the list keeps ledger order |
| `Storage.FindIndex` | utils/storage.py:12-14 | the result is the first position holding that id, or None when no record has it |
| `Storage.TransferById` | utils/storage.py:12-14 | returns the first record with the id, or None exactly when no record has it |
| `Storage.FindIndexStable` | utils/storage.py:12-14 | the position found for an id stays the same while the records up to it keep their ids; the record at that position may have changed status |
| `Storage.AddTransfer` | utils/storage.py:16-18 | the ledger grows by exactly the new record at its end; earlier lookups and the pending list's prefix are unchanged |
| `Storage.AddAgent` | utils/storage.py:20-22 | the operator count grows by one and the socket joins the directory's end |
| `Storage.RemoveAgent` | utils/storage.py:24-27 | an absent socket changes nothing; a present one loses exactly one occurrence and the count drops by one; other sockets are untouched |
| `Storage.RemoveAgentIdempotent` | utils/storage.py:24-27 | while each socket is listed once, removing it twice equals removing it once |
| `Storage.AgentCount` | utils/storage.py:29-31 | the operator count is the number of open connections, counting a socket listed twice twice; it is zero exactly when no operator is connected |
| `Storage.GetActiveSession` | utils/storage.py:33-35 | a room's lookup gives a state exactly when the room is registered, and then the registered state; otherwise None |
| `Storage.SetActiveSession` | utils/storage.py:37-39 | looking up the room afterwards gives the new state; other rooms are unchanged |
| `Storage.SetActiveSessionOverwrites` | utils/storage.py:37-39 | a second registration for a room replaces the first |
| `Storage.RemoveActiveSession` | utils/storage.py:41-44 | looking up the room afterwards gives None, whether or not it was registered; other rooms are unchanged |
| `Storage.RemoveActiveSessionIdempotent` | utils/storage.py:41-44 | removing a room twice equals removing it once |
| `TransferIds.NatToString` | utils/backend.py:122 | the decimal counter is a non-empty run of digits, one digit exactly for numbers below ten |
| `TransferIds.NatToStringInjective` | utils/backend.py:122 | different counters are written differently |
| `TransferIds.TransferId` | utils/backend.py:122 | the identifier carries the ledger length it was created at |
| `TransferIds.CounterUnique` | utils/backend.py:121-128 | an identifier carries one counter only, whatever the clock reading in it |
| `Backend.LedgerIdsDistinct` | utils/backend.py:121-128 | in a ledger built by index-based naming, no two records share an id |
| `Backend.LedgerLookupUnique` | utils/storage.py:12-14 | in such a ledger, looking up a record's id finds that very record |
| `Backend.Fanout` | utils/backend.py:100-108 | a broadcast attempts one send per socket in directory order; a send succeeds exactly when its socket is not failing |
| `Backend.Broadcast` | utils/backend.py:132-140 | the send loop makes the sends `Fanout` describes, and every healthy socket receives the message even when others fail |
| `Backend.IdentityFor` | utils/backend.py:88 | the issued identity is `agent_` followed by the operator's name |
| `Backend.GetTransfers` | utils/backend.py:58-62 | returns exactly the pending records and their number |
| `Backend.CreateTransfer` | utils/backend.py:118-142 | appends one pending record for the room, whose id holds the old ledger length and is new to a valid ledger; the record joins the end of the pending list; directory and registry are unchanged; every socket is sent the record |
| `Backend.AcceptTransfer` | utils/backend.py:64-116 | an unknown id gives "Transfer not found" and a non-pending record "Transfer already handled", both with no change and no send; otherwise only that record becomes accepted with the operator's name; the room's session, if any, is told to disconnect and other rooms are untouched; the response carries the record's room and the `agent_` identity; every socket is notified |
| `Backend.EndTransfer` | utils/backend.py:144-152 | always reports success; a known id's record becomes completed from any status and nothing else changes; an unknown id changes nothing |
| `Backend.EndTransferIdempotent` | utils/backend.py:144-152 | ending a request twice leaves every status as ending it once did |
| `Agent.EscalateToHuman` | utils/agent.py:33-57 | with a transfer in progress it refuses and sends nothing; otherwise it sends the request; on success the flag is set and the hold message returned; on failure the flag is cleared and the apology returned; the disconnect flag is never touched |
| `Agent.EscalationGuard` | utils/agent.py:35-38 | after a successful escalation a second one is refused without a request; after a failed one a retry sends a new request |
| `Agent.EndCall` | utils/agent.py:62-65 | the apologetic goodbye exactly when negative sentiment was counted, the neutral one otherwise |
| `Agent.OnParticipantConnected` | utils/agent.py:118-126 | an identity starting with `agent_` sets the disconnect flag; any other identity changes nothing; the flag is never cleared |
| `Agent.PollKeepAlive` | utils/agent.py:131-142 | once the call's disconnect flag is set, the loop ends and the room is unregistered; before that nothing changes; other rooms are untouched |
| `Agent.EndJob` | utils/agent.py:138-142 | however the loop ends, its cleanup unregisters the room and leaves other rooms untouched |
| `Config.ValidateConfig` | utils/config.py:50-60 | no errors exactly when all three credentials are set and non-empty; one LiveKit error when the key or secret is missing; one Google error when the Google key is missing; at most two errors, the LiveKit one first |
| `Coordinator.Step` | utils/agent.py:88-89 | a call starting registers a fresh call state for its room, with no transfer asked for and no disconnect requested, replacing any earlier one; other rooms, the ledger and the directory are unchanged |
| `Coordinator.CreateStep` | utils/backend.py:118-142 | a direct create-transfer request appends one pending record for its room whether or not the room is registered, keeps a valid ledger valid, and leaves the registry and the directory alone |
| `Coordinator.JoinStep` | utils/agent.py:118-126 | a participant joining a registered room sets its disconnect flag exactly when the identity has the operator prefix, keeping a flag already set and the transfer flag; an unregistered room, other rooms, the ledger and the directory are unchanged |
| `Coordinator.EscalateStep` | utils/agent.py:33-57 | an escalation from a call not yet transferring adds one pending request for its room when the request reached the backend; the call's flag ends up set exactly when the reply came back |
| `Coordinator.StepEvolves` | utils/backend.py:64-152 | no event removes, reorders or renames a ledger record, and no status moves backwards; every event keeps the ledger valid |
| `Coordinator.RunEvolves` | utils/backend.py:64-152 | the same holds over any sequence of events |
| `Coordinator.ReachableLedgerValid` | utils/backend.py:118-128 | every ledger reachable from the empty stores is valid, and its ids are pairwise distinct |
| `Coordinator.ClaimIsFinal` | utils/backend.py:71-72 | once a request is no longer pending, any later claim of it is refused as already handled, whatever happened in between |
| `Coordinator.ClaimIsExclusive` | utils/backend.py:67-76 | after a claim succeeds, a second claim of the same request fails, immediately or after any events |
| `Coordinator.DisconnectIsSticky` | utils/agent.py:126-142 | only a new call in the same room clears a registered call's disconnect flag; no other event does |
| `Coordinator.DisconnectStaysSet` | utils/agent.py:126-142 | over any run with no new call in the room, a set disconnect flag stays set while the room is registered, and a removed room stays removed |
| `Coordinator.ClaimLeavesPendingList` | utils/backend.py:58-76 | in a valid ledger, a claimed request no longer appears among the pending transfers |
| `Coordinator.EndLeavesPendingList` | utils/backend.py:144-152 | in a valid ledger, an ended request no longer appears among the pending transfers |
| `Coordinator.ClaimEvictsAgent` | utils/backend.py:78-84 | a successful claim returns the record's room, sets that room's disconnect flag if it has a session, and the next loop check unregisters its session |
| `Coordinator.ClaimedIdentityTriggersDisconnect` | utils/agent.py:121-126 | the identity issued on a claim passes the agent's operator check, so that operator joining the room sets the disconnect flag |
| `Coordinator.EscalationCreatesOneRequest` | utils/agent.py:35-52 | a first successful escalation adds exactly one pending request for the call's room, and a repeated escalation changes nothing |
| `Coordinator.HandoffScenario` | utils/backend.py:64-116 | in a full run, the call escalates and its request is listed; alice's claim succeeds for `room-1` and notifies the connected operator; bob's claim is refused; the call's session is unregistered at the next loop check |

## Left out

- HTTP routing, CORS, the root status endpoint and the operator socket's receive loop with its
  "connected" greeting (utils/backend.py:18-56, 154-160) are transport. Only the directory
  updates they make are modelled: `AddAgent` and `RemoveAgent`.
- The LiveKit access token, its grants and the server URL (utils/backend.py:87-97, 114) are a
  foreign library. Only the token's identity string is kept, in `IdentityFor`.
- The speech session, noise cancellation, the greeting, `disconnect_ai_agent` and the room
  connection (utils/agent.py:92-115, 129, 144-157) are external media and AI services.
- The HTTP request inside `escalate_to_human` (utils/agent.py:41-50) is not modelled. Its outcome
  is an input. `Coordinator.HttpOutcome` also covers a request that reached the backend but
  raised afterwards.
- `save_conversation_log` (utils/agent.py:70) is not defined in the modelled code, so `EndCall`
  returns only the goodbye. If the method is missing at run time, the tool raises instead of
  returning it.
- Timestamps (`datetime.now()`) are opaque string inputs. Clock readings are not related to
  one another.
- Concurrency is left out: `asyncio.sleep` polling, `create_task`, and the main thread that
  starts the server (main.py). Coroutines can also interleave at an `await`: during the
  broadcast's sends, or between the escalation tool setting its flag and the reply coming back.
  The model treats each handler as one step.
- Aliasing in the registry is not modelled. The registry holds the assistant object by reference.
  The model holds the call state by value and keeps each call's state only in the registry. So an
  assistant whose room entry was replaced by a second call in the same room is not modelled, and
  neither is one whose entry was removed. `Coordinator.EscalateStep` and
  `Coordinator.JoinStep` treat such a room as having no reachable state.
- The conversation log is never written by the modelled code, and the negative-sentiment counter
  is never changed by it. Both are kept only as fields.
- The entrypoint's start-up is one `CallStarted` step: registering the call, attaching the
  participant handler and entering the keep-alive loop happen together. In the source the
  handler is attached only after the start and greeting awaits (utils/agent.py:89-118). An
  `agent_` participant who joins before that is never seen, so `Coordinator.JoinStep` describes
  the handler from its attachment on.
- The backend and the agent's jobs are assumed to run in one process and share one `storage`
  module, so a claim reaches the call's registered state. Whether the agent framework runs jobs
  in child processes is framework behaviour outside the modelled code.
- The coordinator's `OperatorConnected` event can list a socket that is already listed. The source cannot,
  because each websocket connection is a new object added once (utils/backend.py:38-41). So
  `Run` does not maintain `NoDuplicates`, and `Storage.RemoveAgentIdempotent` assumes it instead.
- Logging, console output and the start-up sequence (main.py, utils/init.py, the logger calls)
  are left out.
- `Storage.RemoveAgent`: its contract states the multiset of sockets left, not that the remaining
  sockets keep their order (the definition keeps it).
- `Storage.TransferById`: the source returns a reference to the stored dict, and the endpoints
  update the record through it. The model updates the ledger at the index `FindIndex` returns.
- Statuses are a datatype rather than free strings. The code only ever writes the three values.
