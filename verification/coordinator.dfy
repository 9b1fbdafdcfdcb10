/** The whole system as one sequential event machine: every request handler, tool call and
    callback of the source runs to completion between two events. This holds for the backend
    handlers, which check and update the ledger without yielding; for escalation it also folds
    the backend's handling of the create-transfer request into the tool call. */
module Coordinator {
  import opened Wrappers
  import Models
  import opened Storage
  import opened TransferIds
  import opened Backend
  import opened Agent

  /** How the escalation tool's create-transfer request fared: it never reached the backend, it
      reached it but the tool still raised afterwards, or it completed. */
  datatype HttpOutcome = Unreachable | CreatedNoReply | Replied

  datatype Event =
    | CallStarted(room: string)
    | Escalated(room: string, reason: string, http: HttpOutcome, clock: string, now: string, failing: set<Handle>)
    | EndCallRequested(room: string)
    | TransferCreateRequested(room: string, reason: string, clock: string, now: string, failing: set<Handle>)
    | TransferAcceptRequested(request: Models.AcceptTransfer, now: string, failing: set<Handle>)
    | TransferEndRequested(transferId: string, now: string)
    | ParticipantJoined(room: string, identity: string)
    | OperatorConnected(handle: Handle)
    | OperatorDisconnected(handle: Handle)
    | KeepAlivePolled(room: string)
    | JobEnded(room: string)

  /** The escalation tool of the call in `room`, together with the backend work its request
      triggers. A room without a registered session has no reachable call state. */
  function EscalateStep(s: Store, room: string, reason: string, http: HttpOutcome, clock: string,
                        now: string, failing: set<Handle>): (r: Store)
    ensures room !in s.sessions ==> r == s
    ensures room in s.sessions && s.sessions[room].transferInitiated ==> r == s
    ensures room in s.sessions && !s.sessions[room].transferInitiated ==>
              && room in r.sessions
              && (r.sessions[room].transferInitiated <==> http == Replied)
              && r.sessions[room].shouldDisconnect == s.sessions[room].shouldDisconnect
              && |r.transfers| == |s.transfers| + (if http == Unreachable then 0 else 1)
              && r.transfers[..|s.transfers|] == s.transfers
              && (http != Unreachable ==>
                    r.transfers[|s.transfers|].roomName == room && r.transfers[|s.transfers|].status == Pending)
    ensures r.agents == s.agents
    ensures forall q :: q != room ==> GetActiveSession(r.sessions, q) == GetActiveSession(s.sessions, q)
  {
    if room !in s.sessions then s
    else
      var out := EscalateToHuman(s.sessions[room], http == Replied);
      var s1 :=
        if out.requested && http != Unreachable
        then CreateTransfer(s, room, reason, clock, now, failing).store
        else s;
      assert s1.transfers[..|s.transfers|] == s.transfers;
      s1.(sessions := SetActiveSession(s1.sessions, room, out.state))
  }

  /** A create-transfer request sent straight to the backend: it is accepted for any room,
      registered or not, and the registry is never consulted. */
  function CreateStep(s: Store, room: string, reason: string, clock: string, now: string,
                      failing: set<Handle>): (r: Store)
    ensures |r.transfers| == |s.transfers| + 1 && r.transfers[..|s.transfers|] == s.transfers
    ensures r.transfers[|s.transfers|].roomName == room && r.transfers[|s.transfers|].status == Pending
    ensures LedgerValid(s.transfers) ==> LedgerValid(r.transfers)
    ensures r.sessions == s.sessions && r.agents == s.agents
  {
    CreateTransfer(s, room, reason, clock, now, failing).store
  }

  /** The participant-joined handler of the call in `room`. */
  function JoinStep(s: Store, room: string, identity: string): (r: Store)
    ensures r.transfers == s.transfers && r.agents == s.agents
    ensures room !in s.sessions ==> r == s
    ensures room in s.sessions ==>
              && room in r.sessions
              && (r.sessions[room].shouldDisconnect <==> s.sessions[room].shouldDisconnect || IsHumanOperator(identity))
              && r.sessions[room].transferInitiated == s.sessions[room].transferInitiated
    ensures forall q :: q != room ==> GetActiveSession(r.sessions, q) == GetActiveSession(s.sessions, q)
  {
    if room in s.sessions
    then s.(sessions := SetActiveSession(s.sessions, room, OnParticipantConnected(s.sessions[room], identity)))
    else s
  }

  /** One event applied to the whole state. A call starting registers a fresh call state for its
      room, replacing any earlier one, and touches nothing else. A direct create-transfer request
      appends a pending record for any room, registered or not, and leaves the registry alone. */
  function Step(s: Store, e: Event): (r: Store)
    ensures e.CallStarted? ==>
              && GetActiveSession(r.sessions, e.room) == Some(Models.NewCallState())
              && !r.sessions[e.room].transferInitiated && !r.sessions[e.room].shouldDisconnect
              && (forall q :: q != e.room ==> GetActiveSession(r.sessions, q) == GetActiveSession(s.sessions, q))
              && r.transfers == s.transfers && r.agents == s.agents
    ensures e.TransferCreateRequested? ==>
              && |r.transfers| == |s.transfers| + 1 && r.transfers[..|s.transfers|] == s.transfers
              && r.transfers[|s.transfers|].roomName == e.room && r.transfers[|s.transfers|].status == Pending
              && r.sessions == s.sessions && r.agents == s.agents
  {
    match e
    case CallStarted(room) => s.(sessions := SetActiveSession(s.sessions, room, Models.NewCallState()))
    case Escalated(room, reason, http, clock, now, failing) => EscalateStep(s, room, reason, http, clock, now, failing)
    case EndCallRequested(_) => s
    case TransferCreateRequested(room, reason, clock, now, failing) => CreateStep(s, room, reason, clock, now, failing)
    case TransferAcceptRequested(request, now, failing) => AcceptTransfer(s, request, now, failing).store
    case TransferEndRequested(id, now) => EndTransfer(s, id, now).store
    case ParticipantJoined(room, identity) => JoinStep(s, room, identity)
    case OperatorConnected(h) => s.(agents := AddAgent(s.agents, h))
    case OperatorDisconnected(h) => s.(agents := RemoveAgent(s.agents, h))
    case KeepAlivePolled(room) => s.(sessions := PollKeepAlive(s.sessions, room))
    case JobEnded(room) => s.(sessions := EndJob(s.sessions, room))
  }

  function Run(s: Store, es: seq<Event>): Store
    decreases |es|
  {
    if es == [] then s else Run(Step(s, es[0]), es[1..])
  }

  // ---------------------------------------------------------------- ledger evolution

  function Rank(st: Status): nat {
    match st
    case Pending => 0
    case Accepted => 1
    case Completed => 2
  }

  /** `t2` is a later state of ledger `t1`: nothing was removed or reordered, no record was
      renamed or moved to another room, and no status went backwards. */
  ghost predicate Evolves(t1: seq<TransferRecord>, t2: seq<TransferRecord>) {
    && |t1| <= |t2|
    && forall i :: 0 <= i < |t1| ==>
         && t2[i].id == t1[i].id
         && t2[i].roomName == t1[i].roomName
         && Rank(t1[i].status) <= Rank(t2[i].status)
  }

  /** An update of one record in place that keeps its name and room and does not lower its
      status is an evolution. */
  lemma UpdateEvolves(t: seq<TransferRecord>, u: seq<TransferRecord>, i: nat)
    requires |u| == |t| && i < |t|
    requires forall j :: 0 <= j < |t| && j != i ==> u[j] == t[j]
    requires u[i].id == t[i].id && u[i].roomName == t[i].roomName
    requires Rank(t[i].status) <= Rank(u[i].status)
    ensures Evolves(t, u)
  {
  }

  lemma EscalateEvolves(s: Store, room: string, reason: string, http: HttpOutcome, clock: string,
                         now: string, failing: set<Handle>)
    ensures var r := EscalateStep(s, room, reason, http, clock, now, failing);
            Evolves(s.transfers, r.transfers) && (LedgerValid(s.transfers) ==> LedgerValid(r.transfers))
  {
    var r := EscalateStep(s, room, reason, http, clock, now, failing);
    if room in s.sessions && !s.sessions[room].transferInitiated && http != Unreachable {
      var c := CreateTransfer(s, room, reason, clock, now, failing);
      assert r.transfers == c.store.transfers == s.transfers + [c.transfer];
    } else {
      assert r.transfers == s.transfers;
    }
  }

  lemma AcceptEvolves(s: Store, request: Models.AcceptTransfer, now: string, failing: set<Handle>)
    ensures var r := AcceptTransfer(s, request, now, failing).store;
            Evolves(s.transfers, r.transfers) && (LedgerValid(s.transfers) ==> LedgerValid(r.transfers))
  {
    if Claimable(s.transfers, request.transferId) {
      var i := FindIndex(s.transfers, request.transferId).value;
      UpdateEvolves(s.transfers, AcceptTransfer(s, request, now, failing).store.transfers, i);
    }
  }

  lemma EndEvolves(s: Store, id: string, now: string)
    ensures var r := EndTransfer(s, id, now).store;
            Evolves(s.transfers, r.transfers) && (LedgerValid(s.transfers) ==> LedgerValid(r.transfers))
  {
    if FindIndex(s.transfers, id).Some? {
      UpdateEvolves(s.transfers, EndTransfer(s, id, now).store.transfers, FindIndex(s.transfers, id).value);
    }
  }

  lemma StepEvolves(s: Store, e: Event)
    ensures Evolves(s.transfers, Step(s, e).transfers)
    ensures LedgerValid(s.transfers) ==> LedgerValid(Step(s, e).transfers)
  {
    match e
    case Escalated(room, reason, http, clock, now, failing) =>
      EscalateEvolves(s, room, reason, http, clock, now, failing);
    case TransferAcceptRequested(request, now, failing) =>
      AcceptEvolves(s, request, now, failing);
    case TransferEndRequested(id, now) =>
      EndEvolves(s, id, now);
    case TransferCreateRequested(room, reason, clock, now, failing) =>
      var c := CreateTransfer(s, room, reason, clock, now, failing);
      assert Step(s, e).transfers == s.transfers + [c.transfer];
    case _ =>
      assert Step(s, e).transfers == s.transfers;
  }

  lemma {:induction false} RunEvolves(s: Store, es: seq<Event>)
    ensures Evolves(s.transfers, Run(s, es).transfers)
    ensures LedgerValid(s.transfers) ==> LedgerValid(Run(s, es).transfers)
    decreases |es|
  {
    if es != [] {
      var s1 := Step(s, es[0]);
      StepEvolves(s, es[0]);
      RunEvolves(s1, es[1..]);
      assert Run(s, es) == Run(s1, es[1..]);
    }
  }

  /** Every reachable ledger is valid: identifiers are unique and each record's fields match
      its status. */
  lemma ReachableLedgerValid(es: seq<Event>)
    ensures LedgerValid(Run(EmptyStore, es).transfers)
    ensures var t := Run(EmptyStore, es).transfers;
            forall i, j :: 0 <= i < |t| && 0 <= j < |t| && t[i].id == t[j].id ==> i == j
  {
    RunEvolves(EmptyStore, es);
    LedgerIdsDistinct(Run(EmptyStore, es).transfers);
  }

  // ---------------------------------------------------------------- at most one claim

  /** Once the request named `id` has left `pending`, every later claim of it is refused as
      already handled, whatever happened in between. */
  lemma ClaimIsFinal(s: Store, es: seq<Event>, req: Models.AcceptTransfer, now: string, failing: set<Handle>)
    requires FindIndex(s.transfers, req.transferId).Some?
    requires s.transfers[FindIndex(s.transfers, req.transferId).value].status != Pending
    ensures AcceptTransfer(Run(s, es), req, now, failing).response == Rejected(AlreadyHandledError)
  {
    RunEvolves(s, es);
    var t := Run(s, es).transfers;
    var i := FindIndex(s.transfers, req.transferId).value;
    FindIndexStable(s.transfers, t, req.transferId);
  }

  /** The first successful claim of a request is the only one: a second operator claiming the
      same request, immediately or after any other events, is refused. */
  lemma ClaimIsExclusive(s: Store, first: Models.AcceptTransfer, second: Models.AcceptTransfer,
                         now1: string, now2: string, failing1: set<Handle>, failing2: set<Handle>,
                         es: seq<Event>)
    requires AcceptTransfer(s, first, now1, failing1).response.Granted?
    requires second.transferId == first.transferId
    ensures AcceptTransfer(Run(AcceptTransfer(s, first, now1, failing1).store, es), second, now2, failing2).response
            == Rejected(AlreadyHandledError)
  {
    var s1 := AcceptTransfer(s, first, now1, failing1).store;
    var i := FindIndex(s.transfers, first.transferId).value;
    FindIndexStable(s.transfers, s1.transfers, first.transferId);
    ClaimIsFinal(s1, es, second, now2, failing2);
  }

  // ---------------------------------------------------------------- the disconnect signal

  /** The disconnect flag of a registered call is never cleared; only a new call in the same
      room starts from a clear flag, and a poll or the end of the job unregisters the room.
      Only a new call registers a room, so an unregistered room stays unregistered. */
  lemma DisconnectIsSticky(s: Store, e: Event, room: string)
    requires room in s.sessions ==> s.sessions[room].shouldDisconnect
    requires !(e.CallStarted? && e.room == room)
    ensures var s' := Step(s, e);
            room in s'.sessions ==> s'.sessions[room].shouldDisconnect
    ensures room !in s.sessions ==> room !in Step(s, e).sessions
  {
    match e
    case Escalated(r, reason, http, clock, now, failing) =>
      if r != room {
        assert GetActiveSession(Step(s, e).sessions, room) == GetActiveSession(s.sessions, room);
      }
    case TransferAcceptRequested(request, now, failing) =>
      var out := AcceptTransfer(s, request, now, failing);
      if Claimable(s.transfers, request.transferId) {
        var rm := s.transfers[FindIndex(s.transfers, request.transferId).value].roomName;
        if rm != room {
          assert GetActiveSession(out.store.sessions, room) == GetActiveSession(s.sessions, room);
        }
      }
    case ParticipantJoined(r, identity) =>
      if r != room {
        assert GetActiveSession(Step(s, e).sessions, room) == GetActiveSession(s.sessions, room);
      }
    case KeepAlivePolled(r) =>
      if r != room {
        assert GetActiveSession(Step(s, e).sessions, room) == GetActiveSession(s.sessions, room);
      }
    case JobEnded(r) =>
      if r != room {
        assert GetActiveSession(Step(s, e).sessions, room) == GetActiveSession(s.sessions, room);
      }
    case CallStarted(r) =>
      assert GetActiveSession(Step(s, e).sessions, room) == GetActiveSession(s.sessions, room);
    case _ =>
  }

  /** Over any run in which no new call starts in the room, a set disconnect flag stays set
      for as long as the room is registered, and an unregistered room stays unregistered. */
  lemma {:induction false} DisconnectStaysSet(s: Store, es: seq<Event>, room: string)
    requires room in s.sessions ==> s.sessions[room].shouldDisconnect
    requires forall k :: 0 <= k < |es| ==> !(es[k].CallStarted? && es[k].room == room)
    ensures room in Run(s, es).sessions ==> Run(s, es).sessions[room].shouldDisconnect
    ensures room !in s.sessions ==> room !in Run(s, es).sessions
    decreases |es|
  {
    if es != [] {
      DisconnectIsSticky(s, es[0], room);
      assert forall k :: 0 <= k < |es[1..]| ==> es[1..][k] == es[k + 1];
      DisconnectStaysSet(Step(s, es[0]), es[1..], room);
    }
  }

  /** A successful claim makes the claimed call's keep-alive loop end at its next check and
      unregister the room; a call with no registered session does not stop the claim. */
  lemma ClaimEvictsAgent(s: Store, req: Models.AcceptTransfer, now: string, failing: set<Handle>)
    requires Claimable(s.transfers, req.transferId)
    ensures var out := AcceptTransfer(s, req, now, failing);
            var room := out.response.roomName;
            && out.response.Granted?
            && room == s.transfers[FindIndex(s.transfers, req.transferId).value].roomName
            && (room in s.sessions ==> room in out.store.sessions && out.store.sessions[room].shouldDisconnect)
            && room !in Step(out.store, KeepAlivePolled(room)).sessions
  {
  }

  /** The identity issued with a claim passes the agent's operator check, so the claiming
      operator joining the room also asks the agent to leave. */
  lemma ClaimedIdentityTriggersDisconnect(s: Store, req: Models.AcceptTransfer, now: string,
                                          failing: set<Handle>, t: Store)
    requires AcceptTransfer(s, req, now, failing).response.Granted?
    requires AcceptTransfer(s, req, now, failing).response.roomName in t.sessions
    ensures var g := AcceptTransfer(s, req, now, failing).response;
            IsHumanOperator(g.identity)
            && Step(t, ParticipantJoined(g.roomName, g.identity)).sessions[g.roomName].shouldDisconnect
  {
    var g := AcceptTransfer(s, req, now, failing).response;
    assert g.identity == IdentityFor(req.agentName);
    assert g.identity[..|OperatorPrefix|] == OperatorPrefix;
  }

  /** In a valid ledger a claimed request leaves the pending list. */
  lemma ClaimLeavesPendingList(s: Store, req: Models.AcceptTransfer, now: string, failing: set<Handle>)
    requires LedgerValid(s.transfers)
    requires Claimable(s.transfers, req.transferId)
    ensures forall x :: x in GetTransfers(AcceptTransfer(s, req, now, failing).store).transfers ==> x.id != req.transferId
  {
    var t := AcceptTransfer(s, req, now, failing).store.transfers;
    var i := FindIndex(s.transfers, req.transferId).value;
    LedgerIdsDistinct(s.transfers);
    forall x | x in GetTransfers(AcceptTransfer(s, req, now, failing).store).transfers
      ensures x.id != req.transferId
    {
      var j :| 0 <= j < |t| && t[j] == x;
      if j != i {
        assert x == s.transfers[j];
      }
    }
  }

  /** In a valid ledger an ended request leaves the pending list. */
  lemma EndLeavesPendingList(s: Store, id: string, now: string)
    requires LedgerValid(s.transfers)
    ensures forall x :: x in GetTransfers(EndTransfer(s, id, now).store).transfers ==> x.id != id
  {
    var t := EndTransfer(s, id, now).store.transfers;
    LedgerIdsDistinct(s.transfers);
    forall x | x in GetTransfers(EndTransfer(s, id, now).store).transfers
      ensures x.id != id
    {
      var j :| 0 <= j < |t| && t[j] == x;
      if FindIndex(s.transfers, id).Some? && j != FindIndex(s.transfers, id).value {
        assert x == s.transfers[j];
      }
    }
  }

  // ---------------------------------------------------------------- escalation

  /** A call's first successful escalation adds exactly one pending request for its room,
      and a repeated escalation adds none. */
  lemma EscalationCreatesOneRequest(s: Store, room: string, reason: string, clock: string,
                                    now: string, failing: set<Handle>, e2: Event)
    requires room in s.sessions && !s.sessions[room].transferInitiated
    requires e2.Escalated? && e2.room == room
    ensures var s1 := Step(s, Escalated(room, reason, Replied, clock, now, failing));
            && |PendingTransfers(s1.transfers)| == |PendingTransfers(s.transfers)| + 1
            && PendingTransfers(s1.transfers)[|PendingTransfers(s.transfers)|].roomName == room
            && Step(s1, e2) == s1
  {
    var c := CreateTransfer(s, room, reason, clock, now, failing);
    var s1 := Step(s, Escalated(room, reason, Replied, clock, now, failing));
    assert s1.transfers == c.store.transfers;
  }

  // ---------------------------------------------------------------- a complete hand-off

  /** A call is registered, escalates, is claimed by one operator and refused to a second, and
      its session is unregistered at the next check of its keep-alive loop. */
  lemma HandoffScenario(clock: string, now: string, h: Handle)
    ensures var s0 := Step(Step(EmptyStore, OperatorConnected(h)), CallStarted("room-1"));
            var s1 := Step(s0, Escalated("room-1", DefaultReason, Replied, clock, now, {}));
            var id := TransferId(0, clock);
            var alice := AcceptTransfer(s1, Models.AcceptTransfer(id, "alice"), now, {});
            var bob := AcceptTransfer(alice.store, Models.AcceptTransfer(id, "bob"), now, {h});
            && GetTransfers(s1).count == 1
            && GetTransfers(s1).transfers[0].id == id
            && alice.response == Granted("agent_alice", "room-1", alice.store.transfers[0])
            && alice.sent == [Attempt(h, TransferAccepted(id), true)]
            && bob.response == Rejected(AlreadyHandledError)
            && "room-1" in alice.store.sessions && alice.store.sessions["room-1"].shouldDisconnect
            && "room-1" !in Step(bob.store, KeepAlivePolled("room-1")).sessions
  {
    var room := "room-1";
    var sa := Step(EmptyStore, OperatorConnected(h));
    assert sa == Store([], [h], map[]);
    var s0 := Step(sa, CallStarted(room));
    assert s0 == Store([], [h], map[room := Models.NewCallState()]);
    var s1 := Step(s0, Escalated(room, DefaultReason, Replied, clock, now, {}));
    var c := CreateTransfer(s0, room, DefaultReason, clock, now, {});
    assert s1 == EscalateStep(s0, room, DefaultReason, Replied, clock, now, {});
    assert s1.transfers == [c.transfer];
    assert s1.agents == [h];
    var id := TransferId(0, clock);
    assert c.transfer.id == id;
    assert c.transfer.roomName == room && c.transfer.status == Pending;
    assert PendingTransfers(s1.transfers) == [c.transfer];
    assert room in s1.sessions;
    var req := Models.AcceptTransfer(id, "alice");
    assert FindIndex(s1.transfers, id) == Some(0);
    assert Claimable(s1.transfers, id);
    var alice := AcceptTransfer(s1, req, now, {});
    assert alice.sent == Fanout([h], TransferAccepted(id), {});
    assert alice.response == Granted(IdentityFor("alice"), room, alice.store.transfers[0]);
    ClaimEvictsAgent(s1, req, now, {});
    ClaimIsExclusive(s1, req, Models.AcceptTransfer(id, "bob"), now, now, {}, {h}, []);
    assert Run(alice.store, []) == alice.store;
  }
}
