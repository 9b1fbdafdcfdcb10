/** The transfer endpoints of the backend (utils/backend.py) as state transitions over the
    stores. HTTP routing, token signing and socket I/O are abstracted: a broadcast is the list
    of sends it attempts, and which sockets fail is an input. */
module Backend {
  import opened Wrappers
  import Models
  import opened Storage
  import opened TransferIds

  const DefaultReason := "Customer request"
  const NotFoundError := "Transfer not found"
  const AlreadyHandledError := "Transfer already handled"
  const IdentityHead := "agent_"

  /** The events pushed to operator sockets. */
  datatype Message = IncomingCall(transfer: TransferRecord) | TransferAccepted(transferId: string)

  /** One attempted send; `delivered` is false when the socket raised and the error was swallowed. */
  datatype Attempt = Attempt(handle: Handle, message: Message, delivered: bool)

  /** The sends a broadcast makes: one per socket, in directory order. */
  function Fanout(agents: seq<Handle>, msg: Message, failing: set<Handle>): (log: seq<Attempt>)
    ensures |log| == |agents|
    ensures forall k :: 0 <= k < |agents| ==> log[k] == Attempt(agents[k], msg, agents[k] !in failing)
  {
    if agents == [] then []
    else [Attempt(agents[0], msg, agents[0] !in failing)] + Fanout(agents[1..], msg, failing)
  }

  /** The notification loop: every connected socket is sent the message in directory order, and
      a send that raises is ignored. A failing socket neither stops the loop nor leaves the
      directory. */
  method Broadcast(agents: seq<Handle>, msg: Message, failing: set<Handle>) returns (log: seq<Attempt>)
    ensures log == Fanout(agents, msg, failing)
    ensures forall k :: 0 <= k < |agents| && agents[k] !in failing ==> log[k].delivered
  {
    log := [];
    var k := 0;
    while k < |agents|
      invariant 0 <= k <= |agents|
      invariant |log| == k
      invariant forall j :: 0 <= j < k ==> log[j] == Attempt(agents[j], msg, agents[j] !in failing)
    {
      var ok := agents[k] !in failing;
      log := log + [Attempt(agents[k], msg, ok)];
      k := k + 1;
    }
  }

  /** The room identity written into the token issued to an accepting operator. */
  function IdentityFor(agentName: string): (identity: string)
    ensures |identity| == |IdentityHead| + |agentName|
    ensures identity[..|IdentityHead|] == IdentityHead && identity[|IdentityHead|..] == agentName
  {
    IdentityHead + agentName
  }

  // ---------------------------------------------------------------- ledger invariant

  /** The fields a record has in each status, given how the endpoints below write them. */
  predicate RecordConsistent(t: TransferRecord) {
    match t.status
    case Pending => t.agentName.None? && t.acceptedAt.None? && t.completedAt.None?
    case Accepted => t.agentName.Some? && t.acceptedAt.Some? && t.completedAt.None?
    case Completed => t.completedAt.Some?
  }

  /** Every record sits at the position its identifier's counter names, and its fields agree
      with its status. */
  predicate LedgerValid(t: seq<TransferRecord>) {
    forall i :: 0 <= i < |t| ==> HasCounter(t[i].id, i) && RecordConsistent(t[i])
  }

  /** In a valid ledger no two records share an identifier. */
  lemma LedgerIdsDistinct(t: seq<TransferRecord>)
    requires LedgerValid(t)
    ensures forall i, j :: 0 <= i < |t| && 0 <= j < |t| && t[i].id == t[j].id ==> i == j
  {
    forall i, j | 0 <= i < |t| && 0 <= j < |t| && t[i].id == t[j].id
      ensures i == j
    {
      CounterUnique(t[i].id, i, j);
    }
  }

  /** In a valid ledger the record found for an identifier is the only one with it. */
  lemma LedgerLookupUnique(t: seq<TransferRecord>, i: nat)
    requires LedgerValid(t) && i < |t|
    ensures FindIndex(t, t[i].id) == Some(i)
  {
    LedgerIdsDistinct(t);
  }

  // ---------------------------------------------------------------- GET /api/transfers

  datatype TransferList = TransferList(transfers: seq<TransferRecord>, count: nat)

  function GetTransfers(s: Store): (r: TransferList)
    ensures r.count == |r.transfers|
    ensures forall x :: x in r.transfers <==> x in s.transfers && x.status == Pending
    ensures r.transfers == PendingTransfers(s.transfers)
  {
    var pending := PendingTransfers(s.transfers);
    TransferList(pending, |pending|)
  }

  // ---------------------------------------------------------------- POST /api/create-transfer

  datatype CreateOutcome = CreateOutcome(store: Store, transfer: TransferRecord, sent: seq<Attempt>)

  /** Appends a new pending request. The room is not looked up in the session registry, and
      the request always succeeds. `clock` is the `%H%M%S` reading used in the identifier and
      `now` the ISO reading stored as the creation time. */
  function CreateTransfer(s: Store, roomName: string, reason: string, clock: string, now: string,
                          failing: set<Handle>): (r: CreateOutcome)
    ensures r.store.transfers == s.transfers + [r.transfer]
    ensures r.transfer.status == Pending && r.transfer.agentName.None?
    ensures r.transfer.roomName == roomName && r.transfer.reason == reason
    ensures HasCounter(r.transfer.id, |s.transfers|)
    ensures PendingTransfers(r.store.transfers) == PendingTransfers(s.transfers) + [r.transfer]
    ensures r.store.agents == s.agents && r.store.sessions == s.sessions
    ensures r.sent == Fanout(s.agents, IncomingCall(r.transfer), failing)
    ensures LedgerValid(s.transfers) ==> LedgerValid(r.store.transfers)
    ensures LedgerValid(s.transfers) ==> FindIndex(r.store.transfers, r.transfer.id) == Some(|s.transfers|)
  {
    var rec := TransferRecord(TransferId(|s.transfers|, clock), roomName, reason, Pending, None, now, None, None);
    var transfers := AddTransfer(s.transfers, rec);
    var out := CreateOutcome(s.(transfers := transfers), rec, Fanout(s.agents, IncomingCall(rec), failing));
    if LedgerValid(s.transfers) then
      assert LedgerValid(transfers) by {
        forall i | 0 <= i < |transfers|
          ensures HasCounter(transfers[i].id, i) && RecordConsistent(transfers[i])
        {
          if i < |s.transfers| {
            assert transfers[i] == s.transfers[i];
          }
        }
      }
      LedgerLookupUnique(transfers, |s.transfers|);
      out
    else
      out
  }

  // ---------------------------------------------------------------- POST /api/accept-transfer

  datatype AcceptResponse =
    | Rejected(error: string)
    | Granted(identity: string, roomName: string, callerInfo: TransferRecord)

  datatype AcceptOutcome = AcceptOutcome(store: Store, response: AcceptResponse, sent: seq<Attempt>)

  /** The ledger names `id` and its first record with that name is still pending. */
  predicate Claimable(t: seq<TransferRecord>, id: string) {
    FindIndex(t, id).Some? && t[FindIndex(t, id).value].status == Pending
  }

  /** Claims a pending request for an operator. Between the lookup and the update the source
      never yields to the event loop, so the claim is one atomic step. */
  function AcceptTransfer(s: Store, req: Models.AcceptTransfer, now: string, failing: set<Handle>): (r: AcceptOutcome)
    ensures FindIndex(s.transfers, req.transferId).None? ==>
              r == AcceptOutcome(s, Rejected(NotFoundError), [])
    ensures FindIndex(s.transfers, req.transferId).Some? && !Claimable(s.transfers, req.transferId) ==>
              r == AcceptOutcome(s, Rejected(AlreadyHandledError), [])
    ensures r.response.Granted? <==> Claimable(s.transfers, req.transferId)
    ensures Claimable(s.transfers, req.transferId) ==>
              var i := FindIndex(s.transfers, req.transferId).value;
              var before := s.transfers[i];
              && |r.store.transfers| == |s.transfers|
              && r.store.transfers[i] == before.(status := Accepted, agentName := Some(req.agentName), acceptedAt := Some(now))
              && (forall j :: 0 <= j < |s.transfers| && j != i ==> r.store.transfers[j] == s.transfers[j])
              && r.response == Granted(IdentityFor(req.agentName), before.roomName, r.store.transfers[i])
              && r.store.agents == s.agents
              && r.sent == Fanout(s.agents, TransferAccepted(req.transferId), failing)
    ensures Claimable(s.transfers, req.transferId) ==>
              var room := s.transfers[FindIndex(s.transfers, req.transferId).value].roomName;
              && (room in s.sessions ==>
                    GetActiveSession(r.store.sessions, room) == Some(s.sessions[room].(shouldDisconnect := true)))
              && (room !in s.sessions ==> r.store.sessions == s.sessions)
              && (forall q :: q != room ==> GetActiveSession(r.store.sessions, q) == GetActiveSession(s.sessions, q))
    ensures LedgerValid(s.transfers) ==> LedgerValid(r.store.transfers)
  {
    match FindIndex(s.transfers, req.transferId)
    case None => AcceptOutcome(s, Rejected(NotFoundError), [])
    case Some(i) =>
      var before := s.transfers[i];
      if before.status != Pending then AcceptOutcome(s, Rejected(AlreadyHandledError), [])
      else
        var after := before.(status := Accepted, agentName := Some(req.agentName), acceptedAt := Some(now));
        var room := before.roomName;
        var sessions :=
          if room in s.sessions
          then SetActiveSession(s.sessions, room, s.sessions[room].(shouldDisconnect := true))
          else s.sessions;
        AcceptOutcome(
          s.(transfers := s.transfers[i := after], sessions := sessions),
          Granted(IdentityFor(req.agentName), room, after),
          Fanout(s.agents, TransferAccepted(req.transferId), failing))
  }

  // ---------------------------------------------------------------- POST /api/end-transfer/{id}

  datatype EndOutcome = EndOutcome(store: Store, success: bool)

  /** Marks the request completed, whatever its status was; an unknown id changes nothing.
      The endpoint reports success either way. */
  function EndTransfer(s: Store, id: string, now: string): (r: EndOutcome)
    ensures r.success
    ensures FindIndex(s.transfers, id).None? ==> r.store == s
    ensures FindIndex(s.transfers, id).Some? ==>
              var i := FindIndex(s.transfers, id).value;
              && |r.store.transfers| == |s.transfers|
              && r.store.transfers[i] == s.transfers[i].(status := Completed, completedAt := Some(now))
              && (forall j :: 0 <= j < |s.transfers| && j != i ==> r.store.transfers[j] == s.transfers[j])
    ensures r.store.agents == s.agents && r.store.sessions == s.sessions
    ensures LedgerValid(s.transfers) ==> LedgerValid(r.store.transfers)
  {
    match FindIndex(s.transfers, id)
    case None => EndOutcome(s, true)
    case Some(i) =>
      var after := s.transfers[i].(status := Completed, completedAt := Some(now));
      EndOutcome(s.(transfers := s.transfers[i := after]), true)
  }

  /** Ending a request twice leaves every status as ending it once did. */
  lemma EndTransferIdempotent(s: Store, id: string, now1: string, now2: string)
    ensures var once := EndTransfer(s, id, now1).store;
            var twice := EndTransfer(once, id, now2).store;
            && |twice.transfers| == |once.transfers|
            && forall j :: 0 <= j < |once.transfers| ==> twice.transfers[j].status == once.transfers[j].status
  {
    var once := EndTransfer(s, id, now1).store;
    if FindIndex(s.transfers, id).Some? {
      assert FindIndex(once.transfers, id) == FindIndex(s.transfers, id);
    }
  }
}
