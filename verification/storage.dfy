/** The three in-memory stores (utils/storage.py): the transfer ledger, the directory of
    connected operator sockets, and the registry of active call sessions by room name. */
module Storage {
  import opened Wrappers
  import opened Models

  datatype Status = Pending | Accepted | Completed

  /** One hand-off request. Timestamps are opaque strings supplied by the caller. */
  datatype TransferRecord = TransferRecord(
    id: string,
    roomName: string,
    reason: string,
    status: Status,
    agentName: Option<string>,
    createdAt: string,
    acceptedAt: Option<string>,
    completedAt: Option<string>)

  /** An operator's notification socket; only its identity matters. */
  datatype Handle = Handle(socket: nat)

  datatype Store = Store(
    transfers: seq<TransferRecord>,
    agents: seq<Handle>,
    sessions: map<string, CallState>)

  const EmptyStore := Store([], [], map[])

  // ---------------------------------------------------------------- transfer ledger

  /** The pending requests, in ledger order. */
  function PendingTransfers(t: seq<TransferRecord>): (r: seq<TransferRecord>)
    ensures |r| <= |t|
    ensures forall x :: x in r <==> x in t && x.status == Pending
  {
    if t == [] then []
    else (if t[0].status == Pending then [t[0]] else []) + PendingTransfers(t[1..])
  }

  /** Filtering the ledger commutes with concatenation, so the pending list keeps ledger order. */
  lemma {:induction false} PendingTransfersAppend(a: seq<TransferRecord>, b: seq<TransferRecord>)
    ensures PendingTransfers(a + b) == PendingTransfers(a) + PendingTransfers(b)
  {
    if a == [] {
      assert a + b == b;
    } else {
      assert (a + b)[0] == a[0];
      assert (a + b)[1..] == a[1..] + b;
      PendingTransfersAppend(a[1..], b);
    }
  }

  /** Position of the first record named `id`. */
  function FindIndex(t: seq<TransferRecord>, id: string): (r: Option<nat>)
    ensures r.Some? ==> r.value < |t| && t[r.value].id == id
    ensures r.Some? ==> forall j :: 0 <= j < r.value ==> t[j].id != id
    ensures r.None? ==> forall j :: 0 <= j < |t| ==> t[j].id != id
  {
    if t == [] then None
    else if t[0].id == id then Some(0)
    else match FindIndex(t[1..], id)
      case None => None
      case Some(k) => Some(k + 1)
  }

  /** The first record named `id`, or None when no record has that name. */
  function TransferById(t: seq<TransferRecord>, id: string): (r: Option<TransferRecord>)
    ensures r.None? <==> forall x :: x in t ==> x.id != id
    ensures forall i :: 0 <= i < |t| && t[i].id == id && (forall j :: 0 <= j < i ==> t[j].id != id)
              ==> r == Some(t[i])
  {
    match FindIndex(t, id)
    case None => None
    case Some(i) => Some(t[i])
  }

  /** The first position of a name does not move when the records up to it keep their names. */
  lemma {:induction false} FindIndexStable(t: seq<TransferRecord>, u: seq<TransferRecord>, id: string)
    requires FindIndex(t, id).Some?
    requires FindIndex(t, id).value < |u|
    requires forall j :: 0 <= j <= FindIndex(t, id).value ==> u[j].id == t[j].id
    ensures FindIndex(u, id) == FindIndex(t, id)
    decreases |t|
  {
    var i := FindIndex(t, id).value;
    assert u[0].id == t[0].id;
    if i > 0 {
      assert t[0].id != id;
      var k := FindIndex(t[1..], id);
      assert k == Some(i - 1);
      forall j | 0 <= j <= i - 1
        ensures u[1..][j].id == t[1..][j].id
      {
        assert u[j + 1].id == t[j + 1].id;
      }
      FindIndexStable(t[1..], u[1..], id);
    }
  }

  function AddTransfer(t: seq<TransferRecord>, rec: TransferRecord): (r: seq<TransferRecord>)
    ensures |r| == |t| + 1 && r[..|t|] == t && r[|t|] == rec
    ensures PendingTransfers(r) == PendingTransfers(t) + (if rec.status == Pending then [rec] else [])
    ensures forall id :: FindIndex(t, id).Some? ==> FindIndex(r, id) == FindIndex(t, id)
  {
    PendingTransfersAppend(t, [rec]);
    assert PendingTransfers([rec]) == (if rec.status == Pending then [rec] else []) + PendingTransfers([]);
    t + [rec]
  }

  // ---------------------------------------------------------------- operator directory

  /** The number of open connections; a socket listed twice counts twice. */
  function AgentCount(a: seq<Handle>): (n: nat)
    ensures n == |multiset(a)|
    ensures n == 0 <==> a == []
  {
    |a|
  }

  function AddAgent(a: seq<Handle>, h: Handle): (r: seq<Handle>)
    ensures AgentCount(r) == AgentCount(a) + 1
    ensures r[..|a|] == a && r[|a|] == h
    ensures multiset(r) == multiset(a) + multiset{h}
  {
    a + [h]
  }

  /** Position of the first occurrence of `h`. */
  function FirstIndex(a: seq<Handle>, h: Handle): (i: nat)
    requires h in a
    ensures i < |a| && a[i] == h
    ensures forall j :: 0 <= j < i ==> a[j] != h
  {
    if a[0] == h then 0 else 1 + FirstIndex(a[1..], h)
  }

  /** Drops the first occurrence of `h`, if there is one. */
  function RemoveAgent(a: seq<Handle>, h: Handle): (r: seq<Handle>)
    ensures h !in a ==> r == a
    ensures h in a ==> AgentCount(r) == AgentCount(a) - 1
    ensures multiset(r) == multiset(a) - multiset{h}
  {
    if h !in a then a
    else
      var i := FirstIndex(a, h);
      assert a == a[..i] + [a[i]] + a[i + 1..];
      a[..i] + a[i + 1..]
  }

  predicate NoDuplicates(a: seq<Handle>) {
    forall i, j :: 0 <= i < j < |a| ==> a[i] != a[j]
  }

  /** While every socket is listed once, removing one twice is the same as removing it once.
      Each websocket connection is a new object listed once, which gives `NoDuplicates` in the
      source; the `OperatorConnected` event of the coordinator does not enforce it. */
  lemma RemoveAgentIdempotent(a: seq<Handle>, h: Handle)
    requires NoDuplicates(a)
    ensures RemoveAgent(RemoveAgent(a, h), h) == RemoveAgent(a, h)
  {
    if h in a {
      var i := FirstIndex(a, h);
      var r := RemoveAgent(a, h);
      assert r == a[..i] + a[i + 1..];
      forall k | 0 <= k < |r|
        ensures r[k] != h
      {
        if k < i {
          assert r[k] == a[k];
        } else {
          assert r[k] == a[k + 1];
        }
      }
    }
  }

  // ---------------------------------------------------------------- session registry

  /** The state registered for `room`, or None when the room has no session. */
  function GetActiveSession(m: map<string, CallState>, room: string): (r: Option<CallState>)
    ensures r.Some? <==> room in m
    ensures r.Some? ==> r.value == m[room]
  {
    if room in m then Some(m[room]) else None
  }

  /** Registers `st` for `room`, replacing whatever was registered there before. */
  function SetActiveSession(m: map<string, CallState>, room: string, st: CallState): (r: map<string, CallState>)
    ensures GetActiveSession(r, room) == Some(st)
    ensures forall q :: q != room ==> GetActiveSession(r, q) == GetActiveSession(m, q)
    ensures r.Keys == m.Keys + {room}
  {
    m[room := st]
  }

  function RemoveActiveSession(m: map<string, CallState>, room: string): (r: map<string, CallState>)
    ensures GetActiveSession(r, room) == None
    ensures forall q :: q != room ==> GetActiveSession(r, q) == GetActiveSession(m, q)
    ensures r.Keys == m.Keys - {room}
  {
    if room in m then m - {room} else m
  }

  /** A second registration for a room silently replaces the first. */
  lemma SetActiveSessionOverwrites(m: map<string, CallState>, room: string, a: CallState, b: CallState)
    ensures SetActiveSession(SetActiveSession(m, room, a), room, b) == SetActiveSession(m, room, b)
  {
  }

  lemma RemoveActiveSessionIdempotent(m: map<string, CallState>, room: string)
    ensures RemoveActiveSession(RemoveActiveSession(m, room), room) == RemoveActiveSession(m, room)
  {
  }
}
