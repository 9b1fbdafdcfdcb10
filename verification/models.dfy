/** The per-call state record and the shape of an operator's accept request (utils/models.py). */
module Models {

  /** What the automated agent tracks about one call. The source keeps this as a mutable
      dataclass; here it is a value that the state-transition functions return updated. */
  datatype CallState = CallState(
    transferInitiated: bool,
    negativeSentimentCount: int,
    conversationLog: seq<string>,
    shouldDisconnect: bool)

  /** The state of a call that has just started: no transfer asked for, no negative
      sentiment seen, an empty log of its own, and no request to leave the room. */
  function NewCallState(): (st: CallState)
    ensures !st.transferInitiated
    ensures st.negativeSentimentCount == 0
    ensures st.conversationLog == []
    ensures !st.shouldDisconnect
  {
    CallState(false, 0, [], false)
  }

  /** The body of an operator's accept request. */
  datatype AcceptTransfer = AcceptTransfer(transferId: string, agentName: string)
}
