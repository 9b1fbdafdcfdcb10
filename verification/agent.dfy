/** The automated agent's per-call flag machine (utils/agent.py): the escalation tool, the
    end-of-call tool, the participant-joined handler and the keep-alive loop's exit rule.
    The speech session and the room connection are external and not modelled. */
module Agent {
  import opened Models
  import opened Storage

  const InProgressReply := "Transfer already in progress."
  const HoldReply := "I'm transferring you to our support specialist now. Please hold for just a moment..."
  const TransferFailedReply := "I apologize, I'm having trouble with the transfer. Let me try to help you directly instead."
  const ApologeticGoodbye := "Thank you for your patience. We sincerely apologize for any inconvenience. Your concern will be resolved soon. Goodbye!"
  const NeutralGoodbye := "Thank you for contacting us. Have a great day!"
  const OperatorPrefix := "agent_"

  /** The state after the tool ran, the text it hands back to the voice model, and whether it
      sent the create-transfer request to the backend. */
  datatype EscalateOutcome = EscalateOutcome(state: CallState, reply: string, requested: bool)

  /** The escalation tool. `succeeded` is the outcome of the create-transfer request: false when
      it raised. The flag is set before the request and put back to false if it fails. */
  function EscalateToHuman(st: CallState, succeeded: bool): (r: EscalateOutcome)
    ensures st.transferInitiated ==> r == EscalateOutcome(st, InProgressReply, false)
    ensures !st.transferInitiated ==> r.requested
    ensures !st.transferInitiated && succeeded ==>
              r.state == st.(transferInitiated := true) && r.reply == HoldReply
    ensures !st.transferInitiated && !succeeded ==>
              r.state == st && r.reply == TransferFailedReply
    ensures r.state.transferInitiated <==> st.transferInitiated || succeeded
    ensures r.state.shouldDisconnect == st.shouldDisconnect
  {
    if st.transferInitiated then EscalateOutcome(st, InProgressReply, false)
    else
      var flagged := st.(transferInitiated := true);
      if succeeded then EscalateOutcome(flagged, HoldReply, true)
      else EscalateOutcome(flagged.(transferInitiated := false), TransferFailedReply, true)
  }

  /** Once an escalation has gone through, further escalations of the same call are refused
      without contacting the backend; after a failed one the call may try again. */
  lemma EscalationGuard(st: CallState, first: bool, second: bool)
    requires !st.transferInitiated
    ensures var next := EscalateToHuman(EscalateToHuman(st, first).state, second);
            && (first ==> next.reply == InProgressReply && !next.requested)
            && (!first ==> next.requested)
  {
  }

  /** The end-of-call tool: its goodbye depends only on whether negative sentiment was seen. */
  function EndCall(st: CallState): (goodbye: string)
    ensures goodbye == ApologeticGoodbye <==> st.negativeSentimentCount > 0
    ensures goodbye == NeutralGoodbye <==> st.negativeSentimentCount <= 0
  {
    if st.negativeSentimentCount > 0 then ApologeticGoodbye else NeutralGoodbye
  }

  /** The joining participant is a human operator: its identity begins with the operator prefix. */
  predicate IsHumanOperator(identity: string) {
    |OperatorPrefix| <= |identity| && identity[..|OperatorPrefix|] == OperatorPrefix
  }

  /** The participant-joined handler: a human operator joining asks the agent to leave. */
  function OnParticipantConnected(st: CallState, identity: string): (r: CallState)
    ensures IsHumanOperator(identity) ==> r == st.(shouldDisconnect := true)
    ensures !IsHumanOperator(identity) ==> r == st
    ensures st.shouldDisconnect ==> r.shouldDisconnect
    ensures r.transferInitiated == st.transferInitiated
  {
    if IsHumanOperator(identity) then st.(shouldDisconnect := true) else st
  }

  /** One check of the keep-alive loop for the call in `room`: once the call's flag is set the
      loop ends and its cleanup unregisters the room; otherwise nothing changes. */
  function PollKeepAlive(sessions: map<string, CallState>, room: string): (r: map<string, CallState>)
    ensures room in sessions && sessions[room].shouldDisconnect ==>
              GetActiveSession(r, room).None? && r.Keys == sessions.Keys - {room}
    ensures !(room in sessions && sessions[room].shouldDisconnect) ==> r == sessions
    ensures forall q :: q != room ==> GetActiveSession(r, q) == GetActiveSession(sessions, q)
  {
    if room in sessions && sessions[room].shouldDisconnect
    then RemoveActiveSession(sessions, room)
    else sessions
  }

  /** The loop left some other way (the job was cancelled or raised): the `finally` cleanup
      unregisters the room all the same. */
  function EndJob(sessions: map<string, CallState>, room: string): (r: map<string, CallState>)
    ensures GetActiveSession(r, room).None?
    ensures forall q :: q != room ==> GetActiveSession(r, q) == GetActiveSession(sessions, q)
  {
    RemoveActiveSession(sessions, room)
  }

  /** What the defaults of a new call mean for its behaviour: the goodbye is the neutral one,
      an escalation contacts the backend, and the keep-alive loop keeps running. */
  lemma FreshCallBehaviour(room: string)
    ensures EndCall(NewCallState()) == NeutralGoodbye
    ensures EscalateToHuman(NewCallState(), true).reply == HoldReply
    ensures EscalateToHuman(NewCallState(), false).requested
    ensures var m := SetActiveSession(map[], room, NewCallState());
            PollKeepAlive(m, room) == m
  {
  }
}
