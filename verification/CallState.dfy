/**
 Call sessions, transcript turns and leads as values, and what each service operation makes of them.

 The clock is a number of seconds. A turn is identified by its position: rows are only ever
 appended, and an operation may change the session a turn belongs to but never its position.
 */
module CallState {
  import opened Prelude
  import T = Telephony

  type Id = string

  const RECONCILIATION_WINDOW_SECONDS := 600
  const STALE_THRESHOLD_SECONDS := 10 * 60

  datatype SessionStatus = Initiated | Completed | Abandoned | Failed

  datatype Session = Session(
    clientId: Id,
    leadId: Option<Id>,
    conversationId: Option<Id>,
    status: SessionStatus,
    outcome: Option<SessionStatus>,
    startedAt: int,
    endedAt: Option<int>,
    durationSeconds: Option<int>,
    billableMinutes: Option<int>,
    closedReason: Option<string>,
    totalUserTurns: nat,
    totalAgentTurns: nat,
    mergedInto: Option<Id>,
    telephony: Option<T.CallStatus>,
    sessionEndReceived: bool)

  datatype Turn = Turn(sessionId: Id, role: string, content: string, at: int)

  datatype Lead = Lead(clientId: Id, status: string, callCount: int, lastCalledAt: Option<int>)

  datatype State = State(now: int, sessions: map<Id, Session>, turns: seq<Turn>, leads: map<Id, Lead>)

  /** One entry of a provider transcript; a missing key is None. */
  datatype Message = Message(role: Option<string>, text: Option<string>)

  // ---------- Transcript turns ----------

  /** Number of turns with the given role that belong to one of the given sessions. */
  function CountIn(turns: seq<Turn>, ids: set<Id>, role: string): nat {
    if turns == [] then 0
    else
      var last := turns[|turns| - 1];
      CountIn(turns[..|turns| - 1], ids, role) + if last.sessionId in ids && last.role == role then 1 else 0
  }

  /** The turns of one session in chronological order, which is the order of recording. */
  function TurnsOf(turns: seq<Turn>, id: Id): seq<Turn> {
    if turns == [] then []
    else
      var last := turns[|turns| - 1];
      TurnsOf(turns[..|turns| - 1], id) + if last.sessionId == id then [last] else []
  }

  function Reparent(turns: seq<Turn>, from: set<Id>, to: Id): (moved: seq<Turn>)
    ensures |moved| == |turns|
  {
    seq(|turns|, i requires 0 <= i < |turns| =>
      if turns[i].sessionId in from then turns[i].(sessionId := to) else turns[i])
  }

  // ---------- Creating and sweeping ----------

  function NewSession(now: int, clientId: Id, leadId: Option<Id>, conversationId: Option<Id>,
                      telephony: Option<T.CallStatus>): Session {
    Session(clientId, leadId, conversationId, Initiated, None, now, None, None, None, None, 0, 0, None, telephony, false)
  }

  /** A new lead counts as called as soon as one of its client's sessions starts. */
  function AdvanceLead(leads: map<Id, Lead>, leadId: Option<Id>, clientId: Id): map<Id, Lead> {
    if Truthy(leadId) && leadId.value in leads
       && leads[leadId.value].clientId == clientId && leads[leadId.value].status == "new"
    then leads[leadId.value := leads[leadId.value].(status := "called")]
    else leads
  }

  function Created(s: State, id: Id, clientId: Id, leadId: Option<Id>, conversationId: Option<Id>,
                   telephony: Option<T.CallStatus>): State {
    if id in s.sessions then s
    else s.(sessions := s.sessions[id := NewSession(s.now, clientId, leadId, conversationId, telephony)],
            leads := AdvanceLead(s.leads, leadId, clientId))
  }

  function TurnAdded(s: State, id: Id, role: string, content: string): State {
    s.(turns := s.turns + [Turn(id, role, content, s.now)])
  }

  predicate IsStale(now: int, cs: Session) {
    cs.status.Initiated? && cs.startedAt < now - STALE_THRESHOLD_SECONDS
  }

  function SweptRow(now: int, cs: Session): Session {
    if IsStale(now, cs)
    then cs.(status := Abandoned, endedAt := Some(now),
             closedReason := if cs.closedReason.None? then Some("timeout") else cs.closedReason)
    else cs
  }

  function Swept(s: State): State {
    s.(sessions := map id | id in s.sessions :: SweptRow(s.now, s.sessions[id]))
  }

  // ---------- Closing ----------

  /** Minutes billed for a duration: seconds over 60, rounded up. */
  function BillableMinutes(seconds: int): int {
    (seconds + 59) / 60
  }

  predicate IsSibling(cs: Session, id: Id, other: Session, otherId: Id) {
    && other.clientId == cs.clientId
    && other.leadId == cs.leadId
    && otherId != id
    && (other.status.Initiated? || other.status.Abandoned?)
    && other.conversationId.None?
    && cs.startedAt - RECONCILIATION_WINDOW_SECONDS <= other.startedAt <= cs.startedAt + RECONCILIATION_WINDOW_SECONDS
    && other.mergedInto.None?
  }

  function Siblings(s: State, id: Id): set<Id>
    requires id in s.sessions
  {
    set o | o in s.sessions && IsSibling(s.sessions[id], id, s.sessions[o], o)
  }

  function Linked(sessions: map<Id, Session>, from: set<Id>, to: Id): map<Id, Session> {
    map o | o in sessions :: if o in from then sessions[o].(mergedInto := Some(to)) else sessions[o]
  }

  function Recounted(sessions: map<Id, Session>, turns: seq<Turn>, id: Id): map<Id, Session>
    requires id in sessions
  {
    sessions[id := sessions[id].(totalUserTurns := CountIn(turns, {id}, "user"),
                                 totalAgentTurns := CountIn(turns, {id}, "agent"))]
  }

  function SiblingsMerged(s: State, id: Id): (m: State)
    requires id in s.sessions
    ensures m.sessions.Keys == s.sessions.Keys
  {
    var siblings := Siblings(s, id);
    if siblings == {} then s
    else
      var turns := Reparent(s.turns, siblings, id);
      s.(turns := turns, sessions := Recounted(Linked(s.sessions, siblings, id), turns, id))
  }

  function LeadBumped(leads: map<Id, Lead>, leadId: Option<Id>, now: int): map<Id, Lead> {
    if Truthy(leadId) && leadId.value in leads
    then leads[leadId.value := leads[leadId.value].(callCount := leads[leadId.value].callCount + 1,
                                                    lastCalledAt := Some(now))]
    else leads
  }

  /** The session and lead fields that closing writes before it looks for siblings. */
  function MarkedCompleted(s: State, id: Id, reason: string, counters: bool): (m: State)
    requires id in s.sessions
    ensures m.sessions.Keys == s.sessions.Keys
  {
    var cs := s.sessions[id];
    var delta := s.now - cs.startedAt;
    s.(sessions := s.sessions[id := cs.(
         status := Completed,
         endedAt := Some(s.now),
         closedReason := Some(reason),
         durationSeconds := Some(delta),
         billableMinutes := Some(BillableMinutes(delta)),
         totalUserTurns := CountIn(s.turns, {id}, "user"),
         totalAgentTurns := CountIn(s.turns, {id}, "agent"),
         telephony := T.OnSessionEnd(cs.telephony),
         sessionEndReceived := cs.sessionEndReceived || cs.telephony.Some?)],
       leads := if counters then LeadBumped(s.leads, cs.leadId, s.now) else s.leads)
  }

  function VoicemailChecked(s: State, id: Id): State
    requires id in s.sessions
  {
    var cs := s.sessions[id];
    if cs.telephony == Some(T.Completed) && cs.durationSeconds.Some?
    then s.(sessions := s.sessions[id := cs.(telephony :=
              T.ApplyVoicemailHeuristic(cs.telephony, cs.durationSeconds.value, cs.totalUserTurns))])
    else s
  }

  /** First close of a session that is not completed yet. */
  function FirstClosed(s: State, id: Id, reason: string, counters: bool): State
    requires id in s.sessions
  {
    VoicemailChecked(SiblingsMerged(MarkedCompleted(s, id, reason, counters), id), id)
  }

  /** A session that can be adopted by an end event for an unknown conversation. */
  predicate IsOrphan(s: State, clientId: Id, leadId: Id, id: Id) {
    && id in s.sessions
    && var cs := s.sessions[id];
    && cs.clientId == clientId
    && cs.leadId == Some(leadId)
    && cs.status.Initiated?
    && cs.conversationId.None?
    && cs.startedAt >= s.now - RECONCILIATION_WINDOW_SECONDS
  }

  /** Order of preference among orphans: recorded turn totals first, then the start time. */
  predicate NoBetter(a: Session, b: Session) {
    var x, y := a.totalUserTurns + a.totalAgentTurns, b.totalUserTurns + b.totalAgentTurns;
    x < y || (x == y && a.startedAt <= b.startedAt)
  }

  predicate IsBestOrphan(s: State, clientId: Id, leadId: Id, id: Id) {
    && IsOrphan(s, clientId, leadId, id)
    && forall o | o in s.sessions :: IsOrphan(s, clientId, leadId, o) ==> NoBetter(s.sessions[o], s.sessions[id])
  }

  function Adopted(s: State, id: Id, conversationId: Id): State
    requires id in s.sessions
  {
    s.(sessions := s.sessions[id := s.sessions[id].(conversationId := Some(conversationId))])
  }

  /** Closing an adopted orphan: no voicemail rule on this path. */
  function Reconciled(s: State, id: Id, conversationId: Id, reason: string, counters: bool): State
    requires id in s.sessions
  {
    SiblingsMerged(MarkedCompleted(Adopted(s, id, conversationId), id, reason, counters), id)
  }

  // ---------- Post-call delivery and linkage ----------

  /** The entries of a transcript that are stored: those with a text. */
  function Stored(id: Id, messages: seq<Message>, now: int): seq<Turn> {
    if messages == [] then []
    else
      var m := messages[|messages| - 1];
      Stored(id, messages[..|messages| - 1], now) +
      if Truthy(m.text) then [Turn(id, if m.role.Some? then m.role.value else "unknown", m.text.value, now)] else []
  }

  function Delivered(s: State, id: Id, transcript: seq<Message>): State
    requires id in s.sessions
  {
    match s.sessions[id].status
    case Initiated => FirstClosed(s, id, "network_drop", true)
    case Completed =>
      var have := |TurnsOf(s.turns, id)|;
      if have < |transcript| then s.(turns := s.turns + Stored(id, transcript[have..], s.now)) else s
    case Abandoned => s
    case Failed => s
  }

  /** A provider event is tied to an outbound session that the lookup has found. */
  function LinkedToConversation(s: State, id: Id, conversationId: Id): State
    requires id in s.sessions
  {
    var cs := s.sessions[id];
    if cs.telephony == Some(T.Completed) then s
    else s.(sessions := s.sessions[id := cs.(
              conversationId := if cs.conversationId.None? then Some(conversationId) else cs.conversationId,
              telephony := Some(T.Completed),
              sessionEndReceived := true)])
  }

  /** Direct finalisation: whatever the status was, it becomes the outcome. */
  function Ended(s: State, id: Id, outcome: SessionStatus, duration: int): State
    requires id in s.sessions
  {
    s.(sessions := s.sessions[id := s.sessions[id].(
         endedAt := Some(s.now), durationSeconds := Some(duration), outcome := Some(outcome), status := outcome,
         billableMinutes := Some(BillableMinutes(duration)))])
  }

  // ---------- The step machine ----------

  datatype Op =
    | AddLead(id: Id, lead: Lead)
    | Create(id: Id, clientId: Id, leadId: Option<Id>, conversationId: Option<Id>, telephony: Option<T.CallStatus>)
    | AddTurn(id: Id, role: string, content: string)
    | Sweep
    // `orphan` is the row the reconciliation query returned, if it ran and found one
    | Close(id: Id, reason: string, counters: bool, hintClient: Option<Id>, hintLead: Option<Id>, orphan: Option<Id>)
    | Deliver(id: Id, transcript: seq<Message>)
    | Link(id: Id, conversation: Id)
    | End(id: Id, outcome: SessionStatus, duration: int)
    | SetTelephony(id: Id, status: T.CallStatus)
    | SetTotals(id: Id, userTurns: nat, agentTurns: nat)
    | Tick(seconds: nat)

  /** Whether a close of an unknown session falls back to reconciliation. */
  predicate Reconciles(s: State, op: Op)
    requires op.Close?
  {
    op.id !in s.sessions && Truthy(op.hintClient) && Truthy(op.hintLead)
  }

  /** The recorded orphan is what the reconciliation query may return in this state. */
  predicate Enabled(s: State, op: Op) {
    op.Close? && Reconciles(s, op) ==>
      if op.orphan.Some? then IsBestOrphan(s, op.hintClient.value, op.hintLead.value, op.orphan.value)
      else forall o | o in s.sessions :: !IsOrphan(s, op.hintClient.value, op.hintLead.value, o)
  }

  function Closed(s: State, op: Op): State
    requires op.Close? && Enabled(s, op)
  {
    if Reconciles(s, op) then
      if op.orphan.Some? then Reconciled(s, op.orphan.value, op.id, op.reason, op.counters) else s
    else if op.id in s.sessions && !s.sessions[op.id].status.Completed? then
      FirstClosed(s, op.id, op.reason, op.counters)
    else s
  }

  /** The state after one operation; operations on unknown sessions change nothing. */
  function Apply(s: State, op: Op): State
    requires Enabled(s, op)
  {
    match op
    case AddLead(id, lead) => if id in s.leads then s else s.(leads := s.leads[id := lead])
    case Create(id, clientId, leadId, conversationId, telephony) =>
      Created(s, id, clientId, leadId, conversationId, telephony)
    case AddTurn(id, role, content) => TurnAdded(s, id, role, content)
    case Sweep => Swept(s)
    case Close(_, _, _, _, _, _) => Closed(s, op)
    case Deliver(id, transcript) => if id in s.sessions then Delivered(s, id, transcript) else s
    case Link(id, conversation) =>
      if id in s.sessions && s.sessions[id].telephony.Some? then LinkedToConversation(s, id, conversation) else s
    case End(id, outcome, duration) => if id in s.sessions then Ended(s, id, outcome, duration) else s
    case SetTelephony(id, status) =>
      if id in s.sessions then s.(sessions := s.sessions[id := s.sessions[id].(telephony := Some(status))]) else s
    case SetTotals(id, userTurns, agentTurns) =>
      if id in s.sessions
      then s.(sessions := s.sessions[id := s.sessions[id].(totalUserTurns := userTurns, totalAgentTurns := agentTurns)])
      else s
    case Tick(seconds) => s.(now := s.now + seconds)
  }

  predicate ValidRun(s: State, ops: seq<Op>)
    decreases |ops|
  {
    ops == [] || (Enabled(s, ops[0]) && ValidRun(Apply(s, ops[0]), ops[1..]))
  }

  function After(s: State, ops: seq<Op>): State
    requires ValidRun(s, ops)
    decreases |ops|
  {
    if ops == [] then s else After(Apply(s, ops[0]), ops[1..])
  }
}
