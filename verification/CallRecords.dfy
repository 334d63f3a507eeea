/**
 What the operations on calls do to records, field by field and with the actual numbers: which
 sessions a close absorbs, which orphan is adopted, which sessions a sweep abandons, and what is
 written to a closed session and its lead.
 */
module CallRecords {
  import opened Prelude
  import opened CallState
  import opened CallRuns
  import T = Telephony

  // ---------- Which sessions a close absorbs ----------

  /** The operation completes the session `c`. */
  predicate Completes(s: State, op: Op, c: Id) {
    && Enabled(s, op) && !op.End?
    && c in s.sessions && !s.sessions[c].status.Completed?
    && c in Apply(s, op).sessions && Apply(s, op).sessions[c].status.Completed?
  }

  lemma CompletesIsClose(s: State, op: Op, c: Id)
    requires Completes(s, op, c)
    ensures CloseEffect(s, Apply(s, op), c)
  {
    var closed := StepShape(s, op);
    assert closed == Some(c);
  }

  /**
   On every path that completes a session, exactly the open or abandoned sessions of the same client and
   lead without a conversation and without a link that started within ten minutes of it, before or after,
   are linked to it; nothing else of any other session changes.
   */
  lemma CloseAbsorbsExactly(s: State, op: Op, c: Id, o: Id)
    requires Completes(s, op, c) && o in s.sessions && o != c
    ensures o in Apply(s, op).sessions
    ensures var closing, other := s.sessions[c], s.sessions[o];
            Apply(s, op).sessions[o] ==
              if other.clientId == closing.clientId && other.leadId == closing.leadId
                 && (other.status == Initiated || other.status == Abandoned)
                 && other.conversationId == None && other.mergedInto == None
                 && closing.startedAt - 600 <= other.startedAt && other.startedAt <= closing.startedAt + 600
              then other.(mergedInto := Some(c)) else other
  {
    CompletesIsClose(s, op, c);
  }

  /** So no session that could have been absorbed is left. */
  lemma NoneLeftToAbsorb(s: State, op: Op, c: Id, o: Id)
    requires Completes(s, op, c) && o in Apply(s, op).sessions && o != c
    ensures var closed, other := Apply(s, op).sessions[c], Apply(s, op).sessions[o];
            !(other.clientId == closed.clientId && other.leadId == closed.leadId
              && (other.status == Initiated || other.status == Abandoned)
              && other.conversationId == None && other.mergedInto == None
              && closed.startedAt - 600 <= other.startedAt <= closed.startedAt + 600)
  {
    CompletesIsClose(s, op, c);
    CloseAbsorbsExactly(s, op, c, o);
  }

  /** Every operation that links a session completes the target, and the session was free to be absorbed. */
  lemma OnlyFreeSessionsAreLinked(s: State, op: Op, o: Id)
    requires Enabled(s, op) && o in Apply(s, op).sessions && Apply(s, op).sessions[o].mergedInto.Some?
    requires o in s.sessions ==> s.sessions[o].mergedInto != Apply(s, op).sessions[o].mergedInto
    ensures o in s.sessions && Completes(s, op, Apply(s, op).sessions[o].mergedInto.value)
    ensures (s.sessions[o].status == Initiated || s.sessions[o].status == Abandoned)
            && s.sessions[o].conversationId == None && s.sessions[o].mergedInto == None
  {
    if !op.End? {
      var closed := StepShape(s, op);
      assert closed.Some?;
    }
  }

  /** Linked sessions started within ten minutes of each other. */
  predicate LinksAreNear(sessions: map<Id, Session>) {
    forall o | o in sessions && sessions[o].mergedInto.Some? ::
      var target := sessions[o].mergedInto.value;
      target in sessions && -600 <= sessions[o].startedAt - sessions[target].startedAt <= 600
  }

  lemma StartsStay(s: State, op: Op, o: Id)
    requires Enabled(s, op) && o in s.sessions
    ensures o in Apply(s, op).sessions && Apply(s, op).sessions[o].startedAt == s.sessions[o].startedAt
  {
    if !op.End? {
      var closed := StepShape(s, op);
    }
  }

  lemma StepKeepsLinksNear(s: State, op: Op)
    requires LinksAreNear(s.sessions) && Enabled(s, op)
    ensures LinksAreNear(Apply(s, op).sessions)
  {
    var t := Apply(s, op);
    forall o | o in t.sessions && t.sessions[o].mergedInto.Some?
      ensures var target := t.sessions[o].mergedInto.value;
              target in t.sessions && -600 <= t.sessions[o].startedAt - t.sessions[target].startedAt <= 600
    {
      var target := t.sessions[o].mergedInto.value;
      if o in s.sessions && s.sessions[o].mergedInto == t.sessions[o].mergedInto {
        StartsStay(s, op, o);
        StartsStay(s, op, target);
      } else {
        OnlyFreeSessionsAreLinked(s, op, o);
        StartsStay(s, op, o);
        StartsStay(s, op, target);
        if o == target {
          CompletesIsClose(s, op, o);
        } else {
          CloseAbsorbsExactly(s, op, target, o);
        }
      }
    }
  }

  /** Over every run, direct finalisation included, links join sessions that started within ten minutes. */
  lemma {:induction false} RunKeepsLinksNear(s: State, ops: seq<Op>)
    requires LinksAreNear(s.sessions) && ValidRun(s, ops)
    ensures LinksAreNear(After(s, ops).sessions)
    decreases |ops|
  {
    if ops != [] {
      StepKeepsLinksNear(s, ops[0]);
      RunKeepsLinksNear(Apply(s, ops[0]), ops[1..]);
    }
  }

  /** The turns of absorbed sessions move to the one that absorbed them, and no other turn moves. */
  lemma CloseMovesTurnsExactly(s: State, op: Op, c: Id, i: nat)
    requires Completes(s, op, c) && i < |s.turns|
    ensures |Apply(s, op).turns| == |s.turns|
    ensures var from := s.turns[i].sessionId;
            Apply(s, op).turns[i] ==
              if from in s.sessions && from != c && s.sessions[from].mergedInto != Apply(s, op).sessions[from].mergedInto
              then s.turns[i].(sessionId := c) else s.turns[i]
  {
    CompletesIsClose(s, op, c);
  }

  // ---------- Which orphan is adopted ----------

  /**
   A close of an unknown session with both hints adopts an open session of the lead without a conversation,
   started at most ten minutes ago, that has the most recorded turns and, of those, the latest start.
   */
  lemma AdoptedIsMostActive(s: State, op: Op, o: Id)
    requires Enabled(s, op) && op.Close? && op.id !in s.sessions && op.orphan.Some?
    requires op.hintClient.Some? && op.hintClient.value != "" && op.hintLead.Some? && op.hintLead.value != ""
    ensures op.orphan.value in s.sessions
    ensures var found := s.sessions[op.orphan.value];
            && found.clientId == op.hintClient.value && found.leadId == op.hintLead
            && found.status == Initiated && found.conversationId == None && s.now - 600 <= found.startedAt
            && (o in s.sessions
                && s.sessions[o].clientId == op.hintClient.value && s.sessions[o].leadId == op.hintLead
                && s.sessions[o].status == Initiated && s.sessions[o].conversationId == None
                && s.now - 600 <= s.sessions[o].startedAt ==>
                  var mine := found.totalUserTurns + found.totalAgentTurns;
                  var others := s.sessions[o].totalUserTurns + s.sessions[o].totalAgentTurns;
                  others < mine || (others == mine && s.sessions[o].startedAt <= found.startedAt))
  {
    assert IsOrphan(s, op.hintClient.value, op.hintLead.value, op.orphan.value);
    if o in s.sessions && IsOrphan(s, op.hintClient.value, op.hintLead.value, o) {
      assert NoBetter(s.sessions[o], s.sessions[op.orphan.value]);
    }
  }

  /** Nothing is adopted only if there is no such session, and then nothing changes. */
  lemma NothingToAdopt(s: State, op: Op, o: Id)
    requires Enabled(s, op) && op.Close? && op.id !in s.sessions && op.orphan.None? && o in s.sessions
    requires op.hintClient.Some? && op.hintClient.value != "" && op.hintLead.Some? && op.hintLead.value != ""
    ensures !(s.sessions[o].clientId == op.hintClient.value && s.sessions[o].leadId == op.hintLead
              && s.sessions[o].status == Initiated && s.sessions[o].conversationId == None
              && s.now - 600 <= s.sessions[o].startedAt)
    ensures Apply(s, op) == s
  {
    assert !IsOrphan(s, op.hintClient.value, op.hintLead.value, o);
  }

  // ---------- What is written to a closed session and to leads ----------

  /** The rest of a closed record: what no effect on siblings, turns or leads depends on. */
  ghost predicate Finished(before: Session, after: Session, reason: string, conversation: Option<Id>) {
    && after.closedReason == Some(reason)
    && after.conversationId == conversation
    && after.outcome == before.outcome
    && (after.sessionEndReceived <==> before.sessionEndReceived || before.telephony.Some?)
    && (after.telephony.Some? <==> before.telephony.Some?)
  }

  lemma FirstCloseFinishes(s: State, id: Id, reason: string, counters: bool)
    requires id in s.sessions
    ensures id in FirstClosed(s, id, reason, counters).sessions
    ensures Finished(s.sessions[id], FirstClosed(s, id, reason, counters).sessions[id], reason, s.sessions[id].conversationId)
  {
    MergeRecounts(s, MarkedCompleted(s, id, reason, counters), id);
  }

  lemma ReconcileFinishes(s: State, id: Id, conversation: Id, reason: string, counters: bool)
    requires id in s.sessions
    ensures id in Reconciled(s, id, conversation, reason, counters).sessions
    ensures Finished(s.sessions[id], Reconciled(s, id, conversation, reason, counters).sessions[id], reason, Some(conversation))
  {
    MergeRecounts(s, MarkedCompleted(Adopted(s, id, conversation), id, reason, counters), id);
  }

  lemma OnlyOneCompletes(s: State, t: State, id: Id, c: Id)
    requires id in s.sessions && CloseEffect(s, t, id) && c in s.sessions
    requires !s.sessions[c].status.Completed? && t.sessions[c].status.Completed?
    ensures c == id
  {}

  lemma DirectClose(s: State, op: Op, c: Id)
    requires Completes(s, op, c) && op.Close? && op.id in s.sessions
    ensures c == op.id && Apply(s, op) == FirstClosed(s, c, op.reason, op.counters)
  {
    if !s.sessions[op.id].status.Completed? {
      FirstCloseEffect(s, op.id, op.reason, op.counters);
      OnlyOneCompletes(s, Apply(s, op), op.id, c);
    }
  }

  lemma AdoptingClose(s: State, op: Op, c: Id)
    requires Completes(s, op, c) && op.Close? && op.id !in s.sessions
    ensures op.orphan == Some(c) && Apply(s, op) == Reconciled(s, c, op.id, op.reason, op.counters)
  {
    if Reconciles(s, op) && op.orphan.Some? {
      ReconcileEffect(s, op.orphan.value, op.id, op.reason, op.counters);
      OnlyOneCompletes(s, Apply(s, op), op.orphan.value, c);
    }
  }

  lemma DeliveryClose(s: State, op: Op, c: Id)
    requires Completes(s, op, c) && op.Deliver?
    ensures c == op.id && Apply(s, op) == FirstClosed(s, c, "network_drop", true)
  {
    if op.id in s.sessions && s.sessions[op.id].status.Initiated? {
      FirstCloseEffect(s, op.id, "network_drop", true);
      OnlyOneCompletes(s, Apply(s, op), op.id, c);
    }
  }

  lemma CompletesIsCloseOrDelivery(s: State, op: Op, c: Id)
    requires Completes(s, op, c)
    ensures op.Close? || op.Deliver?
  {}

  /**
   A completed session ends now, is billed the least number of minutes that covers its whole duration,
   counts exactly the turns that are in it, and keeps what it was created with.
   */
  lemma ClosedRecord(s: State, op: Op, c: Id)
    requires Completes(s, op, c)
    ensures op.Close? || op.Deliver?
    ensures var before, after, t := s.sessions[c], Apply(s, op).sessions[c], Apply(s, op);
            && after.clientId == before.clientId && after.leadId == before.leadId && after.startedAt == before.startedAt
            && after.mergedInto == before.mergedInto && after.outcome == before.outcome
            && after.endedAt == Some(s.now)
            && after.durationSeconds == Some(s.now - before.startedAt)
            && after.billableMinutes.Some?
            && 60 * (after.billableMinutes.value - 1) < s.now - before.startedAt <= 60 * after.billableMinutes.value
            && after.closedReason == Some(if op.Close? then op.reason else "network_drop")
            && after.conversationId == (if op.Close? && op.id !in s.sessions then Some(op.id) else before.conversationId)
            && (after.sessionEndReceived <==> before.sessionEndReceived || before.telephony.Some?)
            && after.totalUserTurns == |set i | 0 <= i < |t.turns| && t.turns[i].sessionId == c && t.turns[i].role == "user"|
            && after.totalAgentTurns == |set i | 0 <= i < |t.turns| && t.turns[i].sessionId == c && t.turns[i].role == "agent"|
  {
    CompletesIsClose(s, op, c);
    CompletesIsCloseOrDelivery(s, op, c);
    var t := Apply(s, op);
    CountOfSession(t.turns, c, "user");
    CountOfSession(t.turns, c, "agent");
    if op.Deliver? {
      DeliveryClose(s, op, c);
      FirstCloseFinishes(s, c, "network_drop", true);
    } else if op.id in s.sessions {
      DirectClose(s, op, c);
      FirstCloseFinishes(s, c, op.reason, op.counters);
    } else {
      AdoptingClose(s, op, c);
      ReconcileFinishes(s, c, op.id, op.reason, op.counters);
    }
  }

  /** Closing touches one lead at most: that of the session, when asked to count, by one call at this time. */
  lemma ClosedLead(s: State, op: Op, c: Id, lead: Id)
    requires Completes(s, op, c) && lead in s.leads
    ensures op.Close? || op.Deliver?
    ensures Apply(s, op).leads.Keys == s.leads.Keys
    ensures Apply(s, op).leads[lead] ==
              if (op.Deliver? || op.counters) && s.sessions[c].leadId == Some(lead) && lead != ""
              then s.leads[lead].(callCount := s.leads[lead].callCount + 1, lastCalledAt := Some(s.now))
              else s.leads[lead]
  {
    CompletesIsCloseOrDelivery(s, op, c);
    if op.Deliver? {
      DeliveryClose(s, op, c);
      FirstCloseBumps(s, c, "network_drop", true);
    } else if op.id in s.sessions {
      DirectClose(s, op, c);
      FirstCloseBumps(s, c, op.reason, op.counters);
    } else {
      AdoptingClose(s, op, c);
      ReconcileBumps(s, c, op.id, op.reason, op.counters);
    }
  }

  // ---------- Sweeping, creating, linking ----------

  /**
   A sweep abandons exactly the open sessions that started more than ten minutes ago: it ends them now
   with the reason they have, or "timeout", and leaves everything else as it was.
   */
  lemma SweepIsExact(s: State, id: Id)
    requires id in s.sessions
    ensures id in Apply(s, Sweep).sessions
    ensures var before, after := s.sessions[id], Apply(s, Sweep).sessions[id];
            after == if before.status == Initiated && before.startedAt < s.now - 600
                     then before.(status := Abandoned, endedAt := Some(s.now),
                                  closedReason := Some(if before.closedReason.Some? then before.closedReason.value else "timeout"))
                     else before
    ensures Apply(s, Sweep).sessions.Keys == s.sessions.Keys
    ensures Apply(s, Sweep).turns == s.turns && Apply(s, Sweep).leads == s.leads && Apply(s, Sweep).now == s.now
  {}

  /** After a sweep no open session is older than ten minutes. */
  lemma NothingStaleAfterSweep(s: State, id: Id)
    requires id in Apply(s, Sweep).sessions && Apply(s, Sweep).sessions[id].status == Initiated
    ensures s.now - 600 <= Apply(s, Sweep).sessions[id].startedAt
  {
    SweepIsExact(s, id);
  }

  /** A created session is open, starts now, and only a new lead of the same client advances. */
  lemma CreatedRecord(s: State, op: Op, lead: Id)
    requires op.Create? && op.id !in s.sessions
    ensures op.id in Apply(s, op).sessions
    ensures var made := Apply(s, op).sessions[op.id];
            && made.clientId == op.clientId && made.leadId == op.leadId && made.conversationId == op.conversationId
            && made.telephony == op.telephony && made.status == Initiated && made.startedAt == s.now
            && made.endedAt == None && made.durationSeconds == None && made.billableMinutes == None
            && made.closedReason == None && made.outcome == None && made.mergedInto == None
            && made.totalUserTurns == 0 && made.totalAgentTurns == 0 && !made.sessionEndReceived
    ensures forall o | o in s.sessions :: o in Apply(s, op).sessions && Apply(s, op).sessions[o] == s.sessions[o]
    ensures Apply(s, op).turns == s.turns
    ensures lead in s.leads ==>
              && lead in Apply(s, op).leads
              && Apply(s, op).leads[lead] ==
                   if op.leadId == Some(lead) && lead != "" && s.leads[lead].clientId == op.clientId && s.leads[lead].status == "new"
                   then s.leads[lead].(status := "called") else s.leads[lead]
  {}

  /** Linking an outbound session to a provider event: its conversation if it had none, and `completed`. */
  lemma LinkedRecord(s: State, op: Op)
    requires op.Link? && op.id in s.sessions && s.sessions[op.id].telephony.Some?
    ensures op.id in Apply(s, op).sessions
    ensures var before := s.sessions[op.id];
            && Apply(s, op).sessions[op.id].telephony == Some(T.Completed)
            && Apply(s, op).sessions[op.id].conversationId ==
                 (if before.conversationId == None && before.telephony != Some(T.Completed) then Some(op.conversation)
                  else before.conversationId)
            && (before.telephony != Some(T.Completed) ==> Apply(s, op).sessions[op.id].sessionEndReceived)
            && Apply(s, op).sessions[op.id].status == before.status
    ensures forall o | o in s.sessions && o != op.id :: o in Apply(s, op).sessions && Apply(s, op).sessions[o] == s.sessions[o]
  {}

  /**
   What a delivery does, by status: an open session is closed, to a completed one the messages beyond the
   number of its turns are added at the end, and any other is left alone.
   */
  lemma DeliveredRecord(s: State, op: Op)
    requires op.Deliver? && op.id in s.sessions
    ensures s.sessions[op.id].status == Initiated ==>
              && Completes(s, op, op.id) && |Apply(s, op).turns| == |s.turns|
    ensures s.sessions[op.id].status == Completed ==>
              var have := |set i | 0 <= i < |s.turns| && s.turns[i].sessionId == op.id|;
              Apply(s, op) ==
                if have < |op.transcript| then s.(turns := s.turns + Stored(op.id, op.transcript[have..], s.now)) else s
    ensures s.sessions[op.id].status == Abandoned || s.sessions[op.id].status == Failed ==> Apply(s, op) == s
  {
    if s.sessions[op.id].status == Initiated {
      FirstCloseEffect(s, op.id, "network_drop", true);
      CompletesIsClose(s, op, op.id);
    }
    TranscriptLength(s.turns, op.id);
    assert Before(s.turns, op.id, |s.turns|) == set i | 0 <= i < |s.turns| && s.turns[i].sessionId == op.id;
  }

  /** Direct finalisation sets status and outcome, the end and the billing, and nothing else. */
  lemma EndedRecord(s: State, op: Op)
    requires op.End? && op.id in s.sessions
    ensures op.id in Apply(s, op).sessions
    ensures var after := Apply(s, op).sessions[op.id];
            && after.billableMinutes.Some?
            && 60 * (after.billableMinutes.value - 1) < op.duration <= 60 * after.billableMinutes.value
            && after == s.sessions[op.id].(status := op.outcome, outcome := Some(op.outcome), endedAt := Some(s.now),
                                           durationSeconds := Some(op.duration), billableMinutes := after.billableMinutes)
    ensures forall o | o in s.sessions && o != op.id :: o in Apply(s, op).sessions && Apply(s, op).sessions[o] == s.sessions[o]
    ensures Apply(s, op).turns == s.turns && Apply(s, op).leads == s.leads
  {}

  // ---------- Counting and selecting turns ----------

  function Places(turns: seq<Turn>, ids: set<Id>, role: string): set<int> {
    set i | 0 <= i < |turns| && turns[i].sessionId in ids && turns[i].role == role
  }

  lemma {:induction false} CountIsCardinality(turns: seq<Turn>, ids: set<Id>, role: string)
    ensures CountIn(turns, ids, role) == |Places(turns, ids, role)|
  {
    if turns != [] {
      var n := |turns| - 1;
      CountIsCardinality(turns[..n], ids, role);
      PlacesSnoc(turns, ids, role);
    }
  }

  lemma PlacesSnoc(turns: seq<Turn>, ids: set<Id>, role: string)
    requires turns != []
    ensures var last := turns[|turns| - 1];
            |Places(turns, ids, role)| == |Places(turns[..|turns| - 1], ids, role)|
                                          + if last.sessionId in ids && last.role == role then 1 else 0
  {
    var n := |turns| - 1;
    var here := turns[n].sessionId in ids && turns[n].role == role;
    assert Places(turns, ids, role) == Places(turns[..n], ids, role) + if here then {n} else {};
  }

  lemma CountOfSession(turns: seq<Turn>, id: Id, role: string)
    ensures CountIn(turns, {id}, role) == |set i | 0 <= i < |turns| && turns[i].sessionId == id && turns[i].role == role|
  {
    CountIsCardinality(turns, {id}, role);
    assert Places(turns, {id}, role) == set i | 0 <= i < |turns| && turns[i].sessionId == id && turns[i].role == role;
  }

  /** Turns of a session recorded before position k. */
  function Before(turns: seq<Turn>, id: Id, k: nat): set<int> {
    set i | 0 <= i < k && i < |turns| && turns[i].sessionId == id
  }

  lemma BeforeSnoc(turns: seq<Turn>, id: Id, k: nat)
    requires turns != [] && k <= |turns| - 1
    ensures Before(turns[..|turns| - 1], id, k) == Before(turns, id, k)
    ensures |Before(turns, id, |turns|)| == |Before(turns, id, |turns| - 1)| + if turns[|turns| - 1].sessionId == id then 1 else 0
  {
    var n := |turns| - 1;
    assert Before(turns, id, |turns|) == Before(turns, id, n) + if turns[n].sessionId == id then {n} else {};
  }

  lemma {:induction false} TranscriptLength(turns: seq<Turn>, id: Id)
    ensures |TurnsOf(turns, id)| == |Before(turns, id, |turns|)|
  {
    if turns != [] {
      TranscriptLength(turns[..|turns| - 1], id);
      BeforeSnoc(turns, id, |turns| - 1);
    }
  }

  /** A session's transcript has each of its turns, at the place given by the number of its turns before it. */
  lemma {:induction false} TranscriptInOrder(turns: seq<Turn>, id: Id, k: nat)
    requires k < |turns| && turns[k].sessionId == id
    ensures |TurnsOf(turns, id)| == |Before(turns, id, |turns|)|
    ensures |Before(turns, id, k)| < |TurnsOf(turns, id)| && TurnsOf(turns, id)[|Before(turns, id, k)|] == turns[k]
    decreases |turns|
  {
    var n := |turns| - 1;
    TranscriptLength(turns, id);
    BeforeSnoc(turns, id, k);
    if k < n {
      TranscriptInOrder(turns[..n], id, k);
    } else {
      TranscriptLength(turns[..n], id);
    }
  }
}
