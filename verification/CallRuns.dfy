/**
 What every run of the call-session machine keeps: the merge links form a forest, turns are never
 lost and move at most once, completed sessions are final and lead counters count completions.
 */
module CallRuns {
  import opened Prelude
  import opened CallState
  import T = Telephony

  // ---------- Invariants and two-state relations ----------

  /** A link leads to another, completed session of the same client and lead. */
  ghost predicate LinkOk(sessions: map<Id, Session>, o: Id)
    requires o in sessions
  {
    sessions[o].mergedInto.Some? ==>
      var target := sessions[o].mergedInto.value;
      && target != o
      && target in sessions
      && sessions[target].status.Completed?
      && sessions[target].clientId == sessions[o].clientId
      && sessions[target].leadId == sessions[o].leadId
  }

  ghost predicate LinksOk(sessions: map<Id, Session>) {
    forall o {:trigger LinkOk(sessions, o)} | o in sessions :: LinkOk(sessions, o)
  }

  /** Completed sessions can be ordered so that links between them go back in the order. */
  ghost predicate RankOk(sessions: map<Id, Session>, rank: map<Id, nat>, next: nat, o: Id)
    requires o in sessions
  {
    sessions[o].status.Completed? ==>
      && o in rank && rank[o] < next
      && (sessions[o].mergedInto.Some? ==>
            sessions[o].mergedInto.value in rank && rank[sessions[o].mergedInto.value] < rank[o])
  }

  ghost predicate Ranked(sessions: map<Id, Session>, rank: map<Id, nat>, next: nat) {
    forall o {:trigger RankOk(sessions, rank, next, o)} | o in sessions :: RankOk(sessions, rank, next, o)
  }

  ghost predicate Forest(sessions: map<Id, Session>) {
    LinksOk(sessions) && exists rank: map<Id, nat>, next: nat :: Ranked(sessions, rank, next)
  }

  /** Sessions stay, with their identity, and a link never changes once it is set. */
  ghost predicate LinksKept(s: State, t: State) {
    forall o | o in s.sessions ::
      && o in t.sessions
      && t.sessions[o].clientId == s.sessions[o].clientId
      && t.sessions[o].leadId == s.sessions[o].leadId
      && t.sessions[o].startedAt == s.sessions[o].startedAt
      && (s.sessions[o].mergedInto.Some? ==> t.sessions[o].mergedInto == s.sessions[o].mergedInto)
  }

  /** A session that others were merged into is not merged any more itself. */
  ghost predicate TargetsSettled(s: State, t: State) {
    forall o | o in s.sessions && s.sessions[o].mergedInto.Some? ::
      var target := s.sessions[o].mergedInto.value;
      target in s.sessions && target in t.sessions ==>
        t.sessions[target].mergedInto == s.sessions[target].mergedInto
  }

  /** `after` is the same turn as `before`, in the same session or in the one that session was merged into. */
  ghost predicate SameTurn(s: State, t: State, before: Turn, after: Turn) {
    && after == before.(sessionId := after.sessionId)
    && (after.sessionId != before.sessionId ==>
          && before.sessionId in t.sessions
          && t.sessions[before.sessionId].mergedInto == Some(after.sessionId)
          && (before.sessionId in s.sessions ==> s.sessions[before.sessionId].mergedInto.None?))
  }

  ghost predicate TurnsKept(s: State, t: State) {
    && |s.turns| <= |t.turns|
    && forall i | 0 <= i < |s.turns| :: SameTurn(s, t, s.turns[i], t.turns[i])
  }

  ghost predicate Evolves(s: State, t: State) {
    LinksKept(s, t) && TargetsSettled(s, t) && TurnsKept(s, t)
  }

  /** Direct finalisation may only reopen a session that nothing was merged into. */
  predicate EndAllowed(s: State, id: Id, outcome: SessionStatus) {
    outcome.Completed? || forall o | o in s.sessions :: s.sessions[o].mergedInto != Some(id)
  }

  predicate Disciplined(s: State, ops: seq<Op>)
    requires ValidRun(s, ops)
    decreases |ops|
  {
    ops == [] ||
    ((ops[0].End? ==> EndAllowed(s, ops[0].id, ops[0].outcome)) && Disciplined(Apply(s, ops[0]), ops[1..]))
  }

  // ---------- The effect of a close, on every path ----------

  /** What a close does to session records and turns; both close paths and the webhook share it. */
  ghost predicate CloseEffect(s: State, t: State, id: Id)
    requires id in s.sessions
  {
    && t.now == s.now
    && t.sessions.Keys == s.sessions.Keys
    && t.turns == Reparent(s.turns, Siblings(s, id), id)
    && t.sessions[id].status == Completed
    && t.sessions[id].clientId == s.sessions[id].clientId
    && t.sessions[id].leadId == s.sessions[id].leadId
    && t.sessions[id].startedAt == s.sessions[id].startedAt
    && t.sessions[id].mergedInto == s.sessions[id].mergedInto
    && t.sessions[id].endedAt == Some(s.now)
    && t.sessions[id].durationSeconds == Some(s.now - s.sessions[id].startedAt)
    && t.sessions[id].billableMinutes == Some(BillableMinutes(s.now - s.sessions[id].startedAt))
    && t.sessions[id].totalUserTurns == CountIn(t.turns, {id}, "user")
    && t.sessions[id].totalAgentTurns == CountIn(t.turns, {id}, "agent")
    && forall o | o in s.sessions && o != id ::
         t.sessions[o] == if o in Siblings(s, id) then s.sessions[o].(mergedInto := Some(id)) else s.sessions[o]
  }

  lemma NoSiblingsNoMove(turns: seq<Turn>, id: Id)
    ensures Reparent(turns, {}, id) == turns
  {}

  /** `c` is `s` up to the record of the session being closed, and that keeps what siblings are found by. */
  ghost predicate OnlyClosing(s: State, c: State, id: Id)
    requires id in s.sessions
  {
    && c.sessions.Keys == s.sessions.Keys && c.turns == s.turns
    && (forall o | o in s.sessions && o != id :: c.sessions[o] == s.sessions[o])
    && c.sessions[id].clientId == s.sessions[id].clientId
    && c.sessions[id].leadId == s.sessions[id].leadId
    && c.sessions[id].startedAt == s.sessions[id].startedAt
    && c.sessions[id].totalUserTurns == CountIn(c.turns, {id}, "user")
    && c.sessions[id].totalAgentTurns == CountIn(c.turns, {id}, "agent")
  }

  lemma SameSiblings(s: State, c: State, id: Id)
    requires id in s.sessions && OnlyClosing(s, c, id)
    ensures Siblings(c, id) == Siblings(s, id)
  {}

  lemma MergeMovesTurns(s: State, c: State, id: Id)
    requires id in s.sessions && OnlyClosing(s, c, id)
    ensures SiblingsMerged(c, id).turns == Reparent(s.turns, Siblings(s, id), id)
    ensures SiblingsMerged(c, id).now == c.now && SiblingsMerged(c, id).leads == c.leads
  {
    SameSiblings(s, c, id);
    NoSiblingsNoMove(s.turns, id);
  }

  lemma MergeLinksSiblings(s: State, c: State, id: Id)
    requires id in s.sessions && OnlyClosing(s, c, id)
    ensures var m := SiblingsMerged(c, id);
            forall o | o in s.sessions && o != id ::
              m.sessions[o] == if o in Siblings(s, id) then s.sessions[o].(mergedInto := Some(id)) else s.sessions[o]
  {
    SameSiblings(s, c, id);
  }

  lemma MergeRecounts(s: State, c: State, id: Id)
    requires id in s.sessions && OnlyClosing(s, c, id)
    ensures var m := SiblingsMerged(c, id);
            m.sessions[id] == c.sessions[id].(totalUserTurns := CountIn(m.turns, {id}, "user"),
                                              totalAgentTurns := CountIn(m.turns, {id}, "agent"))
  {}

  /** What merging the siblings of a session that is being closed does to the state. */
  lemma MergeEffect(s: State, c: State, id: Id)
    requires id in s.sessions && OnlyClosing(s, c, id)
    ensures var m := SiblingsMerged(c, id);
            && Siblings(c, id) == Siblings(s, id)
            && m.now == c.now && m.leads == c.leads
            && m.turns == Reparent(s.turns, Siblings(s, id), id)
            && m.sessions[id] == c.sessions[id].(totalUserTurns := CountIn(m.turns, {id}, "user"),
                                                 totalAgentTurns := CountIn(m.turns, {id}, "agent"))
            && forall o | o in s.sessions && o != id ::
                 m.sessions[o] == if o in Siblings(s, id) then s.sessions[o].(mergedInto := Some(id)) else s.sessions[o]
  {
    SameSiblings(s, c, id);
    MergeMovesTurns(s, c, id);
    MergeRecounts(s, c, id);
    MergeLinksSiblings(s, c, id);
  }

  lemma FirstCloseEffect(s: State, id: Id, reason: string, counters: bool)
    requires id in s.sessions
    ensures CloseEffect(s, FirstClosed(s, id, reason, counters), id)
  {
    var merged := SiblingsMerged(MarkedCompleted(s, id, reason, counters), id);
    MergeEffect(s, MarkedCompleted(s, id, reason, counters), id);
    assert CloseEffect(s, merged, id);
    VoicemailWritesStatus(merged, id);
    StatusIsNoEffect(s, merged, id, VoicemailChecked(merged, id).sessions[id].telephony);
  }

  lemma VoicemailWritesStatus(s: State, id: Id)
    requires id in s.sessions
    ensures id in VoicemailChecked(s, id).sessions
    ensures VoicemailChecked(s, id) == WithTelephony(s, id, VoicemailChecked(s, id).sessions[id].telephony)
  {
    assert s.sessions[id := s.sessions[id]] == s.sessions;
  }

  function WithTelephony(s: State, id: Id, status: Option<T.CallStatus>): State
    requires id in s.sessions
  {
    s.(sessions := s.sessions[id := s.sessions[id].(telephony := status)])
  }

  lemma StatusIsNoEffect(s: State, t: State, id: Id, status: Option<T.CallStatus>)
    requires id in s.sessions && CloseEffect(s, t, id)
    ensures CloseEffect(s, WithTelephony(t, id, status), id)
  {}

  lemma FirstCloseKeepsConversation(s: State, id: Id, reason: string, counters: bool)
    requires id in s.sessions
    ensures FirstClosed(s, id, reason, counters).sessions[id].conversationId == s.sessions[id].conversationId
  {
    MergeRecounts(s, MarkedCompleted(s, id, reason, counters), id);
  }

  lemma ReconcileEffect(s: State, id: Id, conversationId: Id, reason: string, counters: bool)
    requires id in s.sessions
    ensures CloseEffect(s, Reconciled(s, id, conversationId, reason, counters), id)
  {
    MergeEffect(s, MarkedCompleted(Adopted(s, id, conversationId), id, reason, counters), id);
  }

  lemma CloseKeepsForest(s: State, t: State, id: Id)
    requires Forest(s.sessions) && id in s.sessions && !s.sessions[id].status.Completed?
    requires CloseEffect(s, t, id)
    ensures Forest(t.sessions)
  {
    var rank: map<Id, nat>, next: nat :| Ranked(s.sessions, rank, next);
    forall o | o in t.sessions
      ensures LinkOk(t.sessions, o) && RankOk(t.sessions, rank[id := next], next + 1, o)
    {
      assert LinkOk(s.sessions, o) && RankOk(s.sessions, rank, next, o);
      if o in Siblings(s, id) {
        assert t.sessions[o] == s.sessions[o].(mergedInto := Some(id));
      } else {
        var link := s.sessions[o].mergedInto;
        assert t.sessions[o].mergedInto == link;
        if link.Some? {
          assert LinkOk(s.sessions, link.value) && RankOk(s.sessions, rank, next, link.value);
          assert link.value != id && link.value !in Siblings(s, id);
        }
      }
    }
    assert Ranked(t.sessions, rank[id := next], next + 1);
  }

  lemma CloseEvolves(s: State, t: State, id: Id)
    requires LinksOk(s.sessions) && id in s.sessions && CloseEffect(s, t, id)
    ensures Evolves(s, t)
  {
    forall o | o in s.sessions && s.sessions[o].mergedInto.Some? && s.sessions[o].mergedInto.value in s.sessions
      ensures t.sessions[s.sessions[o].mergedInto.value].mergedInto == s.sessions[s.sessions[o].mergedInto.value].mergedInto
    {
      assert LinkOk(s.sessions, o);
    }
  }

  // ---------- One step ----------

  /** A record that was completed is final, and its link and identity with it. */
  ghost predicate Frozen(before: Session, after: Session) {
    && after.status.Completed?
    && after.endedAt == before.endedAt
    && after.closedReason == before.closedReason
    && after.durationSeconds == before.durationSeconds
    && after.billableMinutes == before.billableMinutes
    && after.mergedInto == before.mergedInto
  }

  /** A record that keeps its identity, its link and whether it is completed. */
  ghost predicate SameRecord(before: Session, after: Session) {
    && after.clientId == before.clientId && after.leadId == before.leadId && after.startedAt == before.startedAt
    && after.mergedInto == before.mergedInto
    && (before.status.Completed? ==> Frozen(before, after))
    && (after.status.Completed? ==> before.status.Completed?)
  }

  /** Every record stays as it was, up to new records that are neither linked nor completed. */
  ghost predicate SameLinks(before: map<Id, Session>, after: map<Id, Session>) {
    && (forall o | o in before :: o in after && SameRecord(before[o], after[o]))
    && (forall o | o in after && o !in before :: after[o].mergedInto.None? && !after[o].status.Completed?)
  }

  /** A step that closes nothing: records stay and turns are only appended. */
  ghost predicate Quiet(s: State, t: State) {
    && SameLinks(s.sessions, t.sessions)
    && s.turns <= t.turns
    && s.now <= t.now
    && (forall o | o in t.sessions && o !in s.sessions :: t.sessions[o].startedAt == s.now)
    && (forall i | |s.turns| <= i < |t.turns| :: t.turns[i].at == s.now)
  }

  /** Every step other than direct finalisation closes one session that was not completed, or is quiet. */
  lemma {:induction false} StepShape(s: State, op: Op) returns (closed: Option<Id>)
    requires Enabled(s, op) && !op.End?
    ensures closed.Some? ==>
              && closed.value in s.sessions && !s.sessions[closed.value].status.Completed?
              && CloseEffect(s, Apply(s, op), closed.value)
    ensures closed.None? ==> Quiet(s, Apply(s, op))
  {
    if op.Close? {
      closed := CloseShape(s, op);
    } else if op.Deliver? {
      closed := DeliverShape(s, op);
    } else {
      closed := None;
    }
  }

  lemma CloseShape(s: State, op: Op) returns (closed: Option<Id>)
    requires Enabled(s, op) && op.Close?
    ensures closed.Some? ==>
              && closed.value in s.sessions && !s.sessions[closed.value].status.Completed?
              && CloseEffect(s, Apply(s, op), closed.value)
    ensures closed.None? ==> Apply(s, op) == s
  {
    closed := None;
    if Reconciles(s, op) {
      if op.orphan.Some? {
        closed := op.orphan;
        ReconcileEffect(s, op.orphan.value, op.id, op.reason, op.counters);
      }
    } else if op.id in s.sessions && !s.sessions[op.id].status.Completed? {
      closed := Some(op.id);
      FirstCloseEffect(s, op.id, op.reason, op.counters);
    }
  }

  lemma DeliverShape(s: State, op: Op) returns (closed: Option<Id>)
    requires Enabled(s, op) && op.Deliver?
    ensures closed.Some? ==>
              && closed.value in s.sessions && !s.sessions[closed.value].status.Completed?
              && CloseEffect(s, Apply(s, op), closed.value)
    ensures closed.None? ==> Quiet(s, Apply(s, op))
  {
    closed := None;
    if op.id in s.sessions {
      if s.sessions[op.id].status.Initiated? {
        closed := Some(op.id);
        FirstCloseEffect(s, op.id, "network_drop", true);
      } else if s.sessions[op.id].status.Completed? {
        DeliveryIsQuiet(s, op.id, op.transcript);
      }
    }
  }

  lemma {:induction false} StoredNow(id: Id, messages: seq<Message>, now: int)
    ensures forall k | 0 <= k < |Stored(id, messages, now)| :: Stored(id, messages, now)[k].at == now
  {
    if messages != [] {
      StoredNow(id, messages[..|messages| - 1], now);
    }
  }

  lemma DeliveryIsQuiet(s: State, id: Id, transcript: seq<Message>)
    requires id in s.sessions && s.sessions[id].status.Completed?
    ensures Quiet(s, Delivered(s, id, transcript))
  {
    var have := |TurnsOf(s.turns, id)|;
    if have < |transcript| {
      StoredNow(id, transcript[have..], s.now);
    }
  }

  lemma SameLinksKeepForest(before: map<Id, Session>, after: map<Id, Session>)
    requires Forest(before) && SameLinks(before, after)
    ensures Forest(after)
  {
    var rank: map<Id, nat>, next: nat :| Ranked(before, rank, next);
    forall o | o in after ensures LinkOk(after, o) && RankOk(after, rank, next, o) {
      if o in before {
        assert LinkOk(before, o) && RankOk(before, rank, next, o);
      }
    }
    assert Ranked(after, rank, next);
  }

  lemma StepKeepsForest(s: State, op: Op)
    requires Forest(s.sessions) && Enabled(s, op)
    requires op.End? ==> EndAllowed(s, op.id, op.outcome)
    ensures Forest(Apply(s, op).sessions)
  {
    if op.End? {
      if op.id in s.sessions {
        EndKeepsForestIff(s, op.id, op.outcome, op.duration);
      }
    } else {
      var closed := StepShape(s, op);
      if closed.Some? {
        CloseKeepsForest(s, Apply(s, op), closed.value);
      } else {
        SameLinksKeepForest(s.sessions, Apply(s, op).sessions);
      }
    }
  }

  /** Direct finalisation keeps the forest exactly when it completes the session or nothing was merged into it. */
  lemma EndKeepsForestIff(s: State, id: Id, outcome: SessionStatus, duration: int)
    requires Forest(s.sessions) && id in s.sessions
    ensures Forest(Ended(s, id, outcome, duration).sessions) <==> EndAllowed(s, id, outcome)
  {
    var t := Ended(s, id, outcome, duration);
    if EndAllowed(s, id, outcome) {
      var rank: map<Id, nat>, next: nat :| Ranked(s.sessions, rank, next);
      var rank' := if s.sessions[id].status.Completed? then rank else rank[id := next];
      forall o | o in t.sessions ensures LinkOk(t.sessions, o) && RankOk(t.sessions, rank', next + 1, o) {
        assert LinkOk(s.sessions, o) && RankOk(s.sessions, rank, next, o);
        if s.sessions[o].mergedInto.Some? {
          assert RankOk(s.sessions, rank, next, s.sessions[o].mergedInto.value);
        }
      }
      assert Ranked(t.sessions, rank', next + 1);
    } else {
      var o :| o in s.sessions && s.sessions[o].mergedInto == Some(id);
      assert LinkOk(s.sessions, o);
      assert !LinkOk(t.sessions, o);
    }
  }

  lemma StepEvolves(s: State, op: Op)
    requires LinksOk(s.sessions) && Enabled(s, op)
    ensures Evolves(s, Apply(s, op))
  {
    if !op.End? {
      var closed := StepShape(s, op);
      if closed.Some? {
        CloseEvolves(s, Apply(s, op), closed.value);
      }
    }
  }

  lemma EvolvesTransitive(s: State, t: State, u: State)
    requires LinksOk(t.sessions) && Evolves(s, t) && Evolves(t, u)
    ensures Evolves(s, u)
  {
    forall i | 0 <= i < |s.turns| ensures SameTurn(s, u, s.turns[i], u.turns[i]) {
      assert SameTurn(s, t, s.turns[i], t.turns[i]) && SameTurn(t, u, t.turns[i], u.turns[i]);
      var home := s.turns[i].sessionId;
      if home != t.turns[i].sessionId {
        assert LinkOk(t.sessions, home);
      }
    }
  }

  // ---------- Every run ----------

  lemma {:induction false} RunsCompose(s: State, first: seq<Op>, second: seq<Op>)
    requires ValidRun(s, first) && ValidRun(After(s, first), second)
    ensures ValidRun(s, first + second) && After(s, first + second) == After(After(s, first), second)
    decreases |first|
  {
    if first == [] {
      assert first + second == second;
    } else {
      assert (first + second)[1..] == first[1..] + second;
      RunsCompose(Apply(s, first[0]), first[1..], second);
    }
  }

  lemma OneStep(s: State, op: Op)
    requires Enabled(s, op)
    ensures ValidRun(s, [op]) && After(s, [op]) == Apply(s, op)
  {
    assert [op][1..] == [];
    assert ValidRun(Apply(s, op), []) && After(Apply(s, op), []) == Apply(s, op);
  }

  /** The turns that an operation records: one added turn, or what a delivery stores in a completed session. */
  function Recorded(s: State, op: Op): seq<Turn> {
    if op.AddTurn? then [Turn(op.id, op.role, op.content, s.now)]
    else if op.Deliver? && op.id in s.sessions && s.sessions[op.id].status.Completed?
            && |TurnsOf(s.turns, op.id)| < |op.transcript|
    then Stored(op.id, op.transcript[|TurnsOf(s.turns, op.id)|..], s.now)
    else []
  }

  function RecordedInRun(s: State, ops: seq<Op>): seq<Turn>
    requires ValidRun(s, ops)
    decreases |ops|
  {
    if ops == [] then [] else Recorded(s, ops[0]) + RecordedInRun(Apply(s, ops[0]), ops[1..])
  }

  /** Two lists of the same turns, up to the sessions the turns are in. */
  ghost predicate SameUpToSession(a: seq<Turn>, b: seq<Turn>) {
    |a| == |b| && forall i | 0 <= i < |a| :: b[i] == a[i].(sessionId := b[i].sessionId)
  }

  lemma CloseRecordsNothing(s: State, t: State, id: Id)
    requires id in s.sessions && CloseEffect(s, t, id)
    ensures SameUpToSession(s.turns, t.turns)
  {}

  /** One operation adds the turns it records at the end, and loses, repeats or alters none. */
  lemma StepConservesTurns(s: State, op: Op)
    requires Enabled(s, op)
    ensures SameUpToSession(s.turns + Recorded(s, op), Apply(s, op).turns)
  {
    if op.Close? {
      var closed := CloseShape(s, op);
      if closed.Some? { CloseRecordsNothing(s, Apply(s, op), closed.value); }
    } else if op.Deliver? && op.id in s.sessions && s.sessions[op.id].status.Initiated? {
      FirstCloseEffect(s, op.id, "network_drop", true);
      CloseRecordsNothing(s, Apply(s, op), op.id);
    }
  }

  lemma ConservationComposes(a: seq<Turn>, b: seq<Turn>, c: seq<Turn>, d: seq<Turn>, e: seq<Turn>)
    requires SameUpToSession(a + b, c) && SameUpToSession(c + d, e)
    ensures SameUpToSession(a + (b + d), e)
  {
    forall i | 0 <= i < |e| ensures e[i] == (a + (b + d))[i].(sessionId := e[i].sessionId) {
      assert e[i] == (c + d)[i].(sessionId := e[i].sessionId);
      assert (a + (b + d))[i] == if i < |c| then (a + b)[i] else d[i - |c|];
    }
  }

  /**
   Over every run whatever, the turns are those there were and those recorded during the run, each
   exactly once and unaltered, in order: closing, merging and reconciling only move them.
   */
  lemma {:induction false} RunConservesTurns(s: State, ops: seq<Op>)
    requires ValidRun(s, ops)
    ensures SameUpToSession(s.turns + RecordedInRun(s, ops), After(s, ops).turns)
    decreases |ops|
  {
    if ops == [] {
      assert s.turns + [] == s.turns;
    } else {
      var t := Apply(s, ops[0]);
      StepConservesTurns(s, ops[0]);
      RunConservesTurns(t, ops[1..]);
      ConservationComposes(s.turns, Recorded(s, ops[0]), t.turns, RecordedInRun(t, ops[1..]), After(s, ops).turns);
    }
  }

  /**
   In every reachable state the links form a forest, and every later state evolves from every earlier
   one: no turn is lost, and there are no more turns than were recorded.
   */
  lemma {:induction false} RunKeepsForestAndTurns(s: State, ops: seq<Op>)
    requires Forest(s.sessions) && ValidRun(s, ops) && Disciplined(s, ops)
    ensures Forest(After(s, ops).sessions)
    ensures Evolves(s, After(s, ops))
    ensures |After(s, ops).turns| == |s.turns| + |RecordedInRun(s, ops)|
    decreases |ops|
  {
    RunConservesTurns(s, ops);
    if ops != [] {
      StepKeepsForest(s, ops[0]);
      StepEvolves(s, ops[0]);
      RunKeepsForestAndTurns(Apply(s, ops[0]), ops[1..]);
      EvolvesTransitive(s, Apply(s, ops[0]), After(s, ops));
    }
  }

  // ---------- What a forest gives: following links ends ----------

  /** A walk along merge links. */
  ghost predicate IsWalk(sessions: map<Id, Session>, walk: seq<Id>) {
    && (forall i | 0 <= i < |walk| :: walk[i] in sessions)
    && (forall i {:trigger walk[i]} | 0 < i < |walk| :: sessions[walk[i - 1]].mergedInto == Some(walk[i]))
  }

  lemma {:induction false} WalkDescends(sessions: map<Id, Session>, rank: map<Id, nat>, next: nat,
                                        walk: seq<Id>, i: nat, j: nat)
    requires LinksOk(sessions) && Ranked(sessions, rank, next) && IsWalk(sessions, walk)
    requires i < j < |walk|
    ensures sessions[walk[j]].status.Completed?
    ensures sessions[walk[j]].clientId == sessions[walk[i]].clientId && sessions[walk[j]].leadId == sessions[walk[i]].leadId
    ensures sessions[walk[i]].status.Completed? ==>
              walk[i] in rank && walk[j] in rank && rank[walk[j]] < rank[walk[i]]
    decreases j - i
  {
    assert sessions[walk[j - 1]].mergedInto == Some(walk[j]);
    assert LinkOk(sessions, walk[j - 1]) && RankOk(sessions, rank, next, walk[j - 1]);
    if i < j - 1 {
      WalkDescends(sessions, rank, next, walk, i, j - 1);
    }
  }

  lemma {:induction false} DistinctBounded(ids: seq<Id>, pool: set<Id>)
    requires forall i | 0 <= i < |ids| :: ids[i] in pool
    requires forall i, j | 0 <= i < j < |ids| :: ids[i] != ids[j]
    ensures |ids| <= |pool|
  {
    if ids != [] {
      var last := ids[|ids| - 1];
      DistinctBounded(ids[..|ids| - 1], pool - {last});
    }
  }

  /**
   Following links from any session never meets a session twice, passes only completed sessions of
   the same client and lead, and ends after at most as many hops as there are completed sessions.
   */
  lemma FollowingLinksEnds(sessions: map<Id, Session>, walk: seq<Id>)
    requires Forest(sessions) && IsWalk(sessions, walk) && walk != []
    ensures forall i, j | 0 <= i < j < |walk| :: walk[i] != walk[j]
    ensures forall j | 0 < j < |walk| ::
              && sessions[walk[j]].status.Completed?
              && sessions[walk[j]].clientId == sessions[walk[0]].clientId
              && sessions[walk[j]].leadId == sessions[walk[0]].leadId
    ensures |walk| - 1 <= |set id | id in sessions && sessions[id].status.Completed?|
  {
    var rank: map<Id, nat>, next: nat :| Ranked(sessions, rank, next);
    forall i, j | 0 <= i < j < |walk| ensures walk[i] != walk[j] {
      WalkDescends(sessions, rank, next, walk, i, j);
    }
    forall j | 0 < j < |walk|
      ensures sessions[walk[j]].status.Completed?
      ensures sessions[walk[j]].clientId == sessions[walk[0]].clientId
      ensures sessions[walk[j]].leadId == sessions[walk[0]].leadId
    {
      WalkDescends(sessions, rank, next, walk, 0, j);
    }
    DistinctBounded(walk[1..], set id | id in sessions && sessions[id].status.Completed?);
  }

  // ---------- Completed sessions are final ----------

  ghost predicate CompletedFrozen(s: State, t: State) {
    forall id | id in s.sessions && s.sessions[id].status.Completed? ::
      id in t.sessions && Frozen(s.sessions[id], t.sessions[id])
  }

  lemma StepFreezesCompleted(s: State, op: Op)
    requires Enabled(s, op) && !op.End?
    ensures CompletedFrozen(s, Apply(s, op))
  {
    var closed := StepShape(s, op);
    if closed.Some? {
      CloseFreezesCompleted(s, Apply(s, op), closed.value);
    }
  }

  lemma CloseFreezesCompleted(s: State, t: State, id: Id)
    requires id in s.sessions && !s.sessions[id].status.Completed? && CloseEffect(s, t, id)
    ensures CompletedFrozen(s, t)
  {}

  /** Repeated closes, deliveries, reconciliations and sweeps never touch the record of a completed call again. */
  lemma {:induction false} RunFreezesCompleted(s: State, ops: seq<Op>)
    requires ValidRun(s, ops) && forall i | 0 <= i < |ops| :: !ops[i].End?
    ensures CompletedFrozen(s, After(s, ops))
    decreases |ops|
  {
    if ops != [] {
      StepFreezesCompleted(s, ops[0]);
      RunFreezesCompleted(Apply(s, ops[0]), ops[1..]);
    }
  }

  // ---------- Lead counters ----------

  function CompletedOf(s: State, lead: Id): set<Id> {
    set id | id in s.sessions && s.sessions[id].status.Completed? && s.sessions[id].leadId == Some(lead)
  }

  /** Completions that an operation makes without being told to count them. */
  function Uncounted(s: State, op: Op, lead: Id): int
    requires Enabled(s, op)
  {
    if op.End? || (op.Close? && !op.counters)
    then |CompletedOf(Apply(s, op), lead)| - |CompletedOf(s, lead)|
    else 0
  }

  function UncountedInRun(s: State, ops: seq<Op>, lead: Id): int
    requires ValidRun(s, ops)
    decreases |ops|
  {
    if ops == [] then 0
    else Uncounted(s, ops[0], lead) + UncountedInRun(Apply(s, ops[0]), ops[1..], lead)
  }

  /** The part of a close that lead counters depend on. */
  ghost predicate CompletesOnly(before: map<Id, Session>, after: map<Id, Session>, id: Id) {
    && after.Keys == before.Keys && id in before
    && !before[id].status.Completed? && after[id].status.Completed?
    && forall o | o in before ::
         && after[o].leadId == before[o].leadId
         && (o != id ==> after[o].status == before[o].status)
  }

  lemma CloseCompletesOnly(s: State, t: State, id: Id)
    requires id in s.sessions && !s.sessions[id].status.Completed? && CloseEffect(s, t, id)
    ensures CompletesOnly(s.sessions, t.sessions, id)
  {}

  lemma CompletionAddsOne(s: State, t: State, id: Id, lead: Id)
    requires CompletesOnly(s.sessions, t.sessions, id)
    ensures CompletedOf(t, lead) == CompletedOf(s, lead) + if s.sessions[id].leadId == Some(lead) then {id} else {}
    ensures id !in CompletedOf(s, lead)
  {}

  lemma CompletionCounts(s: State, t: State, id: Id, lead: Id)
    requires CompletesOnly(s.sessions, t.sessions, id)
    ensures |CompletedOf(t, lead)| == |CompletedOf(s, lead)| + if s.sessions[id].leadId == Some(lead) then 1 else 0
  {
    CompletionAddsOne(s, t, id, lead);
  }

  lemma SameCompleted(s: State, t: State, lead: Id)
    requires forall o | o in s.sessions ::
               o in t.sessions && t.sessions[o].leadId == s.sessions[o].leadId &&
               (t.sessions[o].status.Completed? <==> s.sessions[o].status.Completed?)
    requires forall o | o in t.sessions && o !in s.sessions :: !t.sessions[o].status.Completed?
    ensures CompletedOf(t, lead) == CompletedOf(s, lead)
  {}

  /** Completing a session and bumping its lead, if asked to, go together. */
  lemma BumpCounts(s: State, t: State, id: Id, counters: bool, lead: Id)
    requires CompletesOnly(s.sessions, t.sessions, id) && lead in s.leads && lead != ""
    requires t.leads == if counters then LeadBumped(s.leads, s.sessions[id].leadId, s.now) else s.leads
    ensures lead in t.leads
    ensures t.leads[lead].callCount - s.leads[lead].callCount
         == (if counters then |CompletedOf(t, lead)| - |CompletedOf(s, lead)| else 0)
  {
    CompletionCounts(s, t, id, lead);
  }

  lemma FirstCloseBumps(s: State, id: Id, reason: string, counters: bool)
    requires id in s.sessions
    ensures FirstClosed(s, id, reason, counters).leads
         == if counters then LeadBumped(s.leads, s.sessions[id].leadId, s.now) else s.leads
  {}

  lemma ReconcileBumps(s: State, id: Id, conversationId: Id, reason: string, counters: bool)
    requires id in s.sessions
    ensures Reconciled(s, id, conversationId, reason, counters).leads
         == if counters then LeadBumped(s.leads, s.sessions[id].leadId, s.now) else s.leads
  {}

  lemma FirstCloseCounts(s: State, id: Id, reason: string, counters: bool, lead: Id)
    requires id in s.sessions && !s.sessions[id].status.Completed? && lead in s.leads && lead != ""
    ensures var t := FirstClosed(s, id, reason, counters);
            && lead in t.leads
            && t.leads[lead].callCount - s.leads[lead].callCount
               == (if counters then |CompletedOf(t, lead)| - |CompletedOf(s, lead)| else 0)
  {
    FirstCloseEffect(s, id, reason, counters);
    CloseCompletesOnly(s, FirstClosed(s, id, reason, counters), id);
    FirstCloseBumps(s, id, reason, counters);
    BumpCounts(s, FirstClosed(s, id, reason, counters), id, counters, lead);
  }

  lemma ReconcileCounts(s: State, id: Id, conversationId: Id, reason: string, counters: bool, lead: Id)
    requires id in s.sessions && !s.sessions[id].status.Completed? && lead in s.leads && lead != ""
    ensures var t := Reconciled(s, id, conversationId, reason, counters);
            && lead in t.leads
            && t.leads[lead].callCount - s.leads[lead].callCount
               == (if counters then |CompletedOf(t, lead)| - |CompletedOf(s, lead)| else 0)
  {
    ReconcileEffect(s, id, conversationId, reason, counters);
    CloseCompletesOnly(s, Reconciled(s, id, conversationId, reason, counters), id);
    ReconcileBumps(s, id, conversationId, reason, counters);
    BumpCounts(s, Reconciled(s, id, conversationId, reason, counters), id, counters, lead);
  }

  lemma StepCounts(s: State, op: Op, lead: Id)
    requires Enabled(s, op) && lead in s.leads && lead != ""
    ensures lead in Apply(s, op).leads
    ensures Apply(s, op).leads[lead].callCount - s.leads[lead].callCount
         == |CompletedOf(Apply(s, op), lead)| - |CompletedOf(s, lead)| - Uncounted(s, op, lead)
  {
    if op.Close? && Reconciles(s, op) && op.orphan.Some? {
      ReconcileCounts(s, op.orphan.value, op.id, op.reason, op.counters, lead);
    } else if op.Close? && op.id in s.sessions && !s.sessions[op.id].status.Completed? {
      FirstCloseCounts(s, op.id, op.reason, op.counters, lead);
    } else if op.Deliver? && op.id in s.sessions && s.sessions[op.id].status.Initiated? {
      FirstCloseCounts(s, op.id, "network_drop", true, lead);
    } else if !op.End? {
      SameCompleted(s, Apply(s, op), lead);
    }
  }

  /**
   Over every run, the change of a lead's call counter is the change of the number of its completed
   sessions, less the completions made by operations told not to count.
   */
  lemma {:induction false} RunCounts(s: State, ops: seq<Op>, lead: Id)
    requires ValidRun(s, ops) && lead in s.leads && lead != ""
    ensures lead in After(s, ops).leads
    ensures After(s, ops).leads[lead].callCount - s.leads[lead].callCount
         == |CompletedOf(After(s, ops), lead)| - |CompletedOf(s, lead)| - UncountedInRun(s, ops, lead)
    decreases |ops|
  {
    if ops != [] {
      StepCounts(s, ops[0], lead);
      RunCounts(Apply(s, ops[0]), ops[1..], lead);
    }
  }

  lemma {:induction false} NothingUncounted(s: State, ops: seq<Op>, lead: Id)
    requires ValidRun(s, ops)
    requires forall i | 0 <= i < |ops| :: !ops[i].End? && (ops[i].Close? ==> ops[i].counters)
    ensures UncountedInRun(s, ops, lead) == 0
    decreases |ops|
  {
    if ops != [] {
      NothingUncounted(Apply(s, ops[0]), ops[1..], lead);
    }
  }

  /** As every caller asks for counting: the counter is its initial value plus the completed sessions. */
  lemma CallCountIsCompletedSessions(s: State, ops: seq<Op>, lead: Id)
    requires ValidRun(s, ops) && lead in s.leads && lead != "" && CompletedOf(s, lead) == {}
    requires forall i | 0 <= i < |ops| :: !ops[i].End? && (ops[i].Close? ==> ops[i].counters)
    ensures lead in After(s, ops).leads
    ensures After(s, ops).leads[lead].callCount == s.leads[lead].callCount + |CompletedOf(After(s, ops), lead)|
  {
    RunCounts(s, ops, lead);
    NothingUncounted(s, ops, lead);
  }
}
