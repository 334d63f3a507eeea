/**
 What one close means: whose turns it counts, when it reports voicemail, what it bills, and whether
 the session that absorbs its siblings is still visible afterwards.
 */
module CallClosing {
  import opened Prelude
  import opened CallState
  import opened CallRuns
  import T = Telephony

  // ---------- Turn counts ----------

  lemma {:induction false} CountAfterReparent(turns: seq<Turn>, from: set<Id>, to: Id, role: string)
    ensures CountIn(Reparent(turns, from, to), {to}, role) == CountIn(turns, from + {to}, role)
  {
    if turns != [] {
      var n := |turns| - 1;
      assert Reparent(turns, from, to)[..n] == Reparent(turns[..n], from, to);
      CountAfterReparent(turns[..n], from, to, role);
    }
  }

  predicate Spoke(turn: Turn, ids: set<Id>, role: string) {
    turn.sessionId in ids && turn.role == role
  }

  lemma {:induction false} CountZeroIff(turns: seq<Turn>, ids: set<Id>, role: string)
    ensures CountIn(turns, ids, role) == 0 <==> forall i | 0 <= i < |turns| :: !Spoke(turns[i], ids, role)
  {
    if turns != [] {
      var n := |turns| - 1;
      CountZeroIff(turns[..n], ids, role);
      assert turns == turns[..n] + [turns[n]];
      if forall i | 0 <= i < n :: !Spoke(turns[..n][i], ids, role) {
        forall i | 0 <= i < n ensures !Spoke(turns[i], ids, role) { assert turns[..n][i] == turns[i]; }
      } else {
        var i :| 0 <= i < n && Spoke(turns[..n][i], ids, role);
        assert Spoke(turns[i], ids, role);
      }
    }
  }

  /** After a close the session's totals count its own turns and those of every sibling it absorbed. */
  lemma CloseCountsAbsorbedTurns(s: State, t: State, id: Id)
    requires id in s.sessions && CloseEffect(s, t, id)
    ensures t.sessions[id].totalUserTurns == CountIn(s.turns, Siblings(s, id) + {id}, "user")
    ensures t.sessions[id].totalAgentTurns == CountIn(s.turns, Siblings(s, id) + {id}, "agent")
  {
    CountAfterReparent(s.turns, Siblings(s, id), id, "user");
    CountAfterReparent(s.turns, Siblings(s, id), id, "agent");
  }

  // ---------- Voicemail ----------

  /** The telephony status after a first close, from the state before it alone. */
  lemma FirstCloseStatus(s: State, id: Id, reason: string, counters: bool)
    requires id in s.sessions
    ensures FirstClosed(s, id, reason, counters).sessions[id].telephony
         == T.OnClose(s.sessions[id].telephony, s.now - s.sessions[id].startedAt,
                      CountIn(s.turns, Siblings(s, id) + {id}, "user"))
  {
    MergeEffect(s, MarkedCompleted(s, id, reason, counters), id);
    CountAfterReparent(s.turns, Siblings(s, id), id, "user");
  }

  /**
   A first close does not consult the table of transitions. What it does to the status of an outbound
   session is a permitted transition, or no change at all, exactly when the call had been connected, had
   already ended without a conversation, or stood at the status it is given.
   */
  lemma FirstCloseFollowsTableIff(s: State, id: Id, reason: string, counters: bool)
    requires id in s.sessions && s.sessions[id].telephony.Some?
    ensures var status := s.sessions[id].telephony.value;
            var after := FirstClosed(s, id, reason, counters).sessions[id].telephony;
            && after.Some?
            && (after.value == status || T.ValidateTransition(status, after.value)
                <==>
                || status in {T.Connected, T.Voicemail, T.NoAnswer, T.RecurrentError}
                || (status == T.Completed
                    && (s.now - s.sessions[id].startedAt >= 30
                        || exists i :: 0 <= i < |s.turns| && Spoke(s.turns[i], Siblings(s, id) + {id}, "user"))))
  {
    var spoken := CountIn(s.turns, Siblings(s, id) + {id}, "user");
    FirstCloseStatus(s, id, reason, counters);
    CountZeroIff(s.turns, Siblings(s, id) + {id}, "user");
    T.CloseFollowsTableIff(s.sessions[id].telephony.value, s.now - s.sessions[id].startedAt, spoken);
  }

  /**
   A first close marks an outbound session as voicemail exactly when it had not ended without a
   conversation, lasted under 30 seconds, and no user turn was recorded in it or in an absorbed sibling.
   */
  lemma VoicemailExactlyWhen(s: State, id: Id, reason: string, counters: bool)
    requires id in s.sessions && !s.sessions[id].status.Completed?
    ensures FirstClosed(s, id, reason, counters).sessions[id].telephony == Some(T.Voicemail) <==>
            && s.sessions[id].telephony.Some?
            && s.sessions[id].telephony.value !in {T.NoAnswer, T.RecurrentError}
            && s.now - s.sessions[id].startedAt < 30
            && forall i | 0 <= i < |s.turns| :: !Spoke(s.turns[i], Siblings(s, id) + {id}, "user")
  {
    FirstCloseStatus(s, id, reason, counters);
    CountZeroIff(s.turns, Siblings(s, id) + {id}, "user");
  }

  /** Reconciliation never marks voicemail: it writes the session-end status and nothing else. */
  lemma ReconciliationSkipsVoicemail(s: State, id: Id, conversationId: Id, reason: string, counters: bool)
    requires id in s.sessions
    ensures Reconciled(s, id, conversationId, reason, counters).sessions[id].telephony
         == T.OnSessionEnd(s.sessions[id].telephony)
  {
    MergeEffect(s, MarkedCompleted(Adopted(s, id, conversationId), id, reason, counters), id);
  }

  // ---------- Visibility of merged turns ----------

  /**
   Sessions listed to operators are the unmerged ones. The siblings a close absorbs end up in a
   listed session exactly when the closed session had not been merged itself.
   */
  lemma AbsorbedTurnsListedIff(s: State, t: State, id: Id, sibling: Id, i: nat)
    requires id in s.sessions && CloseEffect(s, t, id)
    requires sibling in Siblings(s, id) && i < |s.turns| && s.turns[i].sessionId == sibling
    ensures t.turns[i].sessionId in t.sessions
    ensures t.sessions[t.turns[i].sessionId].mergedInto.None? <==> s.sessions[id].mergedInto.None?
  {}

  // ---------- Clock and billing ----------

  ghost predicate Billed(cs: Session) {
    cs.status.Completed? ==>
      && cs.durationSeconds.Some?
      && cs.billableMinutes == Some(BillableMinutes(cs.durationSeconds.value))
  }

  ghost predicate Timed(s: State) {
    && (forall o | o in s.sessions :: s.sessions[o].startedAt <= s.now)
    && (forall i | 0 <= i < |s.turns| :: s.turns[i].at <= s.now)
    && (forall i, j | 0 <= i < j < |s.turns| :: s.turns[i].at <= s.turns[j].at)
  }

  ghost predicate Books(s: State) {
    Timed(s) && forall o | o in s.sessions :: Billed(s.sessions[o])
  }

  lemma CloseKeepsBooks(s: State, t: State, id: Id)
    requires Books(s) && id in s.sessions && CloseEffect(s, t, id)
    ensures Books(t)
  {}

  lemma QuietKeepsBooks(s: State, t: State)
    requires Books(s) && Quiet(s, t)
    ensures Books(t)
  {
    forall o | o in t.sessions ensures t.sessions[o].startedAt <= t.now && Billed(t.sessions[o]) {
      if o in s.sessions {
        assert SameRecord(s.sessions[o], t.sessions[o]);
      }
    }
    forall i | 0 <= i < |t.turns| ensures t.turns[i].at <= t.now {
      if i < |s.turns| { assert t.turns[i] == s.turns[i]; }
    }
    forall i, j | 0 <= i < j < |t.turns| ensures t.turns[i].at <= t.turns[j].at {
      if i < |s.turns| { assert t.turns[i] == s.turns[i]; }
      if j < |s.turns| { assert t.turns[j] == s.turns[j]; }
    }
  }

  lemma StepKeepsBooks(s: State, op: Op)
    requires Books(s) && Enabled(s, op)
    ensures Books(Apply(s, op))
  {
    if !op.End? {
      var closed := StepShape(s, op);
      if closed.Some? {
        CloseKeepsBooks(s, Apply(s, op), closed.value);
      } else {
        QuietKeepsBooks(s, Apply(s, op));
      }
    }
  }

  /** Every run keeps turns in recording order and bills every completed session its rounded-up minutes. */
  lemma {:induction false} RunKeepsBooks(s: State, ops: seq<Op>)
    requires Books(s) && ValidRun(s, ops)
    ensures Books(After(s, ops))
    decreases |ops|
  {
    if ops != [] {
      StepKeepsBooks(s, ops[0]);
      RunKeepsBooks(Apply(s, ops[0]), ops[1..]);
    }
  }

  // ---------- Metrics ----------

  datatype Query = Query(clientId: Id, leadId: Option<Id>, dateFrom: Option<int>, dateTo: Option<int>)

  datatype Metrics = Metrics(totalCalls: nat, completedCalls: nat, abandonedCalls: nat,
                             totalSeconds: int, averageSeconds: real, totalMinutes: int)

  predicate Matches(cs: Session, q: Query) {
    && cs.clientId == q.clientId
    && cs.mergedInto.None?
    && (q.leadId.Some? ==> cs.leadId == q.leadId)
    && (q.dateFrom.Some? ==> q.dateFrom.value <= cs.startedAt)
    && (q.dateTo.Some? ==> cs.startedAt <= q.dateTo.value)
  }

  function Matching(sessions: map<Id, Session>, q: Query): set<Id> {
    set id | id in sessions && Matches(sessions[id], q)
  }

  function WithStatus(sessions: map<Id, Session>, ids: set<Id>, status: SessionStatus): set<Id> {
    set id | id in ids && id in sessions && sessions[id].status == status
  }

  /** SUM over a column: missing values do not contribute. */
  ghost function Sum(column: map<Id, Option<int>>, ids: set<Id>): int
    requires ids <= column.Keys
  {
    if ids == {} then 0
    else
      var id :| id in ids;
      (if column[id].Some? then column[id].value else 0) + Sum(column, ids - {id})
  }

  function Seconds(sessions: map<Id, Session>): map<Id, Option<int>> {
    map id | id in sessions :: sessions[id].durationSeconds
  }

  function Minutes(sessions: map<Id, Session>): map<Id, Option<int>> {
    map id | id in sessions :: sessions[id].billableMinutes
  }

  ghost function CallMetrics(s: State, q: Query): Metrics {
    var rows := Matching(s.sessions, q);
    var completed := WithStatus(s.sessions, rows, Completed);
    var timed := set id | id in completed && s.sessions[id].durationSeconds.Some?;
    var seconds := Sum(Seconds(s.sessions), completed);
    Metrics(|rows|, |completed|, |WithStatus(s.sessions, rows, Abandoned)|, seconds,
            if timed == {} then 0.0 else seconds as real / |timed| as real,
            Sum(Minutes(s.sessions), completed))
  }

  /** What the counts of the metrics count: unmerged sessions of the client, of the lead and in the period if given. */
  lemma MetricsCountRecords(s: State, q: Query)
    ensures var rows := set id | id in s.sessions
                          && s.sessions[id].clientId == q.clientId && s.sessions[id].mergedInto == None
                          && (q.leadId == None || s.sessions[id].leadId == q.leadId)
                          && (q.dateFrom == None || s.sessions[id].startedAt >= q.dateFrom.value)
                          && (q.dateTo == None || s.sessions[id].startedAt <= q.dateTo.value);
            && CallMetrics(s, q).totalCalls == |rows|
            && CallMetrics(s, q).completedCalls == |set id | id in rows && s.sessions[id].status == Completed|
            && CallMetrics(s, q).abandonedCalls == |set id | id in rows && s.sessions[id].status == Abandoned|
  {
    var rows := set id | id in s.sessions
                  && s.sessions[id].clientId == q.clientId && s.sessions[id].mergedInto == None
                  && (q.leadId == None || s.sessions[id].leadId == q.leadId)
                  && (q.dateFrom == None || s.sessions[id].startedAt >= q.dateFrom.value)
                  && (q.dateTo == None || s.sessions[id].startedAt <= q.dateTo.value);
    assert Matching(s.sessions, q) == rows;
    assert WithStatus(s.sessions, rows, Completed) == set id | id in rows && s.sessions[id].status == Completed;
    assert WithStatus(s.sessions, rows, Abandoned) == set id | id in rows && s.sessions[id].status == Abandoned;
  }

  lemma {:induction false} SumPicks(column: map<Id, Option<int>>, ids: set<Id>, id: Id)
    requires ids <= column.Keys && id in ids
    ensures Sum(column, ids) == (if column[id].Some? then column[id].value else 0) + Sum(column, ids - {id})
    decreases |ids|
  {
    var pick :| pick in ids && Sum(column, ids) ==
                  (if column[pick].Some? then column[pick].value else 0) + Sum(column, ids - {pick});
    if pick != id {
      SumPicks(column, ids - {pick}, id);
      SumPicks(column, ids - {id}, pick);
      assert ids - {pick} - {id} == ids - {id} - {pick};
    }
  }

  lemma {:induction false} RoundingIsTight(sessions: map<Id, Session>, ids: set<Id>)
    requires ids <= sessions.Keys && forall id | id in ids :: sessions[id].status.Completed? && Billed(sessions[id])
    ensures Sum(Seconds(sessions), ids) <= 60 * Sum(Minutes(sessions), ids) <= Sum(Seconds(sessions), ids) + 59 * |ids|
    decreases |ids|
  {
    if ids != {} {
      var id :| id in ids;
      SumPicks(Seconds(sessions), ids, id);
      SumPicks(Minutes(sessions), ids, id);
      RoundingIsTight(sessions, ids - {id});
    }
  }

  /** Billed minutes cover the seconds, with less than a minute per call to spare; the average is exact. */
  ghost predicate Tight(m: Metrics) {
    && m.totalSeconds <= 60 * m.totalMinutes
    && (m.completedCalls > 0 ==> 60 * m.totalMinutes < m.totalSeconds + 60 * m.completedCalls)
    && m.averageSeconds * m.completedCalls as real == m.totalSeconds as real
  }

  lemma MetricsAreTight(s: State, q: Query)
    requires forall o | o in s.sessions :: Billed(s.sessions[o])
    ensures Tight(CallMetrics(s, q))
  {
    var completed := WithStatus(s.sessions, Matching(s.sessions, q), Completed);
    RoundingIsTight(s.sessions, completed);
    assert completed == set id | id in completed && s.sessions[id].durationSeconds.Some?;
  }

  /**
   In every reachable state and for every metrics query, billed minutes cover the seconds talked and
   exceed them by less than one minute per completed call; the average is the total over those calls.
   */
  lemma BillingIsTight(s: State, ops: seq<Op>, q: Query)
    requires Books(s) && ValidRun(s, ops)
    ensures Tight(CallMetrics(After(s, ops), q))
  {
    RunKeepsBooks(s, ops);
    MetricsAreTight(After(s, ops), q);
  }

  /**
   A lead's completed calls in the metrics agree with its completed sessions, which its call counter
   counts, exactly when no completed session of the lead was merged or belongs to another client.
   */
  lemma MetricsAgreeWithCounterIff(s: State, clientId: Id, lead: Id)
    ensures CallMetrics(s, Query(clientId, Some(lead), None, None)).completedCalls == |CompletedOf(s, lead)|
       <==> forall id | id in CompletedOf(s, lead) ::
              s.sessions[id].mergedInto.None? && s.sessions[id].clientId == clientId
  {
    var shown := WithStatus(s.sessions, Matching(s.sessions, Query(clientId, Some(lead), None, None)), Completed);
    ShownInMetrics(s, clientId, lead);
    SubsetSizeIff(CompletedOf(s, lead), shown);
    if shown != CompletedOf(s, lead) {
      var id :| id in CompletedOf(s, lead) && id !in shown;
      assert s.sessions[id].mergedInto.Some? || s.sessions[id].clientId != clientId;
    }
  }

  lemma ShownInMetrics(s: State, clientId: Id, lead: Id)
    ensures var shown := WithStatus(s.sessions, Matching(s.sessions, Query(clientId, Some(lead), None, None)), Completed);
            && shown <= CompletedOf(s, lead)
            && forall id | id in CompletedOf(s, lead) ::
                 id in shown <==> s.sessions[id].mergedInto.None? && s.sessions[id].clientId == clientId
  {}

  lemma SubsetSizeIff(whole: set<Id>, part: set<Id>)
    requires part <= whole
    ensures |part| == |whole| <==> part == whole
  {
    assert whole == part + (whole - part);
  }
}
