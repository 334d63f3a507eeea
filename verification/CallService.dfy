/**
 The call service: operations that update the store step by step, each tied to the value it leaves.
 */
module CallService {
  import opened Prelude
  import opened CallState
  import T = Telephony

  class CallStore {
    var now: int
    var sessions: map<Id, Session>
    var turns: seq<Turn>
    var leads: map<Id, Lead>

    constructor (now: int, leads: map<Id, Lead>)
      ensures Contents() == State(now, map[], [], leads)
    {
      this.now, this.sessions, this.turns, this.leads := now, map[], [], leads;
    }

    ghost function Contents(): State
      reads this
    {
      State(now, sessions, turns, leads)
    }

    /** A session id that is taken is refused and nothing changes. */
    method CreateSession(id: Id, clientId: Id, leadId: Option<Id>, conversationId: Option<Id>,
                         telephony: Option<T.CallStatus>) returns (created: bool)
      modifies this
      ensures created == (id !in old(sessions))
      ensures Contents() == Apply(old(Contents()), Create(id, clientId, leadId, conversationId, telephony))
    {
      created := id !in sessions;
      if created {
        sessions := sessions[id := NewSession(now, clientId, leadId, conversationId, telephony)];
        if Truthy(leadId) && leadId.value in leads {
          var lead := leads[leadId.value];
          if lead.clientId == clientId && lead.status == "new" {
            leads := leads[leadId.value := lead.(status := "called")];
          }
        }
      }
    }

    method AddTranscriptTurn(id: Id, role: string, content: string)
      modifies this`turns
      ensures Contents() == Apply(old(Contents()), AddTurn(id, role, content))
    {
      turns := turns + [Turn(id, role, content, now)];
    }

    /** Turns of one session, grouped by role. */
    method CountTurns(id: Id) returns (user: nat, agent: nat)
      ensures user == CountIn(turns, {id}, "user") && agent == CountIn(turns, {id}, "agent")
    {
      var counts: map<string, nat> := map[];
      for i := 0 to |turns|
        invariant forall role :: (if role in counts then counts[role] else 0) == CountIn(turns[..i], {id}, role)
      {
        assert turns[..i + 1][..i] == turns[..i];
        var turn := turns[i];
        if turn.sessionId == id {
          counts := counts[turn.role := (if turn.role in counts then counts[turn.role] else 0) + 1];
        }
      }
      assert turns[..|turns|] == turns;
      user := if "user" in counts then counts["user"] else 0;
      agent := if "agent" in counts then counts["agent"] else 0;
    }

    method SelectSiblings(id: Id) returns (siblings: seq<Id>)
      requires id in sessions
      ensures Elements(siblings) == Siblings(Contents(), id)
      ensures forall o :: o in siblings <==>
                && o in sessions && o != id
                && sessions[o].clientId == sessions[id].clientId && sessions[o].leadId == sessions[id].leadId
                && (sessions[o].status == Initiated || sessions[o].status == Abandoned)
                && sessions[o].conversationId == None && sessions[o].mergedInto == None
                && sessions[id].startedAt - 600 <= sessions[o].startedAt <= sessions[id].startedAt + 600
    {
      siblings := [];
      var rest := sessions.Keys;
      while rest != {}
        invariant rest <= sessions.Keys
        invariant Elements(siblings) == Siblings(Contents(), id) - rest
      {
        var o :| o in rest;
        if IsSibling(sessions[id], id, sessions[o], o) {
          ElementsAppend(siblings, o);
          siblings := siblings + [o];
        }
        rest := rest - {o};
      }
      assert forall o :: o in siblings <==> o in Elements(siblings);
    }

    /** Re-parents the turns of every sibling, marks the siblings as merged and recounts. */
    method MergeSiblingSessions(id: Id) returns (siblings: seq<Id>)
      requires id in sessions
      modifies this`sessions, this`turns
      ensures Elements(siblings) == Siblings(old(Contents()), id)
      ensures Contents() == SiblingsMerged(old(Contents()), id)
    {
      siblings := SelectSiblings(id);
      if siblings == [] {
        return;
      }
      assert siblings[0] in Elements(siblings);
      MoveTurns(siblings, id);
      LinkSiblings(siblings, id);
      var user, agent := CountTurns(id);
      sessions := sessions[id := sessions[id].(totalUserTurns := user, totalAgentTurns := agent)];
    }

    method LinkSiblings(siblings: seq<Id>, to: Id)
      requires Elements(siblings) <= sessions.Keys
      modifies this`sessions
      ensures sessions == Linked(old(sessions), Elements(siblings), to)
    {
      for k := 0 to |siblings|
        invariant sessions == Linked(old(sessions), Elements(siblings[..k]), to)
      {
        assert siblings[k] in Elements(siblings);
        assert siblings[..k + 1] == siblings[..k] + [siblings[k]];
        ElementsAppend(siblings[..k], siblings[k]);
        sessions := sessions[siblings[k] := sessions[siblings[k]].(mergedInto := Some(to))];
      }
      assert siblings[..|siblings|] == siblings;
    }

    method MoveTurns(from: seq<Id>, to: Id)
      modifies this`turns
      ensures turns == Reparent(old(turns), Elements(from), to)
    {
      for i := 0 to |turns|
        invariant |turns| == |old(turns)|
        invariant forall k | 0 <= k < |turns| ::
                    turns[k] == if k < i then Reparent(old(turns), Elements(from), to)[k] else old(turns)[k]
      {
        if turns[i].sessionId in from {
          turns := turns[i := turns[i].(sessionId := to)];
        }
      }
    }

    /** The field updates shared by every close, up to and excluding the merge. */
    method Complete(id: Id, reason: string, counters: bool)
      requires id in sessions
      modifies this`sessions, this`leads
      ensures Contents() == MarkedCompleted(old(Contents()), id, reason, counters)
    {
      var cs := sessions[id];
      cs := cs.(status := Completed, endedAt := Some(now), closedReason := Some(reason));
      var delta := now - cs.startedAt;
      cs := cs.(durationSeconds := Some(delta), billableMinutes := Some(BillableMinutes(delta)));
      var user, agent := CountTurns(id);
      cs := cs.(totalUserTurns := user, totalAgentTurns := agent);
      if counters && Truthy(cs.leadId) && cs.leadId.value in leads {
        var lead := leads[cs.leadId.value];
        leads := leads[cs.leadId.value := lead.(callCount := lead.callCount + 1, lastCalledAt := Some(now))];
      }
      if cs.telephony.Some? {
        cs := cs.(sessionEndReceived := true);
        if cs.telephony.value !in {T.NoAnswer, T.RecurrentError} {
          cs := cs.(telephony := Some(T.Completed));
        }
      }
      sessions := sessions[id := cs];
    }

    method ApplyVoicemailHeuristic(id: Id)
      requires id in sessions
      modifies this`sessions
      ensures Contents() == VoicemailChecked(old(Contents()), id)
    {
      var cs := sessions[id];
      if cs.telephony == Some(T.Completed) && cs.durationSeconds.Some? {
        if cs.durationSeconds.value < T.VOICEMAIL_MAX_DURATION_SECONDS && cs.totalUserTurns == 0 {
          cs := cs.(telephony := Some(T.Voicemail));
        }
        sessions := sessions[id := cs];
      }
    }

    /** The best open session of the lead without a conversation, if any started recently. */
    method FindOrphan(clientId: Id, leadId: Id) returns (best: Option<Id>)
      ensures best.Some? ==> IsBestOrphan(Contents(), clientId, leadId, best.value)
      ensures best.None? ==> forall o | o in sessions :: !IsOrphan(Contents(), clientId, leadId, o)
      ensures best.Some? ==>
                && best.value in sessions
                && var found := sessions[best.value];
                && found.clientId == clientId && found.leadId == Some(leadId) && found.status == Initiated
                && found.conversationId == None && found.startedAt >= now - 600
      ensures forall o | o in sessions && sessions[o].clientId == clientId && sessions[o].leadId == Some(leadId)
                         && sessions[o].status == Initiated && sessions[o].conversationId == None
                         && sessions[o].startedAt >= now - 600 ::
                && best.Some?
                && var mine := sessions[best.value].totalUserTurns + sessions[best.value].totalAgentTurns;
                   var others := sessions[o].totalUserTurns + sessions[o].totalAgentTurns;
                   others < mine || (others == mine && sessions[o].startedAt <= sessions[best.value].startedAt)
    {
      best := None;
      var rest := sessions.Keys;
      while rest != {}
        invariant rest <= sessions.Keys
        invariant best.Some? ==>
                    && IsOrphan(Contents(), clientId, leadId, best.value)
                    && forall o | o in sessions && o !in rest ::
                         IsOrphan(Contents(), clientId, leadId, o) ==> NoBetter(sessions[o], sessions[best.value])
        invariant best.None? ==>
                    forall o | o in sessions && o !in rest :: !IsOrphan(Contents(), clientId, leadId, o)
      {
        var o :| o in rest;
        var cs := sessions[o];
        if cs.clientId == clientId && cs.leadId == Some(leadId) && cs.status.Initiated? && cs.conversationId.None?
           && cs.startedAt >= now - RECONCILIATION_WINDOW_SECONDS {
          if best.None? || NoBetter(sessions[best.value], cs) {
            best := Some(o);
          }
        }
        rest := rest - {o};
      }
    }

    method ReconcileSession(conversationId: Id, clientId: Id, leadId: Id, reason: string, counters: bool)
      returns (found: Option<Id>)
      modifies this
      ensures found.Some? ==>
                && IsBestOrphan(old(Contents()), clientId, leadId, found.value)
                && Contents() == Reconciled(old(Contents()), found.value, conversationId, reason, counters)
                && found.value in sessions && sessions[found.value].status.Completed?
      ensures found.None? ==>
                && (forall o | o in old(sessions) :: !IsOrphan(old(Contents()), clientId, leadId, o))
                && Contents() == old(Contents())
    {
      found := FindOrphan(clientId, leadId);
      if found.None? {
        return;
      }
      var id := found.value;
      sessions := sessions[id := sessions[id].(conversationId := Some(conversationId))];
      Complete(id, reason, counters);
      var merged := MergeSiblingSessions(id);
    }

    /**
     Closes a session: the result is its id and whether it was already closed, or an error when neither
     the session nor an orphan to reconcile was found.
     */
    method CloseSession(id: Id, reason: string, counters: bool, hintClient: Option<Id>, hintLead: Option<Id>)
      returns (result: Result<(Id, bool), string>, orphan: Option<Id>)
      modifies this
      ensures Enabled(old(Contents()), Close(id, reason, counters, hintClient, hintLead, orphan))
      ensures Contents() == Apply(old(Contents()), Close(id, reason, counters, hintClient, hintLead, orphan))
      ensures result.Err? <==> id !in old(sessions) && orphan.None?
      ensures result.Ok? ==>
                && result.value.0 == (if orphan.Some? then orphan.value else id)
                && result.value.0 in sessions && sessions[result.value.0].status.Completed?
                && (result.value.1 <==> id in old(sessions) && old(sessions)[id].status.Completed?)
      ensures orphan.Some? ==> id !in old(sessions)
    {
      orphan := None;
      if id !in sessions {
        if Truthy(hintClient) && Truthy(hintLead) {
          orphan := ReconcileSession(id, hintClient.value, hintLead.value, reason, counters);
        }
        result := if orphan.None? then Err("CallSession not found") else Ok((orphan.value, false));
        return;
      }
      if sessions[id].status.Completed? {
        result := Ok((id, true));
        return;
      }
      FirstClose(id, reason, counters);
      result := Ok((id, false));
    }

    /** The steps of a close that found its session open: complete, merge siblings, then decide on voicemail. */
    method FirstClose(id: Id, reason: string, counters: bool)
      requires id in sessions
      modifies this
      ensures Contents() == FirstClosed(old(Contents()), id, reason, counters)
      ensures id in sessions && sessions[id].status.Completed?
    {
      Complete(id, reason, counters);
      var merged := MergeSiblingSessions(id);
      ApplyVoicemailHeuristic(id);
    }

    method SelectStale() returns (stale: seq<Id>)
      ensures Elements(stale) == set id | id in sessions && IsStale(now, sessions[id])
      ensures |stale| == |Elements(stale)|
    {
      stale := [];
      var rest := sessions.Keys;
      while rest != {}
        invariant rest <= sessions.Keys
        invariant Elements(stale) == set id | id in sessions && id !in rest && IsStale(now, sessions[id])
        invariant |stale| == |Elements(stale)|
      {
        var id :| id in rest;
        if IsStale(now, sessions[id]) {
          ElementsAppend(stale, id);
          stale := stale + [id];
        }
        rest := rest - {id};
      }
    }

    /** Marks stale open sessions as abandoned; lead counters are not touched. */
    method SweepStaleSessions() returns (abandoned: nat)
      modifies this`sessions
      ensures Contents() == Apply(old(Contents()), Sweep)
      ensures forall id | id in sessions && sessions[id].status == Initiated :: sessions[id].startedAt >= now - 600
      ensures forall id | id in sessions && sessions[id] != old(sessions)[id] ::
                && old(sessions)[id].status == Initiated && old(sessions)[id].startedAt < now - 600
                && sessions[id].status == Abandoned && sessions[id].endedAt == Some(now)
      ensures abandoned == |set id | id in old(sessions) && IsStale(now, old(sessions)[id])|
    {
      var stale := SelectStale();
      ghost var before := sessions;
      for k := 0 to |stale|
        invariant sessions.Keys == before.Keys
        invariant forall id | id in sessions ::
                    sessions[id] == if id in stale[..k] then SweptRow(now, before[id]) else before[id]
      {
        assert stale[k] in Elements(stale);
        assert stale[..k + 1] == stale[..k] + [stale[k]];
        var cs := sessions[stale[k]];
        cs := cs.(status := Abandoned, endedAt := Some(now));
        if cs.closedReason.None? {
          cs := cs.(closedReason := Some("timeout"));
        }
        sessions := sessions[stale[k] := cs];
      }
      assert stale[..|stale|] == stale;
      forall id | id in before ensures sessions[id] == SweptRow(now, before[id]) {
        assert id in Elements(stale) <==> IsStale(now, before[id]);
      }
      abandoned := |stale|;
    }

    /** A post-call webhook for a session that has been found. */
    method PostCallDelivery(id: Id, transcript: seq<Message>)
      requires id in sessions
      modifies this
      ensures Contents() == Apply(old(Contents()), Deliver(id, transcript))
    {
      if sessions[id].status.Initiated? {
        var result, orphan := CloseSession(id, "network_drop", true, None, None);
      } else if sessions[id].status.Completed? {
        var existing := GetTranscript(id);
        if |transcript| > |existing| {
          StoreTurns(id, transcript[|existing|..]);
        }
      }
    }

    /** Appends the messages that carry a text. */
    method StoreTurns(id: Id, extra: seq<Message>)
      modifies this`turns
      ensures turns == old(turns) + Stored(id, extra, now)
    {
      for k := 0 to |extra|
        invariant turns == old(turns) + Stored(id, extra[..k], now)
      {
        assert extra[..k + 1][..k] == extra[..k];
        var role := if extra[k].role.Some? then extra[k].role.value else "unknown";
        if Truthy(extra[k].text) {
          AddTranscriptTurn(id, role, extra[k].text.value);
        }
      }
      assert extra[..|extra|] == extra;
    }

    method GetTranscript(id: Id) returns (own: seq<Turn>)
      ensures own == TurnsOf(turns, id)
    {
      own := [];
      for i := 0 to |turns|
        invariant own == TurnsOf(turns[..i], id)
      {
        assert turns[..i + 1][..i] == turns[..i];
        if turns[i].sessionId == id {
          own := own + [turns[i]];
        }
      }
      assert turns[..|turns|] == turns;
    }

    method EndSession(id: Id, outcome: SessionStatus, duration: int) returns (found: bool)
      modifies this`sessions
      ensures found == (id in old(sessions))
      ensures Contents() == Apply(old(Contents()), End(id, outcome, duration))
    {
      found := id in sessions;
      if found {
        var cs := sessions[id];
        cs := cs.(endedAt := Some(now), durationSeconds := Some(duration));
        cs := cs.(outcome := Some(outcome), status := outcome, billableMinutes := Some(BillableMinutes(duration)));
        sessions := sessions[id := cs];
      }
    }

    method LinkOutboundSession(id: Id, conversation: Id)
      requires id in sessions && sessions[id].telephony.Some?
      modifies this`sessions
      ensures Contents() == Apply(old(Contents()), Link(id, conversation))
    {
      var cs := sessions[id];
      if cs.telephony != Some(T.Completed) {
        if cs.conversationId.None? {
          cs := cs.(conversationId := Some(conversation));
        }
        cs := cs.(telephony := Some(T.Completed), sessionEndReceived := true);
        sessions := sessions[id := cs];
      }
    }
  }

  function Elements(ids: seq<Id>): set<Id> {
    set id | id in ids
  }

  lemma ElementsAppend(ids: seq<Id>, id: Id)
    ensures Elements(ids + [id]) == Elements(ids) + {id}
  {}
}
