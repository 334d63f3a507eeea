/**
 The summarizer at work on a database session: a transaction, a savepoint inside it, and writes
 that can fail one by one.
 */
module SummarizerService {
  import opened Prelude
  import opened FactStore
  import opened Summarizer

  class DbSession {
    var db: Db            // as the current transaction sees it
    var committed: Db     // as every other transaction sees it

    constructor (db: Db)
      ensures this.db == db && committed == db
    {
      this.db, this.committed := db, db;
    }

    method Commit()
      modifies this`committed
      ensures committed == db
    {
      committed := db;
    }

    method Rollback()
      modifies this`db
      ensures db == committed
    {
      db := committed;
    }

    /** Selects the active row of a key; more than one is an error. */
    method FindActive(leadId: string, key: string) returns (found: Lookup)
      ensures found == Find(db.facts, leadId, key)
    {
      found := Missing;
      for i := 0 to |db.facts|
        invariant found == Find(db.facts[..i], leadId, key)
      {
        assert db.facts[..i + 1][..i] == db.facts[..i];
        if Active(db.facts[i], leadId, key) {
          found := if found.Missing? then One(i) else Multiple;
        }
      }
      assert db.facts[..|db.facts|] == db.facts;
    }

    /** One write of one of the three writers; false when its lookup raised. */
    method PutFact(leadId: string, write: Write, source: Option<string>, now: int) returns (ok: bool)
      modifies this`db
      ensures ok == Put(old(db.facts), leadId, write, source, now).Some?
      ensures ok ==> db == old(db).(facts := Put(old(db.facts), leadId, write, source, now).value)
      ensures !ok ==> db == old(db)
    {
      ok := true;
      match write {
        case Supersede(key, value) =>
          var existing := FindActive(leadId, key);
          if existing.Multiple? { return false; }
          if existing.One? {
            var row := db.facts[existing.index];
            if row.value == value { return; }
            db := db.(facts := db.facts[existing.index := row.(supersededAt := Some(now))]);
          }
          Insert(Fact(leadId, key, value, source, None));
        case AddOnce(key, value) =>
          var existing := FindActive(leadId, key);
          if existing.Multiple? { return false; }
          if existing.Missing? {
            Insert(Fact(leadId, key, value, source, None));
          }
        case PipelineAdd(key, value) =>
          Insert(Fact(leadId, key, value, source, None));
        case PipelineUpdate(target, key, value) =>
          ok := DeleteTarget(leadId, target);
          if ok {
            Insert(Fact(leadId, key, value, source, None));
          }
        case PipelineRemove(target) =>
          ok := DeleteTarget(leadId, target);
      }
    }

    method Insert(fact: Fact)
      modifies this`db
      ensures db == old(db).(facts := old(db.facts) + [fact])
    {
      db := db.(facts := db.facts + [fact]);
    }

    method DeleteTarget(leadId: string, target: Option<string>) returns (ok: bool)
      modifies this`db
      ensures ok == Deleted(old(db.facts), leadId, target).Some?
      ensures ok ==> db == old(db).(facts := Deleted(old(db.facts), leadId, target).value)
      ensures !ok ==> db == old(db)
    {
      ok := true;
      if Truthy(target) {
        var existing := FindActive(leadId, target.value);
        if existing.Multiple? { return false; }
        if existing.One? {
          db := db.(facts := db.facts[..existing.index] + db.facts[existing.index + 1..]);
        }
      }
    }

    /** All fact writes of a call; `ok` is false when one of them failed, and then some may have been made. */
    method WriteFacts(leadId: string, a: Attempt) returns (ok: bool)
      requires a.reply.Answer?
      modifies this`db
      ensures var after := PutAll(old(db.facts), Log(leadId, a.sessionId, Writes(a.reply.facts), a.now));
              && ok == (after.Some? && !FactFault(a, |Writes(a.reply.facts)|))
              && (ok ==> db == old(db).(facts := after.value))
    {
      var writes := Writes(a.reply.facts);
      ghost var log := Log(leadId, a.sessionId, writes, a.now);
      for i := 0 to |writes|
        invariant PutAll(old(db.facts), log[..i]).Some?
        invariant db == old(db).(facts := PutAll(old(db.facts), log[..i]).value)
        invariant !FactFault(a, i)
      {
        if FactWrite(i) in a.faults { return false; }
        PutAllStep(old(db.facts), log, i);
        var put := PutFact(leadId, writes[i], Some(a.sessionId), a.now);
        if !put {
          PrefixFails(old(db.facts), log, i + 1);
          return false;
        }
      }
      assert log[..|writes|] == log;
      ok := true;
    }

    /** Inserts or updates the analysis row of a session; false when several rows were found. */
    method UpsertAnalysis(row: AnalysisRow, keepAnalysis: bool) returns (ok: bool)
      modifies this`db
      ensures ok == Upserted(old(db.analyses), row, keepAnalysis).Some?
      ensures ok ==> db == old(db).(analyses := Upserted(old(db.analyses), row, keepAnalysis).value)
      ensures !ok ==> db == old(db)
    {
      var count, at := 0, 0;
      for i := 0 to |db.analyses|
        invariant count == AnalysisCount(db.analyses[..i], row.sessionId)
        invariant count > 0 ==> at < i && db.analyses[at].sessionId == row.sessionId
        invariant count == 0 ==> forall k | 0 <= k < i :: db.analyses[k].sessionId != row.sessionId
        invariant count == 1 ==> forall k | 0 <= k < i && k != at :: db.analyses[k].sessionId != row.sessionId
      {
        assert db.analyses[..i + 1][..i] == db.analyses[..i];
        if db.analyses[i].sessionId == row.sessionId {
          count, at := count + 1, i;
        }
      }
      assert db.analyses[..|db.analyses|] == db.analyses;
      if count > 1 { return false; }
      if count == 0 {
        db := db.(analyses := db.analyses + [row]);
      } else {
        var found := db.analyses[at];
        var updated := if keepAnalysis then row.(summary := found.summary, facts := found.facts) else row;
        db := db.(analyses := db.analyses[at := updated]);
      }
      ok := true;
    }

    /** Merges the facts of a call into its lead and writes the derived rows; an unknown lead is left alone. */
    method MergeFactsIntoLead(leadId: string, clientId: string, a: Attempt) returns (ok: bool)
      requires a.reply.Answer?
      modifies this`db
      ensures ok <==>
                && MergeLead !in a.faults && Merged(old(db), a, leadId, clientId).Some?
                && (leadId in old(db.leads) ==> !FactFault(a, |Writes(a.reply.facts)|))
      ensures ok ==> db == Merged(old(db), a, leadId, clientId).value
    {
      if MergeLead in a.faults { return false; }
      if leadId !in db.leads { return true; }
      var lead := UpdateLead(db.leads[leadId], clientId, a);
      db := db.(leads := db.leads[leadId := lead]);
      ok := WriteFacts(leadId, a);
      if ok && a.reply.facts.interestLevel.Some? {
        db := db.(history := db.history + [Interest(leadId, Clamp(a.reply.facts.interestLevel.value), a.sessionId)]);
      }
    }

    /** The same for the lead of a call, if it has one. */
    method MergeLinkedLead(leadId: Option<string>, clientId: string, a: Attempt) returns (ok: bool)
      requires a.reply.Answer?
      modifies this`db
      ensures ok <==> Mergeable(old(db), a, leadId) && MergedLinked(old(db), a, leadId, clientId).Some?
      ensures ok ==> db == MergedLinked(old(db), a, leadId, clientId).value
    {
      ok := true;
      if Truthy(leadId) {
        ok := MergeFactsIntoLead(leadId.value, clientId, a);
      }
    }

    /** The columns of the lead that follow the latest call. */
    method MergeCall(row: LeadRow, summary: string, f: CallFacts) returns (lead: LeadRow)
      ensures lead == CallMerged(row, summary, f)
    {
      lead := row.(summaryLastCall := Some(summary), objectionsHeard := row.objectionsHeard + f.objectionCategories);
      if f.interestLevel.Some? {
        lead := lead.(interestLevel := f.interestLevel);
      }
      lead := lead.(extracted := row.extracted + f.extracted);
      if Refuses(f) {
        lead := lead.(doNotCall := true);
      }
      if f.nextActionResult.Some? && f.nextActionResult.value.at.Some? {
        lead := lead.(nextActionAt := f.nextActionResult.value.at);
      }
      if Truthy(f.nextAction) {
        lead := lead.(nextAction := f.nextAction);
      }
    }

    /** All columns of the lead, with corrections before the status. */
    method UpdateLead(row: LeadRow, clientId: string, a: Attempt) returns (lead: LeadRow)
      requires a.reply.Answer?
      ensures lead == LeadMerged(row, clientId, a.reply.summary, a.reply.facts, a.quoteReady)
    {
      var f := a.reply.facts;
      lead := MergeCall(row, a.reply.summary, f);
      lead := ApplyCorrections(lead, f.corrections);
      lead := ApplyCustomCorrections(lead, clientId, f.corrections);
      lead := lead.(status := NextStatus(lead.status, f.nextActionResult, a.quoteReady));
    }

    /** Writes the accepted corrections to the lead. */
    method ApplyCorrections(lead: LeadRow, corrections: seq<Correction>) returns (corrected: LeadRow)
      ensures corrected == lead.(fields := Corrected(lead.fields, corrections))
    {
      corrected := lead;
      for i := 0 to |corrections|
        invariant corrected == lead.(fields := Corrected(lead.fields, corrections[..i]))
      {
        assert corrections[..i + 1][..i] == corrections[..i];
        var c := corrections[i];
        if Accepted(c) {
          corrected := corrected.(fields := corrected.fields[c.field := c.coerced.value]);
        }
      }
      assert corrections[..|corrections|] == corrections;
    }

    /** Writes those of the accepted corrections to the lead's custom fields that are kept there. */
    method ApplyCustomCorrections(lead: LeadRow, clientId: string, corrections: seq<Correction>) returns (corrected: LeadRow)
      ensures corrected == lead.(customFields := CustomCorrected(lead.customFields, clientId, corrections))
    {
      corrected := lead;
      if clientId == "" { return; }
      for i := 0 to |corrections|
        invariant corrected == lead.(customFields := CustomCorrected(lead.customFields, clientId, corrections[..i]))
      {
        assert corrections[..i + 1][..i] == corrections[..i];
        var c := corrections[i];
        if Accepted(c) && c.field in CUSTOM_FIELDS {
          corrected := corrected.(customFields := corrected.customFields[CustomField(clientId, c.field) := c.coerced.value]);
        }
      }
      assert corrections[..|corrections|] == corrections;
    }

    method CountTurns(roles: seq<string>, role: string) returns (count: nat)
      ensures count == CountRole(roles, role)
    {
      count := 0;
      for i := 0 to |roles|
        invariant count == CountRole(roles[..i], role)
      {
        assert roles[..i + 1][..i] == roles[..i];
        if roles[i] == role {
          count := count + 1;
        }
      }
      assert roles[..|roles|] == roles;
    }

    /** The savepoint around the results of a run: on any failure the database is as it was before. */
    method PersistAnalysis(a: Attempt, leadId: Option<string>, clientId: string, roles: seq<string>) returns (ok: bool)
      requires a.reply.Answer? && a.sessionId in db.sessions
      modifies this`db
      ensures ok == (Writable(old(db), a, leadId) && Persisted(old(db), a, leadId, clientId, roles).Some?)
      ensures db == if ok then Persisted(old(db), a, leadId, clientId, roles).value else old(db)
    {
      var savepoint := db;
      ok := WriteAnalysis(a, leadId, clientId, roles);
      if !ok {
        db := savepoint;
      }
    }

    /** The summary and turn totals of the session; the result is its row. */
    method WriteTotals(a: Attempt, roles: seq<string>) returns (cs: SessionRow)
      requires a.reply.Answer? && a.sessionId in db.sessions
      modifies this`db
      ensures cs == old(db).sessions[a.sessionId].(summary := Some(a.reply.summary), userTurns := CountRole(roles, "user"),
                                                   agentTurns := CountRole(roles, "agent"))
      ensures db == old(db).(sessions := old(db).sessions[a.sessionId := cs])
    {
      var user := CountTurns(roles, "user");
      var agent := CountTurns(roles, "agent");
      cs := db.sessions[a.sessionId].(summary := Some(a.reply.summary), userTurns := user, agentTurns := agent);
      db := db.(sessions := db.sessions[a.sessionId := cs]);
    }

    /** The writes inside the savepoint; when one fails, the earlier ones have been made. */
    method WriteAnalysis(a: Attempt, leadId: Option<string>, clientId: string, roles: seq<string>) returns (ok: bool)
      requires a.reply.Answer? && a.sessionId in db.sessions
      modifies this`db
      ensures ok == (Writable(old(db), a, leadId) && Persisted(old(db), a, leadId, clientId, roles).Some?)
      ensures ok ==> db == Persisted(old(db), a, leadId, clientId, roles).value
    {
      if WriteSession in a.faults { return false; }
      var cs := WriteTotals(a, roles);
      MergingKeepsSessions(old(db), a, leadId, clientId, db.sessions);
      ok := MergeLinkedLead(leadId, clientId, a);
      if !ok { return; }
      cs := cs.(extracted := Extracted(a.reply.facts));
      db := db.(sessions := db.sessions[a.sessionId := cs]);
      if Point.WriteAnalysis in a.faults { return false; }
      ok := UpsertAnalysis(AnalysisRow(a.sessionId, leadId, clientId, Some(a.reply.summary), Some(a.reply.facts), "ok", None), false);
      if ok && ReleaseSavepoint in a.faults { ok := false; }
    }

    /** The savepoint around the failure marker. */
    method PersistMarker(a: Attempt, leadId: Option<string>, clientId: string, roles: seq<string>) returns (ok: bool)
      requires a.reply.Failure? && a.sessionId in db.sessions
      modifies this`db
      ensures ok == (WriteMarker !in a.faults && Marked(old(db), a, leadId, clientId, roles).Some?)
      ensures db == if ok then Marked(old(db), a, leadId, clientId, roles).value else old(db)
    {
      var savepoint := db;
      var user := CountTurns(roles, "user");
      var agent := CountTurns(roles, "agent");
      var cs := db.sessions[a.sessionId].(userTurns := user, agentTurns := agent);
      cs := cs.(extracted := FailedAnalysis(a.reply.error));
      db := db.(sessions := db.sessions[a.sessionId := cs]);
      ok := WriteMarker !in a.faults;
      if ok {
        ok := UpsertAnalysis(AnalysisRow(a.sessionId, leadId, clientId, None, None, "failed", Some(a.reply.error)), true);
      }
      if !ok {
        db := savepoint;
      }
    }

    /** One attempt inside its own transaction, as the background task or the job executor runs it. */
    method Summarize(a: Attempt) returns (raised: bool)
      requires db == committed
      modifies this
      ensures db == committed == Run(old(db), a).db
      ensures raised == Run(old(db), a).raised
    {
      raised := RunSummarizer(a);
      if raised && a.durable {
        Rollback();
        return;
      }
      // the legacy entry point swallows the exception, so its transaction is committed
      if FinalCommit in a.faults {
        Rollback();
        raised := a.durable;
      } else {
        Commit();
        raised := false;
      }
    }

    method RunSummarizer(a: Attempt) returns (raised: bool)
      requires db == committed
      modifies this
      ensures raised ==> committed == db
      ensures raised && a.durable ==> Run(old(db), a) == Outcome(committed, true)
      ensures !a.durable && (raised || FinalCommit in a.faults) ==> Run(old(db), a) == Outcome(committed, false)
      ensures !raised && FinalCommit in a.faults && a.durable ==> Run(old(db), a) == Outcome(committed, true)
      ensures !raised && FinalCommit !in a.faults ==> Run(old(db), a) == Outcome(db, false)
    {
      if ReadTurns in a.faults { return true; }
      if a.sessionId !in db.turns || db.turns[a.sessionId] == [] { return false; }
      if a.sessionId !in db.sessions { return false; }
      if ReadContext in a.faults { return true; }
      var roles := db.turns[a.sessionId];
      var leadId, clientId := db.sessions[a.sessionId].leadId, db.sessions[a.sessionId].clientId;
      Rollback();
      // the model call runs without a transaction; others may commit meanwhile
      if a.world.Some? {
        db, committed := a.world.value.db, a.world.value.db;
      }
      if a.reply.Failure? {
        if LoadForMarker in a.faults { return true; }
        if a.sessionId in db.sessions {
          var ok := PersistMarker(a, leadId, clientId, roles);
          if !ok { return true; }
          if CommitMarker in a.faults { Rollback(); return true; }
          Commit();
        }
        return a.durable;
      }
      if LoadSession in a.faults { return true; }
      if a.sessionId !in db.sessions { return false; }
      var ok := PersistAnalysis(a, leadId, clientId, roles);
      if !ok { return true; }
      // a failing CRM enqueue is logged and swallowed, whether or not EnqueueCrm is among the faults
      return false;
    }
  }
}
