/**
 What holds of one summarizer run whichever step fails, and of any sequence of runs.
 */
module SummarizerRuns {
  import opened Prelude
  import opened FactStore
  import opened ProfileValidation
  import opened Summarizer

  // ---------- One run: all or nothing ----------

  /** The rows are unchanged, but for the failure marker on the session's row, which may be new. */
  ghost predicate MarkerOnly(before: seq<AnalysisRow>, after: seq<AnalysisRow>, sessionId: string) {
    && |before| <= |after| <= |before| + 1
    && (|after| == |before| + 1 ==>
          && AnalysisCount(before, sessionId) == 0
          && after[|before|].sessionId == sessionId && after[|before|].status == "failed"
          && after[|before|].facts.None? && after[|before|].summary.None?)
    && forall i | 0 <= i < |before| ::
         if before[i].sessionId != sessionId then after[i] == before[i]
         else
           && after[i].sessionId == sessionId && after[i].status == "failed"
           && after[i].facts == before[i].facts && after[i].summary == before[i].summary
  }

  /** The database is as it was, but for the failure marker and the turn totals of the session. */
  ghost predicate FailureNoted(w: Db, t: Db, sessionId: string) {
    && t.turns == w.turns && t.leads == w.leads && t.facts == w.facts && t.history == w.history
    && sessionId in w.sessions && sessionId in t.sessions && t.sessions[sessionId].extracted.FailedAnalysis?
    && t.sessions == w.sessions[sessionId := w.sessions[sessionId].(
         userTurns := t.sessions[sessionId].userTurns, agentTurns := t.sessions[sessionId].agentTurns,
         extracted := t.sessions[sessionId].extracted)]
    && MarkerOnly(w.analyses, t.analyses, sessionId)
  }

  lemma {:induction false} CountAbsent(analyses: seq<AnalysisRow>, sessionId: string)
    ensures AnalysisCount(analyses, sessionId) == 0 <==> forall i | 0 <= i < |analyses| :: analyses[i].sessionId != sessionId
  {
    if analyses != [] {
      CountAbsent(analyses[..|analyses| - 1], sessionId);
      assert analyses == analyses[..|analyses| - 1] + [analyses[|analyses| - 1]];
    }
  }

  lemma MarkedNotesFailure(w: Db, a: Attempt, leadId: Option<string>, clientId: string, roles: seq<string>)
    requires a.sessionId in w.sessions && a.reply.Failure? && Marked(w, a, leadId, clientId, roles).Some?
    ensures FailureNoted(w, Marked(w, a, leadId, clientId, roles).value, a.sessionId)
  {
    CountAbsent(w.analyses, a.sessionId);
  }

  /** The results of the run, on top of what other transactions committed while the model ran. */
  ghost predicate ResultsWritten(db: Db, a: Attempt, t: Db) {
    && !NothingToDo(db, a.sessionId) && a.reply.Answer? && a.sessionId in World(db, a).sessions
    && var cs := db.sessions[a.sessionId];
    && Persisted(World(db, a), a, cs.leadId, cs.clientId, db.turns[a.sessionId]) == Some(t)
  }

  /**
   Whatever step fails, a run commits all of its results or none: otherwise the database is as other
   transactions left it, apart from the failure marker and the turn totals.
   */
  lemma AllOrNothing(db: Db, a: Attempt)
    ensures var t := Run(db, a).db;
            || ResultsWritten(db, a, t)
            || t == db || t == World(db, a)
            || (a.reply.Failure? && FailureNoted(World(db, a), t, a.sessionId))
  {
    if ReadTurns !in a.faults && !NothingToDo(db, a.sessionId) && ReadContext !in a.faults && a.reply.Failure? {
      var cs := db.sessions[a.sessionId];
      var w := World(db, a);
      if a.sessionId in w.sessions && Marked(w, a, cs.leadId, cs.clientId, db.turns[a.sessionId]).Some? {
        MarkedNotesFailure(w, a, cs.leadId, cs.clientId, db.turns[a.sessionId]);
      }
    }
  }

  /**
   The durable entry point returns normally only if there was nothing to do, the results are all
   committed, or the session was gone when the model answered. If it raises, no results are committed.
   The legacy entry point never raises.
   */
  lemma DurableOutcome(db: Db, a: Attempt)
    ensures !Run(db, a).raised && a.durable ==>
              || NothingToDo(db, a.sessionId)
              || ResultsWritten(db, a, Run(db, a).db)
              || a.sessionId !in World(db, a).sessions
    ensures Run(db, a).raised ==>
              || Run(db, a).db == db || Run(db, a).db == World(db, a)
              || (a.reply.Failure? && FailureNoted(World(db, a), Run(db, a).db, a.sessionId))
    ensures !a.durable ==> !Run(db, a).raised
  {
    AllOrNothing(db, a);
  }

  /** The one failure the durable entry point keeps quiet about: a session deleted while the model ran. */
  lemma VanishedSessionIsSilent(db: Db, a: Attempt)
    requires a.durable && FinalCommit !in a.faults && a.reply.Answer? && !NothingToDo(db, a.sessionId)
    requires ReadTurns !in a.faults && ReadContext !in a.faults && LoadSession !in a.faults
    ensures !Run(db, a).raised && !ResultsWritten(db, a, Run(db, a).db) <==> a.sessionId !in World(db, a).sessions
  {}

  // ---------- Sequences of runs ----------

  function AfterRuns(db: Db, attempts: seq<Attempt>): Db {
    if attempts == [] then db
    else Run(AfterRuns(db, attempts[..|attempts| - 1]), attempts[|attempts| - 1]).db
  }

  ghost predicate OneAnalysis(analyses: seq<AnalysisRow>) {
    forall i, j | 0 <= i < j < |analyses| :: analyses[i].sessionId != analyses[j].sessionId
  }

  lemma UpsertKeepsOne(analyses: seq<AnalysisRow>, row: AnalysisRow, keepAnalysis: bool)
    requires OneAnalysis(analyses) && Upserted(analyses, row, keepAnalysis).Some?
    ensures OneAnalysis(Upserted(analyses, row, keepAnalysis).value)
  {
    CountAbsent(analyses, row.sessionId);
  }

  /** Any sequence of runs, failed or not, leaves at most one analysis row per session. */
  lemma {:induction false} RunsKeepOneAnalysis(db: Db, attempts: seq<Attempt>)
    requires OneAnalysis(db.analyses)
    requires forall a | a in attempts && a.world.Some? :: OneAnalysis(a.world.value.db.analyses)
    ensures OneAnalysis(AfterRuns(db, attempts).analyses)
  {
    if attempts != [] {
      var before, a := attempts[..|attempts| - 1], attempts[|attempts| - 1];
      RunsKeepOneAnalysis(db, before);
      var s := AfterRuns(db, before);
      assert OneAnalysis(World(s, a).analyses);
      RunKeepsOneAnalysis(s, a);
    }
  }

  lemma RunKeepsOneAnalysis(db: Db, a: Attempt)
    requires OneAnalysis(db.analyses) && OneAnalysis(World(db, a).analyses)
    ensures OneAnalysis(Run(db, a).db.analyses)
  {
    if !NothingToDo(db, a.sessionId) {
      var cs := db.sessions[a.sessionId];
      var w := World(db, a);
      var row := if a.reply.Answer?
                 then AnalysisRow(a.sessionId, cs.leadId, cs.clientId, Some(a.reply.summary), Some(a.reply.facts), "ok", None)
                 else AnalysisRow(a.sessionId, cs.leadId, cs.clientId, None, None, "failed", Some(a.reply.error));
      if Upserted(w.analyses, row, a.reply.Failure?).Some? {
        UpsertKeepsOne(w.analyses, row, a.reply.Failure?);
      }
    }
  }

  // ---------- What a lead remembers ----------

  /** Refusals, heard objections and finished sales stages are never forgotten; history only grows. */
  ghost predicate LeadRemembers(before: LeadRow, after: LeadRow) {
    && (before.doNotCall ==> after.doNotCall)
    && before.objectionsHeard <= after.objectionsHeard
    && before.extracted.Keys <= after.extracted.Keys
    && before.fields.Keys <= after.fields.Keys
    && (before.status != "called" ==> after.status == before.status)
    && (after.status != before.status ==> after.status in {"quoted", "follow_up", "not_interested"})
  }

  ghost predicate Remembers(s: Db, t: Db) {
    && (forall l | l in s.leads :: l in t.leads && LeadRemembers(s.leads[l], t.leads[l]))
    && s.history <= t.history
    && (forall i | |s.history| <= i < |t.history| :: 0 <= t.history[i].level <= 100)
  }

  lemma {:induction false} CorrectedKeys(fields: map<string, string>, corrections: seq<Correction>)
    ensures fields.Keys <= Corrected(fields, corrections).Keys
  {
    if corrections != [] {
      CorrectedKeys(fields, corrections[..|corrections| - 1]);
    }
  }

  lemma RemembersTransitive(s: Db, t: Db, u: Db)
    requires Remembers(s, t) && Remembers(t, u)
    ensures Remembers(s, u)
  {
    forall i | |s.history| <= i < |u.history| ensures 0 <= u.history[i].level <= 100 {
      if i < |t.history| { assert u.history[i] == t.history[i]; }
    }
  }

  lemma MergedRemembers(lead: LeadRow, clientId: string, summary: string, f: CallFacts, quoteReady: bool)
    ensures LeadRemembers(lead, LeadMerged(lead, clientId, summary, f, quoteReady))
  {
    CorrectedKeys(lead.fields, f.corrections);
  }

  lemma RunRemembers(db: Db, a: Attempt)
    requires Remembers(db, World(db, a))
    ensures Remembers(db, Run(db, a).db)
  {
    AllOrNothing(db, a);
    var t := Run(db, a).db;
    if ResultsWritten(db, a, t) {
      var w, leadId, clientId := World(db, a), db.sessions[a.sessionId].leadId, db.sessions[a.sessionId].clientId;
      if Truthy(leadId) && leadId.value in w.leads {
        MergedRemembers(w.leads[leadId.value], clientId, a.reply.summary, a.reply.facts, a.quoteReady);
      }
      assert Remembers(w, t);
      RemembersTransitive(db, w, t);
    }
  }

  /** What other transactions commit during the runs forgets nothing either. */
  ghost predicate OthersRemember(db: Db, attempts: seq<Attempt>) {
    attempts != [] ==>
      var before := attempts[..|attempts| - 1];
      var s := AfterRuns(db, before);
      OthersRemember(db, before) && Remembers(s, World(s, attempts[|attempts| - 1]))
  }

  /**
   Over any sequence of runs, with others at work meanwhile, every lead keeps its refusal flag, its
   objections and a status past `called`, and the history of interest only grows.
   */
  lemma {:induction false} RunsRemember(db: Db, attempts: seq<Attempt>)
    requires OthersRemember(db, attempts)
    ensures Remembers(db, AfterRuns(db, attempts))
  {
    if attempts != [] {
      var before := attempts[..|attempts| - 1];
      RunsRemember(db, before);
      RunRemembers(AfterRuns(db, before), attempts[|attempts| - 1]);
      RemembersTransitive(db, AfterRuns(db, before), AfterRuns(db, attempts));
    }
  }

  /** A close decision that carries no call outcome never moves the lead. */
  lemma CloseWithoutOutcomeKeepsStatus(status: string, result: NextAction, quoteReady: bool)
    requires result.outcome.None?
    ensures NextStatus(status, Some(result), quoteReady) != status
       <==> status == "called" && result.action in {"follow_up", "schedule_call"}
  {}

  // ---------- The fact table is the log of the successful runs ----------

  /** The run gets as far as asking the model, during which other transactions may commit. */
  predicate AsksModel(db: Db, a: Attempt) {
    ReadTurns !in a.faults && !NothingToDo(db, a.sessionId) && ReadContext !in a.faults
  }

  /** Fact writes that a run commits. */
  ghost function RunLog(db: Db, a: Attempt): seq<Entry> {
    if AsksModel(db, a) && ResultsWritten(db, a, Run(db, a).db)
       && Truthy(db.sessions[a.sessionId].leadId) && db.sessions[a.sessionId].leadId.value in World(db, a).leads
    then Log(db.sessions[a.sessionId].leadId.value, a.sessionId, Writes(a.reply.facts), a.now)
    else []
  }

  function OthersLog(a: Attempt): seq<Entry> {
    if a.world.Some? then a.world.value.writes else []
  }

  /** Fact writes of others that are committed during a run, followed by its own. */
  ghost function StepLog(db: Db, a: Attempt): seq<Entry> {
    (if AsksModel(db, a) then OthersLog(a) else []) + RunLog(db, a)
  }

  /** The facts that a run finds when the model has answered are those it read, with the writes of others. */
  ghost predicate Logged(db: Db, a: Attempt) {
    PutAll(db.facts, OthersLog(a)) == Some(World(db, a).facts)
  }

  lemma RunLogged(db: Db, a: Attempt)
    requires Logged(db, a)
    ensures PutAll(db.facts, StepLog(db, a)) == Some(Run(db, a).db.facts)
  {
    if AsksModel(db, a) {
      AllOrNothing(db, a);
      PutAllAppend(db.facts, OthersLog(a), RunLog(db, a));
    }
  }

  ghost function WholeLog(db: Db, attempts: seq<Attempt>): seq<Entry> {
    if attempts == [] then []
    else
      var before, last := attempts[..|attempts| - 1], attempts[|attempts| - 1];
      WholeLog(db, before) + StepLog(AfterRuns(db, before), last)
  }

  ghost predicate AllLogged(db: Db, attempts: seq<Attempt>) {
    attempts != [] ==>
      var before, last := attempts[..|attempts| - 1], attempts[|attempts| - 1];
      AllLogged(db, before) && Logged(AfterRuns(db, before), last)
  }

  /** The committed fact table is exactly what the writes of the successful runs and of the others make of it. */
  lemma {:induction false} FactsAreTheLog(db: Db, attempts: seq<Attempt>)
    requires AllLogged(db, attempts)
    ensures PutAll(db.facts, WholeLog(db, attempts)) == Some(AfterRuns(db, attempts).facts)
  {
    if attempts != [] {
      var before, last := attempts[..|attempts| - 1], attempts[|attempts| - 1];
      var s := AfterRuns(db, before);
      FactsAreTheLog(db, before);
      RunLogged(s, last);
      PutAllAppend(db.facts, WholeLog(db, before), StepLog(s, last));
    }
  }

  const PREFIXES: set<string> := {"pain:", "service_issue:", "objection:", "signal:"}

  /** Superseding writes have plain keys; a list-type key is its prefix and its value. */
  predicate WellKeyed(write: Write) {
    match write
    case Supersede(key, _) => ':' !in key
    case AddOnce(key, value) => exists p | p in PREFIXES :: key == p + value
    case PipelineAdd(key, _) => InProfile(key)
    case PipelineUpdate(_, key, _) => InProfile(key)
    case PipelineRemove(_) => true
  }

  lemma {:induction false} CorrectionsWellKeyed(corrections: seq<Correction>)
    ensures forall w | w in CorrectionWrites(corrections) :: WellKeyed(w) && !FromPipeline(w)
  {
    if corrections != [] {
      CorrectionsWellKeyed(corrections[..|corrections| - 1]);
      assert forall f | f in CORRECTABLE_FIELDS :: ':' !in f;
    }
  }

  lemma {:induction false} ListsWellKeyed(prefix: string, keys: seq<Option<string>>)
    requires prefix in PREFIXES
    ensures forall w | w in ListWrites(prefix, keys) :: WellKeyed(w) && !FromPipeline(w)
  {
    if keys != [] {
      ListsWellKeyed(prefix, keys[..|keys| - 1]);
      var last := keys[|keys| - 1];
      if Truthy(last) {
        assert WellKeyed(AddOnce(prefix + last.value, last.value));
      }
    }
  }

  lemma {:induction false} PipelineWellKeyed(updates: seq<ProfileUpdate>)
    ensures forall w | w in PipelineWrites(updates) :: WellKeyed(w)
  {
    if updates != [] {
      PipelineWellKeyed(updates[..|updates| - 1]);
      var u := updates[|updates| - 1];
      assert InProfile("profile:" + u.category + ":" + u.slug) by {
        assert "profile:" + u.category + ":" + u.slug == "profile:" + (u.category + ":" + u.slug);
      }
    }
  }

  lemma WritesWellKeyed(f: CallFacts)
    ensures forall w | w in Writes(f) :: WellKeyed(w) && (FromPipeline(w) ==> w in PipelineWrites(f.profileUpdates))
  {
    CorrectionsWellKeyed(f.corrections);
    ListsWellKeyed("pain:", f.painPoints);
    ListsWellKeyed("service_issue:", f.serviceIssues);
    ListsWellKeyed("objection:", f.objections);
    ListsWellKeyed("signal:", f.commitments);
    PipelineWellKeyed(f.profileUpdates);
    SingularWellKeyed(SingularFacts(f));
  }

  lemma {:induction false} SingularWellKeyed(facts: seq<(string, Option<string>)>)
    requires forall f | f in facts :: ':' !in f.0
    ensures forall w | w in Supersedes(facts) :: WellKeyed(w) && !FromPipeline(w)
  {
    if facts != [] {
      SingularWellKeyed(facts[..|facts| - 1]);
    }
  }

  /** A write of some run: its profile updates passed validation against keys of the profile namespace. */
  ghost predicate IssuedBy(f: CallFacts, current: set<string>, write: Write) {
    (forall key | key in current :: InProfile(key)) && Passed(f.profileUpdates, current) && write in Writes(f)
  }

  ghost predicate Issued(write: Write) {
    exists f, current :: IssuedBy(f, current, write)
  }

  lemma IssuedIsWellKeyed(write: Write)
    requires Issued(write)
    ensures WellKeyed(write) && StaysInProfile(write)
  {
    var f, current :| IssuedBy(f, current, write);
    WritesWellKeyed(f);
    PassedWritesStay(f.profileUpdates, current);
  }

  /** The model's answer passed validation against the facts that the run read, and others write as runs do. */
  ghost predicate Checked(db: Db, a: Attempt) {
    && (forall i | 0 <= i < |OthersLog(a)| :: Issued(OthersLog(a)[i].write))
    && (AsksModel(db, a) && a.reply.Answer? && Truthy(db.sessions[a.sessionId].leadId) ==>
          Passed(a.reply.facts.profileUpdates, CurrentKeys(db.facts, db.sessions[a.sessionId].leadId.value)))
  }

  ghost predicate AllChecked(db: Db, attempts: seq<Attempt>) {
    attempts != [] ==>
      var before := attempts[..|attempts| - 1];
      AllChecked(db, before) && Checked(AfterRuns(db, before), attempts[|attempts| - 1])
  }

  lemma StepIsIssued(db: Db, a: Attempt)
    requires Checked(db, a)
    ensures forall i | 0 <= i < |StepLog(db, a)| :: Issued(StepLog(db, a)[i].write)
  {
    var own := RunLog(db, a);
    forall i | 0 <= i < |own| ensures Issued(own[i].write) {
      assert IssuedBy(a.reply.facts, CurrentKeys(db.facts, db.sessions[a.sessionId].leadId.value), own[i].write);
    }
  }

  lemma {:induction false} LogIsIssued(db: Db, attempts: seq<Attempt>)
    requires AllChecked(db, attempts)
    ensures forall i | 0 <= i < |WholeLog(db, attempts)| :: Issued(WholeLog(db, attempts)[i].write)
  {
    if attempts != [] {
      var before, last := attempts[..|attempts| - 1], attempts[|attempts| - 1];
      LogIsIssued(db, before);
      StepIsIssued(AfterRuns(db, before), last);
    }
  }

  lemma KeysDetermineListValues(v: Write, w: Write)
    requires v.AddOnce? && !FromPipeline(w) && w.key == v.key && WellKeyed(v) && WellKeyed(w)
    ensures w.value == v.value
  {
    var p :| p in PREFIXES && v.key == p + v.value;
    assert v.key[|p| - 1] == ':' && ':' in v.key;
    var q :| q in PREFIXES && w.key == q + w.value;
    PrefixIsUnique(p, q, v.value, w.value);
  }

  lemma PrefixIsUnique(p: string, q: string, x: string, y: string)
    requires p in PREFIXES && q in PREFIXES && p + x == q + y
    ensures x == y
  {
    assert (p + x)[0] == p[0] && (q + y)[0] == q[0] && (p + x)[1] == p[1] && (q + y)[1] == q[1];
    assert p == q;
    assert (p + x)[|p|..] == x && (q + y)[|q|..] == y;
  }

  lemma LogIsUsable(log: seq<Entry>, leadId: string, key: string)
    requires forall i | 0 <= i < |log| :: Issued(log[i].write)
    ensures forall i | 0 <= i < |log| :: StaysInProfile(log[i].write)
    ensures OneListValue(log, leadId, key)
  {
    forall i | 0 <= i < |log| ensures WellKeyed(log[i].write) && StaysInProfile(log[i].write) {
      IssuedIsWellKeyed(log[i].write);
    }
    forall i, j | 0 <= i < |log| && 0 <= j < |log|
                  && log[i].leadId == leadId && log[i].write.AddOnce? && log[i].write.key == key
                  && log[j].leadId == leadId && !FromPipeline(log[j].write) && log[j].write.key == key
      ensures log[i].write.value == log[j].write.value
    {
      KeysDetermineListValues(log[i].write, log[j].write);
    }
  }

  lemma IssuedLogIsHistory(log: seq<Entry>, leadId: string, key: string)
    requires PutAll([], log).Some? && !InProfile(key) && forall i | 0 <= i < |log| :: Issued(log[i].write)
    ensures var own := Own(PutAll([], log).value, leadId, key);
            Chain(own) && Values(own) == Collapse(Written(log, leadId, key))
  {
    LogIsUsable(log, leadId, key);
    RowsAreHistoryOutsideProfile(log, leadId, key);
    HistoryIsCollapsedLog(log, leadId, key);
  }

  /**
   Starting from an empty fact table, after any sequence of runs, each with other runs committing while
   its model is asked: for every lead and every key outside the profile namespace the rows are exactly the
   values written, in order of commit, with consecutive repeats collapsed, and only the last is active.
   */
  lemma {:induction false} FactTableTheorem(db: Db, attempts: seq<Attempt>, leadId: string, key: string)
    requires db.facts == [] && !InProfile(key)
    requires AllLogged(db, attempts) && AllChecked(db, attempts)
    ensures var own := Own(AfterRuns(db, attempts).facts, leadId, key);
            Chain(own) && Values(own) == Collapse(Written(WholeLog(db, attempts), leadId, key))
  {
    FactsAreTheLog(db, attempts);
    LogIsIssued(db, attempts);
    IssuedLogIsHistory(WholeLog(db, attempts), leadId, key);
  }
}
