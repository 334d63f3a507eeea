/**
 Post-call analysis: what a run writes for a call, inside one savepoint, and what is left in the
 database whichever step fails.
 */
module Summarizer {
  import opened Prelude
  import opened FactStore

  const CORRECTABLE_FIELDS: set<string> :=
    {"name", "phone", "email", "age", "car_make", "car_model", "car_year", "current_insurance", "zona"}

  /** Correctable fields that are kept in the table of custom fields as well. */
  const CUSTOM_FIELDS: set<string> := {"age", "car_make", "car_model", "car_year", "current_insurance", "zona"}

  // ---------- What the model returned for a call ----------

  datatype ProfileUpdate = ProfileUpdate(operation: string, category: string, fact: string, slug: string,
                                         value: string, target: Option<string>)

  /** The decision of the next-action engine; `outcome` is the call classification it carries, if any. */
  datatype NextAction = NextAction(action: string, outcome: Option<string>, at: Option<int>)

  /**
   A correction of a lead's data: whether the pipeline accepted it, its text, and the value it coerces to,
   None when its normalisation or coercion fails.
   */
  datatype Correction = Correction(field: string, applied: bool, value: string, coerced: Option<string>)

  /** Rejected corrections, unknown fields and values that do not coerce are left out. */
  predicate Accepted(c: Correction) {
    c.applied && c.field in CORRECTABLE_FIELDS && c.coerced.Some?
  }

  /** The analysis of a call; list-type facts are given by their normalised keys, None for unusable ones. */
  datatype CallFacts = CallFacts(
    interestLevel: Option<int>,
    currentInsurance: Option<string>,
    nextAction: Option<string>,
    nextActionResult: Option<NextAction>,
    primaryNeed: Option<string>,
    classification: Option<string>,
    painPoints: seq<Option<string>>,
    serviceIssues: seq<Option<string>>,
    objections: seq<Option<string>>,
    commitments: seq<Option<string>>,
    objectionCategories: set<string>,
    profileUpdates: seq<ProfileUpdate>,
    corrections: seq<Correction>,
    extracted: map<string, string>)

  // ---------- Fact writes of one call, in order ----------

  function CorrectionWrites(corrections: seq<Correction>): seq<Write> {
    if corrections == [] then []
    else
      var c := corrections[|corrections| - 1];
      CorrectionWrites(corrections[..|corrections| - 1]) + if Accepted(c) then [Supersede(c.field, c.value)] else []
  }

  function Supersedes(facts: seq<(string, Option<string>)>): seq<Write> {
    if facts == [] then []
    else
      var (key, value) := facts[|facts| - 1];
      Supersedes(facts[..|facts| - 1]) + if value.Some? then [Supersede(key, value.value)] else []
  }

  function SingularFacts(f: CallFacts): seq<(string, Option<string>)> {
    [("interest_level", if f.interestLevel.Some? then Some(Decimal(f.interestLevel.value)) else None),
     ("current_insurance", f.currentInsurance),
     ("next_action", f.nextAction),
     ("primary_need", f.primaryNeed),
     ("classification", f.classification),
     ("do_not_call", if f.nextAction == Some("do_not_call") then Some("true") else None)]
  }

  function ListWrites(prefix: string, keys: seq<Option<string>>): seq<Write> {
    if keys == [] then []
    else
      var last := keys[|keys| - 1];
      ListWrites(prefix, keys[..|keys| - 1]) +
      if Truthy(last) then [AddOnce(prefix + last.value, last.value)] else []
  }

  function PipelineWrites(updates: seq<ProfileUpdate>): seq<Write> {
    if updates == [] then []
    else
      var u := updates[|updates| - 1];
      var key := "profile:" + u.category + ":" + u.slug;
      PipelineWrites(updates[..|updates| - 1]) +
      if u.operation == "" || u.category == "" || u.fact == "" then []
      else if u.operation == "add" then [PipelineAdd(key, u.value)]
      else if u.operation == "update" then [PipelineUpdate(u.target, key, u.value)]
      else if u.operation == "remove" then [PipelineRemove(u.target)]
      else []
  }

  function Writes(f: CallFacts): seq<Write> {
    CorrectionWrites(f.corrections)
    + Supersedes(SingularFacts(f))
    + ListWrites("pain:", f.painPoints)
    + ListWrites("service_issue:", f.serviceIssues)
    + ListWrites("objection:", f.objections)
    + ListWrites("signal:", f.commitments)
    + PipelineWrites(f.profileUpdates)
  }

  function Log(leadId: string, source: string, writes: seq<Write>, at: int): (log: seq<Entry>)
    ensures |log| == |writes|
  {
    seq(|writes|, i requires 0 <= i < |writes| => Entry(leadId, writes[i], Some(source), at))
  }

  // ---------- The database ----------

  datatype Extracted = Nothing | Extracted(facts: CallFacts) | FailedAnalysis(error: string)

  datatype SessionRow = SessionRow(leadId: Option<string>, clientId: string, summary: Option<string>,
                                   userTurns: nat, agentTurns: nat, extracted: Extracted)

  datatype LeadRow = LeadRow(status: string, summaryLastCall: Option<string>, objectionsHeard: set<string>,
                             interestLevel: Option<int>, extracted: map<string, string>, doNotCall: bool,
                             nextAction: Option<string>, nextActionAt: Option<int>, fields: map<string, string>,
                             customFields: map<CustomField, string>)

  /** Custom fields of a lead are kept per client. */
  datatype CustomField = CustomField(clientId: string, field: string)

  datatype Interest = Interest(leadId: string, level: int, source: string)

  datatype AnalysisRow = AnalysisRow(sessionId: string, leadId: Option<string>, clientId: string,
                                     summary: Option<string>, facts: Option<CallFacts>,
                                     status: string, error: Option<string>)

  /** `turns` lists the roles of each session's transcript turns. */
  datatype Db = Db(turns: map<string, seq<string>>, sessions: map<string, SessionRow>, leads: map<string, LeadRow>,
                   facts: seq<Fact>, history: seq<Interest>, analyses: seq<AnalysisRow>)

  // ---------- One run ----------

  /** The points at which a run can fail, in the order in which they are reached. */
  datatype Point =
    | ReadTurns | ReadContext
    | LoadForMarker | WriteMarker | CommitMarker
    | LoadSession | WriteSession | MergeLead | FactWrite(index: nat) | WriteAnalysis | ReleaseSavepoint
    | EnqueueCrm
    | FinalCommit

  /** What the model call gave: a summary with facts, or an error. */
  datatype Reply = Answer(summary: string, facts: CallFacts) | Failure(error: string)

  /** What others make of the database while a run waits for the model, and the fact writes in it. */
  datatype Meanwhile = Meanwhile(db: Db, writes: seq<Entry>)

  /**
   One run for a session. `world` is what other transactions do until the model answers, None if nothing;
   `faults` are the points that fail when they are reached.
   */
  datatype Attempt = Attempt(sessionId: string, durable: bool, reply: Reply, quoteReady: bool,
                             world: Option<Meanwhile>, now: int, faults: set<Point>)

  function CountRole(roles: seq<string>, role: string): nat {
    if roles == [] then 0
    else CountRole(roles[..|roles| - 1], role) + if roles[|roles| - 1] == role then 1 else 0
  }

  /** Lead status suggested by the next action; only leads in status `called` move. */
  function NextStatus(status: string, result: Option<NextAction>, quoteReady: bool): string {
    if status != "called" || result.None? then status
    else if result.value.action == "close_lead" then
      var outcome := result.value.outcome;
      if outcome == Some("completed_positive") then if quoteReady then "quoted" else "follow_up"
      else if outcome.Some? && outcome.value in {"completed_negative", "do_not_contact", "hostile"} then "not_interested"
      else status
    else if result.value.action in {"follow_up", "schedule_call"} then "follow_up"
    else status
  }

  function Corrected(fields: map<string, string>, corrections: seq<Correction>): map<string, string> {
    if corrections == [] then fields
    else
      var c := corrections[|corrections| - 1];
      var before := Corrected(fields, corrections[..|corrections| - 1]);
      if Accepted(c) then before[c.field := c.coerced.value] else before
  }

  function CustomCorrected(fields: map<CustomField, string>, clientId: string, corrections: seq<Correction>): map<CustomField, string> {
    if corrections == [] || clientId == "" then fields
    else
      var c := corrections[|corrections| - 1];
      var before := CustomCorrected(fields, clientId, corrections[..|corrections| - 1]);
      if Accepted(c) && c.field in CUSTOM_FIELDS then before[CustomField(clientId, c.field) := c.coerced.value] else before
  }

  /** Whether a call asks not to be called again. */
  predicate Refuses(f: CallFacts) {
    f.nextAction == Some("close_lead") || f.nextAction == Some("do_not_call") || f.classification == Some("do_not_contact")
  }

  /** The columns of the lead that follow the latest call: some are replaced, some only ever grow. */
  function CallMerged(lead: LeadRow, summary: string, f: CallFacts): LeadRow {
    lead.(summaryLastCall := Some(summary),
          objectionsHeard := lead.objectionsHeard + f.objectionCategories,
          interestLevel := if f.interestLevel.Some? then f.interestLevel else lead.interestLevel,
          extracted := lead.extracted + f.extracted,
          doNotCall := lead.doNotCall || Refuses(f),
          nextActionAt := if f.nextActionResult.Some? && f.nextActionResult.value.at.Some? then f.nextActionResult.value.at
                          else lead.nextActionAt,
          nextAction := if Truthy(f.nextAction) then f.nextAction else lead.nextAction)
  }

  function LeadMerged(lead: LeadRow, clientId: string, summary: string, f: CallFacts, quoteReady: bool): LeadRow {
    CallMerged(lead, summary, f).(
      fields := Corrected(lead.fields, f.corrections),
      customFields := CustomCorrected(lead.customFields, clientId, f.corrections),
      status := NextStatus(lead.status, f.nextActionResult, quoteReady))
  }

  function Clamp(level: int): int {
    if level < 0 then 0 else if level > 100 then 100 else level
  }

  /** Number of analysis rows of a session; selecting with more than one raises. */
  function AnalysisCount(analyses: seq<AnalysisRow>, sessionId: string): nat {
    if analyses == [] then 0
    else AnalysisCount(analyses[..|analyses| - 1], sessionId)
         + if analyses[|analyses| - 1].sessionId == sessionId then 1 else 0
  }

  /** The row for a session is updated in place if there is one and inserted if there is none. */
  function Upserted(analyses: seq<AnalysisRow>, row: AnalysisRow, keepAnalysis: bool): Option<seq<AnalysisRow>> {
    var n := AnalysisCount(analyses, row.sessionId);
    if n == 0 then Some(analyses + [row])
    else if n > 1 then None
    else Some(seq(|analyses|, i requires 0 <= i < |analyses| =>
           if analyses[i].sessionId != row.sessionId then analyses[i]
           else if keepAnalysis then row.(summary := analyses[i].summary, facts := analyses[i].facts)
           else row))
  }

  /** The database with a call's facts merged into its lead, or None when a lookup raised. */
  function Merged(w: Db, a: Attempt, leadId: string, clientId: string): Option<Db>
    requires a.reply.Answer?
  {
    var f := a.reply.facts;
    if leadId !in w.leads then Some(w)
    else
      var facts := PutAll(w.facts, Log(leadId, a.sessionId, Writes(f), a.now));
      if facts.None? then None
      else Some(w.(
        leads := w.leads[leadId := LeadMerged(w.leads[leadId], clientId, a.reply.summary, f, a.quoteReady)],
        facts := facts.value,
        history := if f.interestLevel.Some? then w.history + [Interest(leadId, Clamp(f.interestLevel.value), a.sessionId)]
                   else w.history))
  }

  function MergedLinked(w: Db, a: Attempt, leadId: Option<string>, clientId: string): Option<Db>
    requires a.reply.Answer?
  {
    if Truthy(leadId) then Merged(w, a, leadId.value, clientId) else Some(w)
  }

  /** Merging reads and writes no session and no analysis. */
  lemma MergingKeepsSessions(w: Db, a: Attempt, leadId: Option<string>, clientId: string, sessions: map<string, SessionRow>)
    requires a.reply.Answer?
    ensures var merged := MergedLinked(w, a, leadId, clientId);
            && MergedLinked(w.(sessions := sessions), a, leadId, clientId)
               == (if merged.None? then None else Some(merged.value.(sessions := sessions)))
            && (merged.Some? ==> merged.value.analyses == w.analyses)
  {}

  /** The database with the results of a run written, or None when a lookup raised. */
  function Persisted(w: Db, a: Attempt, leadId: Option<string>, clientId: string, roles: seq<string>): Option<Db>
    requires a.sessionId in w.sessions && a.reply.Answer?
  {
    var f := a.reply.facts;
    var session := w.sessions[a.sessionId].(summary := Some(a.reply.summary), extracted := Extracted(f),
                                            userTurns := CountRole(roles, "user"), agentTurns := CountRole(roles, "agent"));
    var row := AnalysisRow(a.sessionId, leadId, clientId, Some(a.reply.summary), Some(f), "ok", None);
    var analyses := Upserted(w.analyses, row, false);
    var merged := MergedLinked(w, a, leadId, clientId);
    if analyses.None? || merged.None? then None
    else Some(merged.value.(sessions := w.sessions[a.sessionId := session], analyses := analyses.value))
  }

  /** The database with the failure marker of a run written. */
  function Marked(w: Db, a: Attempt, leadId: Option<string>, clientId: string, roles: seq<string>): Option<Db>
    requires a.sessionId in w.sessions && a.reply.Failure?
  {
    var session := w.sessions[a.sessionId].(extracted := FailedAnalysis(a.reply.error),
                                            userTurns := CountRole(roles, "user"), agentTurns := CountRole(roles, "agent"));
    var row := AnalysisRow(a.sessionId, leadId, clientId, None, None, "failed", Some(a.reply.error));
    var analyses := Upserted(w.analyses, row, true);
    if analyses.None? then None
    else Some(w.(sessions := w.sessions[a.sessionId := session], analyses := analyses.value))
  }

  /** What is committed when the attempt is over, and whether its caller saw an exception. */
  datatype Outcome = Outcome(db: Db, raised: bool)

  predicate NothingToDo(db: Db, sessionId: string) {
    sessionId !in db.turns || db.turns[sessionId] == [] || sessionId !in db.sessions
  }

  function World(db: Db, a: Attempt): Db {
    if a.world.Some? then a.world.value.db else db
  }

  /** Whether some fact write of this run is set to fail. */
  predicate FactFault(a: Attempt, count: nat) {
    exists i | 0 <= i < count :: FactWrite(i) in a.faults
  }

  /** Whether nothing fails while the facts are merged into the lead, if there is one. */
  predicate Mergeable(w: Db, a: Attempt, leadId: Option<string>)
    requires a.reply.Answer?
  {
    Truthy(leadId) ==>
      MergeLead !in a.faults && (leadId.value in w.leads ==> !FactFault(a, |Writes(a.reply.facts)|))
  }

  /** Whether the write phase goes through up to and including the release of the savepoint. */
  predicate Writable(w: Db, a: Attempt, leadId: Option<string>)
    requires a.reply.Answer?
  {
    && WriteSession !in a.faults
    && Mergeable(w, a, leadId)
    && WriteAnalysis !in a.faults
    && ReleaseSavepoint !in a.faults
  }

  function AfterReply(db: Db, a: Attempt): Outcome
    requires !NothingToDo(db, a.sessionId)
  {
    var cs := db.sessions[a.sessionId];
    var roles := db.turns[a.sessionId];
    var w := World(db, a);
    match a.reply
    case Failure(_) =>
      if LoadForMarker in a.faults then Outcome(w, a.durable)
      else if a.sessionId in w.sessions then
        var marked := Marked(w, a, cs.leadId, cs.clientId, roles);
        if WriteMarker in a.faults || marked.None? || CommitMarker in a.faults then Outcome(w, a.durable)
        else Outcome(marked.value, a.durable)
      else Outcome(w, a.durable)
    case Answer(_, _) =>
      if LoadSession in a.faults then Outcome(w, a.durable)
      else if a.sessionId !in w.sessions then Outcome(w, a.durable && FinalCommit in a.faults)
      else
        var persisted := Persisted(w, a, cs.leadId, cs.clientId, roles);
        if !Writable(w, a, cs.leadId) || persisted.None? || FinalCommit in a.faults then Outcome(w, a.durable)
        else Outcome(persisted.value, false)
  }

  function Run(db: Db, a: Attempt): Outcome {
    if ReadTurns in a.faults then Outcome(db, a.durable)
    else if NothingToDo(db, a.sessionId) then Outcome(db, a.durable && FinalCommit in a.faults)
    else if ReadContext in a.faults then Outcome(db, a.durable)
    else AfterReply(db, a)
  }
}
