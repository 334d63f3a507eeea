# Verification of the Qora call-centre backend

A Dafny model of the parts of the Qora backend that keep hard invariants over state, with proofs. Run
`dafny verify dfyconfig.toml` in this directory.

Where the backend changes records step by step, the model is a class or a method with the same steps, and each method
is proved to do what a specification function says, on the whole state. The theorems are about those functions: over
every run, every state or every input. The modules named `...Records` say in plain fields and numbers what the
operations leave behind, without the functions and predicates that define them.

| files | component |
|---|---|
| `Telephony` | the table of telephony statuses and what closing a session makes of them |
| `CallState`, `CallService`, `CallRuns`, `CallRecords`, `CallClosing`, `PostCall`, `CallExamples` | the life of call sessions: creation, turns, sweeping, closing with absorption of siblings, reconciliation, post-call deliveries, metrics |
| `FactStore`, `ProfileValidation`, `Summarizer`, `SummarizerService`, `SummarizerRuns`, `SummarizerRecords` | the append-and-supersede fact store, the check of profile updates, and the summarizer's transaction with a failure possible at every point |
| `TenantDeletion`, `TenantDeletionProofs` | the migration that deletes one tenant in fourteen statements |
| `RetireDuplicates` | the migration that retires duplicate calls so that a unique index can be built |
| `Streaming` | regrouping interleaved tool-call fragments of a model stream |
| `Analytics`, `AnalyticsProofs`, `AnalyticsRecords` | overview, statistics per agent, and the ranking of service issues |
| `ClientSlugs` | identifiers of new clients, and the rows a new client starts with |
| `TranscriptText`, `Text` | the transcript printer and the parser that reads it back |
| `Prelude` | optional values, results, decimal notation |

## Where code and expectation part

The model follows the code. Where a property one would expect is false of it, there is a concrete input or run, and the
exact condition under which it holds.

- Merge links are never checked for cycles. They stay acyclic because links only lead to sessions completed earlier;
  `end_session` can overwrite `completed` and is the one operation that can break this (`EndKeepsForestIff`,
  `ReopeningMakesACycle`). No code of the application calls it.
- A session that was absorbed while it was open can still be closed by its own end event. It then absorbs siblings
  although it is hidden from lists itself (`AbsorbedTurnsListedIff`, `HiddenSessionAbsorbs`), and is counted on the lead
  but not in the metrics (`MetricsAgreeWithCounterIff`).
- `_reconcile_session` applies no voicemail rule, and does not exclude sessions that were already merged.
- Closing preserves `no_answer` and `recurrent_error` and otherwise writes `completed` or `voicemail` without asking the
  transition table (`FirstCloseFollowsTableIff`).
- A lead whose id is the empty string is never counted, since an empty id counts as absent.
- The webhook's comment promises to close sessions in other statuses to completed; its code only logs.
- Post-call deliveries skip messages without text but count them when deciding what is new, so a transcript with a gap
  is stored in part twice when delivered twice (`ConvergesExactlyWithoutGaps`, `GapDuplicates`).
- The durable summarizer entry point is documented to raise on every failure; it returns normally when the session is
  deleted while the model runs (`VanishedSessionIsSilent`).
- A next-action result has no `outcome` field, so a decision to close a lead never moves the lead's status
  (`CloseWithoutOutcomeKeepsStatus`).
- The profile pipeline adds facts without looking for an active row with the same key; two active rows make every later
  lookup of the key raise, for good (`DuplicatesArePermanent`). A key has at most one active row exactly when no
  addition met an active row that it did not itself replace (`DuplicatedExactlyWhen`, `OneActiveRowIff`).
- The writer of the profile pipeline does not check the namespace of a target (`PipelineChangesKeyIff`); the validation
  before it only lets profile keys through (`PassedWritesStay`).
- Revision 0020 says it can be run against any database state; it needs every table its clauses select from
  (`RunsToTheEndIff`).
- No revision declares a foreign key on `source_call_id`, although the ORM model does; the deletion statements protect
  the column all the same (`SourceCallsStay`).
- An agent whose id is "unassigned" shares its entry with the calls without agent (`EntryIsFilteredOverviewIff`).
- Both issue queries are cut off at the limit before their counts are merged, so the most frequent issue can be missing,
  whatever the limit (`DroppedRowsHideTheTop`). The ranking is right exactly when every dropped issue is outweighed by
  enough fetched ones (`RankingIsTrueTopIff`).
- A transcript does not survive printing and parsing when a turn has text after a line break (`RoundTripIff`).
- The pattern for given client identifiers also accepts one with a final line feed (`PassesValidator` in `ClientSlugs`).

## Model

| member | source | states |
|---|---|---|
| `Telephony.RunIsShort` | backend/app/calls/states.py:63-88 | Every run of the transition table from `queued` with k visits to `failed` has at most 2k + 6 states. |
| `Telephony.BoundIsTight` | backend/app/calls/states.py:63-88 | For every k there is a run with exactly 2k + 6 states, so the bound cannot be lowered. |
| `Telephony.RunLength` | backend/app/calls/states.py:63-88 | Where a run stands follows from its length less two states per failed attempt: each status has its own one or two possible depths. |
| `Telephony.EveryPlaceIsReached` | backend/app/calls/states.py:63-88 | Conversely, for every status, every such depth and any number of failed attempts there is a run that stands there: together these two determine the table. |
| `Telephony.CompletedNeedsConversation` | backend/app/calls/states.py:63-88 | A run reaches `completed` only after `dialing`, `ringing` and `connected`, in that order. |
| `Telephony.TerminalStatesEndRuns` | backend/app/calls/states.py:82-106 | `completed`, `no_answer`, `recurrent_error` and `stale_in_call` are exactly the states without a successor; a run that meets one ends there. |
| `CallService.CallStore.CreateSession` | backend/app/calls/service.py:46-132 | A new session is `initiated` now, its lead advances from new to called if it belongs to the client; a taken id is refused and nothing changes. |
| `CallService.CallStore.AddTranscriptTurn` | backend/app/calls/service.py:215-243 | Appends one turn, stamped with the clock; nothing else changes. |
| `CallService.CallStore.GetTranscript` | backend/app/calls/service.py:246-263 | Returns the turns of the session, all of them and only those, in order of recording. |
| `CallService.CallStore.CountTurns` | backend/app/calls/service.py:266-282 | Counts by role agree with the number of the session's user and agent turns. |
| `CallService.CallStore.SelectSiblings` | backend/app/calls/service.py:467-484 | Finds exactly the other sessions of the same client and lead (an absent lead matches an absent lead) that are open or abandoned, have no conversation and no link, and started at most 600 seconds before or after. |
| `CallService.CallStore.MergeSiblingSessions` | backend/app/calls/service.py:442-504 | Re-parents every sibling's turns, links every sibling to the session, recounts the session; the whole new state is given. |
| `CallService.CallStore.MoveTurns` | backend/app/calls/service.py:486-493 | Changes the session of exactly the turns of the given sessions. |
| `CallService.CallStore.Complete` | backend/app/calls/service.py:687-730 | Status, end time, reason, duration, rounded-up minutes, totals, lead counter (only when asked, for a named lead that exists) and session-end telephony status. |
| `CallService.CallStore.ApplyVoicemailHeuristic` | backend/app/calls/service.py:794-832 | Marks voicemail on a completed outbound session under 30 s without user turns, and changes nothing otherwise. |
| `CallService.CallStore.FirstClose` | backend/app/calls/service.py:687-736 | A first close completes, then merges and recounts, then decides on voicemail, in this order. |
| `CallService.CallStore.FindOrphan` | backend/app/calls/service.py:535-559 | Finds an open session of the client and lead without a conversation started at most 600 seconds ago; every other such session has fewer recorded turns, or as many and started no later. None only if there is none. |
| `CallService.CallStore.ReconcileSession` | backend/app/calls/service.py:507-633 | Adopts the best orphan, closes it and merges its siblings, without the voicemail rule; leaves everything as it was when there is no orphan. |
| `CallService.CallStore.CloseSession` | backend/app/calls/service.py:636-781 | Repeated closes change nothing and say so; unknown sessions are reconciled if both hints are given, otherwise an error; the new state is that of the specification. |
| `CallService.CallStore.SweepStaleSessions` | backend/app/sweeper.py:26-85 | Exactly the open sessions started more than 600 seconds ago become `abandoned`, end now and keep a reason they have or get "timeout"; returns their number; no lead, turn or other session changes. |
| `CallService.CallStore.PostCallDelivery` | backend/app/calls/router.py:369-408 | A delivery closes an `initiated` session, appends only the messages beyond the stored count to a `completed` one, and does nothing to any other. |
| `CallService.CallStore.StoreTurns` | backend/app/calls/router.py:384-401 | Appends the messages that carry a text, in order, with "unknown" for a missing role. |
| `CallService.CallStore.EndSession` | backend/app/calls/service.py:175-207 | Direct finalisation overwrites status, outcome, times and billing whatever they were; an unknown session is reported and nothing changes. |
| `CallService.CallStore.LinkOutboundSession` | backend/app/outbound/linkage.py:156-204 | Ties the found outbound session to the provider conversation; nothing else changes. |
| `CallRuns.RunKeepsForestAndTurns` | backend/app/calls/service.py:442-504 | Over any run of create, turn, sweep, close, reconcile, delivery and link steps, repeated in any order, merge links form a forest, no link ever changes, every turn is still there, unaltered, in its session or in the one that session was merged into, and there are no more turns than were recorded. |
| `CallRuns.RunConservesTurns` | backend/app/calls/service.py:486-502 | Over every run whatever, also with direct finalisation, the turns are those there were and those recorded during the run, each exactly once, in order and unaltered but for the session they are in. |
| `CallRuns.FollowingLinksEnds` | backend/app/calls/models.py:69-72 | Following links never meets a session twice, passes only completed sessions of one client and lead, and ends after at most as many hops as there are completed sessions. |
| `CallRuns.WalkDescends` | backend/app/calls/service.py:494-497 | Along links the order of completion strictly decreases. |
| `CallRuns.StepKeepsForest` | backend/app/calls/service.py:636-781 | Each single step keeps the forest, though no code ever checks for cycles. |
| `CallRuns.StepEvolves` | backend/app/calls/service.py:486-502 | Each single step keeps all turns and links in the above sense. |
| `CallRuns.StepShape` | backend/app/calls/service.py:684-686 | Every step either closes one session that was not completed, with one and the same effect on links and turns whichever path it came by, or closes none and changes no link and no turn. |
| `CallRuns.EndKeepsForestIff` | backend/app/calls/service.py:175-207 | Direct finalisation keeps the forest if and only if it completes the session or nothing was merged into it. |
| `CallRuns.RunFreezesCompleted` | backend/app/calls/service.py:684-686 | Once completed, a session record is final over every run without direct finalisation: status, link, billing, times and totals do not change. |
| `CallRuns.RunCounts` | backend/app/calls/service.py:578-584 | Over every run a lead's call counter grows by exactly the growth in its completed sessions, less the completions made by operations told not to count. |
| `CallRuns.CallCountIsCompletedSessions` | backend/app/calls/service.py:708-714 | From a state without completed sessions, with all closes counting as all callers ask, the counter is its initial value plus the number of the lead's completed sessions, whatever is repeated. |
| `CallRuns.StepCounts` | backend/app/sweeper.py:56-67 | Each single step moves counter and completed sessions together; sweeping moves neither. |
| `CallRecords.CloseAbsorbsExactly` | backend/app/calls/service.py:467-497 | Whatever path completes a session, exactly the open or abandoned sessions of its client and lead without conversation and link, started within 600 seconds of it, are linked to it; no other field of any other session changes. |
| `CallRecords.NoneLeftToAbsorb` | backend/app/calls/service.py:467-481 | After a completion no session is left that could have been absorbed. |
| `CallRecords.OnlyFreeSessionsAreLinked` | backend/app/calls/service.py:468-497 | A step that links a session completes the target, and the session was open or abandoned before it, without conversation and without link. |
| `CallRecords.RunKeepsLinksNear` | backend/app/calls/service.py:467-478 | Over every run, direct finalisation included, linked sessions started within 600 seconds of the one they are linked to. |
| `CallRecords.CloseMovesTurnsExactly` | backend/app/calls/service.py:486-493 | A completion moves the turns of exactly the sessions it links, each to the completed session, and leaves every other turn. |
| `CallRecords.AdoptedIsMostActive` | backend/app/calls/service.py:535-559 | The orphan that a close of an unknown session adopts has the most recorded turns and, of those, the latest start among all open sessions of the lead without conversation started in the last 600 seconds. |
| `CallRecords.NothingToAdopt` | backend/app/calls/service.py:548-559 | Nothing is adopted only when no such session exists; then nothing changes. |
| `CallRecords.SweepIsExact` | backend/app/sweeper.py:41-67 | What a sweep makes of every session, with the actual numbers: an open one started before now - 600 is abandoned now with its reason or "timeout", any other stays as it was. |
| `CallRecords.NothingStaleAfterSweep` | backend/app/sweeper.py:41-46 | After a sweep every open session started at most 600 seconds ago. |
| `CallRecords.ClosedRecord` | backend/app/calls/service.py:687-730 | A completed session ends now with the given reason, is billed the least number of minutes covering its duration, has as totals the number of user and agent turns now in it, and keeps its identity and start. |
| `CallRecords.ClosedLead` | backend/app/calls/service.py:708-714 | A completion adds one call, made now, to the lead of the session if asked to count, and touches no other lead. |
| `CallRecords.CreatedRecord` | backend/app/calls/service.py:46-160 | The new record field by field; only a new lead of the same client advances, to called; everything else stays. |
| `CallRecords.LinkedRecord` | backend/app/outbound/linkage.py:156-204 | Linking completes the telephony status and stores the conversation only where none is known; no other session changes. |
| `CallRecords.DeliveredRecord` | backend/app/calls/router.py:369-408 | By status: an open session is closed and no turn stored, to a completed one the messages beyond the number of its turns are added, any other is left alone. |
| `CallRecords.EndedRecord` | backend/app/calls/service.py:175-207 | Status and outcome as given, ended now, billed the least number of minutes covering the given duration; no other field, session, turn or lead changes. |
| `CallRecords.TranscriptInOrder` | backend/app/calls/service.py:246-263 | Each turn of a session stands in its transcript at the place given by the number of its turns recorded before, and the transcript has no others. |
| `CallRecords.CountOfSession` | backend/app/calls/service.py:266-282 | The count by role is the number of positions that hold a turn of the session with that role. |
| `CallClosing.CloseCountsAbsorbedTurns` | backend/app/calls/service.py:499-502 | After a close, by either path, totals count the session's own turns and those of every sibling it absorbed. |
| `CallClosing.VoicemailExactlyWhen` | backend/app/calls/service.py:703-736 | A first close marks an outbound session as voicemail exactly when it had not ended without a conversation, lasted under 30 s, and no user turn was recorded in it or in a sibling it absorbed. |
| `CallClosing.FirstCloseStatus` | backend/app/calls/service.py:716-736 | The status after a first close follows from the state before it: preserved when the call ended without a conversation, otherwise completed or voicemail by duration and by the user turns of the session and all siblings it absorbs. |
| `CallClosing.FirstCloseFollowsTableIff` | backend/app/outbound/linkage.py:365-415 | A first close writes the status without asking the table of transitions: what it does is a permitted transition or no change exactly for calls that were connected, had already ended without a conversation, or stood at the status they are given. |
| `CallClosing.RunKeepsBooks` | backend/app/calls/service.py:693-701 | Over every run turns stay in recording order and every completed session is billed its minutes rounded up. |
| `CallClosing.BillingIsTight` | backend/app/calls/service.py:285-372 | For every reachable state and metrics query: seconds are at most 60 times billed minutes, which are less than seconds plus 60 per completed call; the average times the number of calls is the total. |
| `CallClosing.RoundingIsTight` | backend/app/calls/service.py:565-571 | Over any set of billed sessions the rounding loses at most 59 seconds per session. |
| `CallClosing.MetricsAgreeWithCounterIff` | backend/app/calls/service.py:306-330 | A lead's completed calls in the metrics equal its completed sessions exactly when none of them was merged or belongs to another client. |
| `CallClosing.MetricsCountRecords` | backend/app/calls/service.py:297-344 | The counts of the metrics are the numbers of unmerged sessions of the client, of the lead and in the period where given, in total, completed and abandoned. |
| `CallExamples.ReopeningMakesACycle` | backend/app/calls/service.py:175-207 | Concrete run with direct finalisation after which two sessions are merged into each other. |
| `CallExamples.HiddenSessionAbsorbs` | backend/app/calls/service.py:473-484 | Concrete run without it in which an absorbed session, closed later by its own event, absorbs a third one and is counted on the lead but not in the metrics. |
| `PostCall.DeliveriesConverge` | backend/app/calls/router.py:384-399 | Any deliveries of prefixes of one transcript, in any order and with repeats, to a completed session holding a prefix leave exactly the longest prefix seen, if no message without text stands before one with text. |
| `PostCall.ConvergesExactlyWithoutGaps` | backend/app/calls/router.py:384-399 | That holds for all delivery orders if and only if the transcript has no such gap. |
| `PostCall.GapDuplicates` | backend/app/calls/router.py:388-399 | With a gap, delivering the whole transcript twice stores a message twice. |
| `PostCall.DeliveryAbsorbs` | backend/app/calls/router.py:384-401 | A delivery to a completed session changes that session's transcript only, and sessions and leads not at all. |
| `PostCall.EachIsStored` | backend/app/calls/router.py:388-396 | Messages are stored one by one in order: one turn for a message with text, under its role or "unknown", none for one without. |
| `FactStore.RowsAreHistory` | backend/app/summarizer.py:1581-1608 | For every lead and key the pipeline stays away from: at most one row is active, it is the last, and the rows in insertion order are exactly the history of the write log. |
| `FactStore.HistoryIsCollapsedLog` | backend/app/summarizer.py:1921-2011 | That history is the list of written values with consecutive repeats collapsed, ending in the last value written. |
| `FactStore.WritersNeverFail` | backend/app/summarizer.py:1581-1600 | The two superseding writers never meet two active rows, so their lookups never raise. |
| `FactStore.PutOnChain` | backend/app/summarizer.py:1921-1948 | One superseding write on a key with at most one active row: unchanged value, no change; changed value, the old row superseded now and a new active row last. |
| `FactStore.PutElsewhere` | backend/app/summarizer.py:1581-1608 | A write leaves the rows of every other lead and key exactly as they were. |
| `FactStore.SupersedingRows` | backend/app/summarizer.py:1581-1608 | A superseding write in terms of rows: an equal active value changes nothing; otherwise the active row is superseded now, a new active row comes last, every other row stays; it raises exactly when two rows are active. |
| `FactStore.AddingRows` | backend/app/summarizer.py:1991-2141 | The other writers in terms of rows: which single row is added, which single active row is deleted, and when nothing changes. |
| `FactStore.RowsAreHistoryOutsideProfile` | backend/app/summarizer.py:2046-2141 | With the profile pipeline at work too, the above holds for every key outside its namespace, given targets inside it. |
| `FactStore.PipelineChangesKeyIff` | backend/app/summarizer.py:2110-2141 | The pipeline writer does not check targets itself: it changes the rows of a key outside its namespace exactly when that key is its target and has one active row. |
| `FactStore.DuplicateStepFailsOrStays` | backend/app/summarizer.py:2027-2043 | A key with two active rows makes every write that looks it up raise, and no other write repairs it. |
| `FactStore.DuplicatesArePermanent` | backend/app/summarizer.py:2027-2043 | No sequence of writes that goes through ever leaves fewer than two active rows of such a key. |
| `FactStore.DuplicatedExactlyWhen` | backend/app/summarizer.py:2085-2129 | A write that goes through gives a key its second active row exactly when it is a pipeline addition to that key, or an update that does not target it, while one row is active. |
| `FactStore.OneActiveRowIff` | backend/app/summarizer.py:2085-2141 | After any sequence of writes that goes through, a key has at most one active row if and only if no write of the sequence collided in this way with what the earlier ones left. |
| `FactStore.AddingTwiceDuplicates` | backend/app/summarizer.py:2099-2108 | Adding the same profile fact twice makes such a duplicate. |
| `SummarizerService.DbSession.PutFact` | backend/app/summarizer.py:1581-1608 | One write of any of the three writers, or a raised lookup without any change. |
| `SummarizerService.DbSession.WriteFacts` | backend/app/summarizer.py:1866-2011 | All fact writes of a call in order, each seeing the rows added before it; stops at the first failure. |
| `SummarizerService.DbSession.UpsertAnalysis` | backend/app/summarizer.py:1621-1752 | Updates the session's only analysis row in place or inserts one; raises on two; a failure marker keeps an earlier summary and facts. |
| `SummarizerService.DbSession.MergeFactsIntoLead` | backend/app/summarizer.py:1052-1249 | The lead with the call's facts merged (corrections before the status, custom fields too), its fact rows and one clamped interest row; an unknown lead is left alone. |
| `SummarizerService.DbSession.MergeCall` | backend/app/summarizer.py:1095-1172 | Columns that follow the latest call, and those that only grow: objections, collected facts, the refusal flag. |
| `SummarizerService.DbSession.ApplyCorrections` | backend/app/summarizer.py:1394-1495 | Exactly the accepted corrections of known fields whose value can be coerced are written to the lead, the last one winning. |
| `SummarizerService.DbSession.ApplyCustomCorrections` | backend/app/summarizer.py:1498-1554 | The same for those fields that are kept per client as custom fields. |
| `SummarizerService.DbSession.PersistAnalysis` | backend/app/summarizer.py:577-613 | The savepoint: either every result is written or the database is as before, whichever write fails. |
| `SummarizerService.DbSession.PersistMarker` | backend/app/summarizer.py:516-547 | The same for the failure marker. |
| `SummarizerService.DbSession.RunSummarizer` | backend/app/summarizer.py:285-646 | The whole run with a failure possible at every point: what is committed, and whether the caller sees an exception. |
| `SummarizerService.DbSession.Summarize` | backend/app/summarizer.py:234-282 | The same for both entry points inside their transaction. |
| `SummarizerRuns.AllOrNothing` | backend/app/summarizer.py:498-552 | Whatever step fails, all results of a run are committed or none; then the database is as other transactions left it, apart from the failure marker and turn totals. |
| `SummarizerRuns.DurableOutcome` | backend/app/summarizer.py:259-282 | The durable entry point returns normally only when there was nothing to do, everything is committed, or the session was gone; if it raises, no results are committed. The legacy one never raises. |
| `SummarizerRuns.RunsKeepOneAnalysis` | backend/app/summarizer.py:1647-1655 | Any sequence of runs, failing or not, leaves at most one analysis row per session. |
| `SummarizerRuns.UpsertKeepsOne` | backend/app/summarizer.py:1772-1785 | Neither upsert can make a second row. |
| `SummarizerRuns.RunsRemember` | backend/app/summarizer.py:1095-1180 | Over any runs, with others at work meanwhile that forget nothing either, a lead keeps its refusal flag, its objections and any status past `called`; interest history only grows, within 0 to 100. |
| `SummarizerRuns.FactsAreTheLog` | backend/app/summarizer.py:577-613 | The committed fact table is what the write logs of the successful runs make of it, together with what others wrote while the model was asked; failed runs leave no trace. |
| `SummarizerRuns.WritesWellKeyed` | backend/app/summarizer.py:1921-2011 | All writes of a call are keyed so that a list-type key determines its value. |
| `SummarizerRuns.KeysDetermineListValues` | backend/app/summarizer.py:1958-2011 | So no other writer can ever give a list-type key a different value. |
| `SummarizerRuns.LogIsIssued` | backend/app/summarizer.py:2046-2141 | Every write in the log of the runs is one that a run issues with validated profile updates. |
| `SummarizerRecords.ListFactsAreStored` | backend/app/summarizer.py:1958-2011 | After a committed run a lead has an active "pain:", "service_issue:", "objection:" or "signal:" row of a value if and only if it had one before or the call lists the value among its pain points, service issues, objections or commitments, each under its own prefix. |
| `SummarizerRecords.SingleFactsAreStored` | backend/app/summarizer.py:1876-1948 | After a committed run each of interest_level, current_insurance, next_action, primary_need, classification and do_not_call that the call gives has active rows with its value only. |
| `SummarizerRecords.CorrectionsAreStored` | backend/app/summarizer.py:1394-1554 | The last effective correction of a field is what the column, the custom field of the client, and the fact hold afterwards; the fact of the insurance gives way to one the call states itself. |
| `SummarizerRecords.UncorrectedFieldsStay` | backend/app/summarizer.py:1394-1554 | Columns and custom fields without an effective correction keep their value. |
| `SummarizerRecords.RowsFollowWrites` | backend/app/summarizer.py:1921-2011 | For every list of usable writes: outside the profile namespace a key is active afterwards exactly when it was or was written, a key never written keeps its rows, and a key of single values holds the last value written. |
| `SummarizerRecords.LeadIsUpdated` | backend/app/summarizer.py:1095-1155 | Column by column what a committed run makes of its lead: latest summary, level and action, union of objections and collected facts, refusal set exactly by a close, a refusal or a do-not-contact outcome; no other lead changes. |
| `SummarizerRecords.StatusMoves` | backend/app/summarizer.py:160-225 | A lead's status moves from called only, and to quoted, follow-up or not interested exactly for the stated actions and outcomes. |
| `SummarizerRecords.HistoryGrows` | backend/app/summarizer.py:2208-2238 | One interest entry is appended if the call gives a level, clamped to 0 to 100; none otherwise. |
| `SummarizerRecords.SessionIsUpdated` | backend/app/summarizer.py:577-613 | The session gets summary, facts and the number of user and agent turns; an analysis row holds the result; no other session changes. |
| `SummarizerRecords.RowIsUpserted` | backend/app/summarizer.py:1621-1785 | After an upsert one row of the session holds the values, all other rows are as they were; a failure marker keeps an earlier summary and facts. |
| `SummarizerRecords.ModelFailureIsRecorded` | backend/app/summarizer.py:513-552 | When only the model fails, the marker is committed on session and analysis, and the run raises exactly for the durable entry point. |
| `SummarizerRecords.PipelineFollowsUpdates` | backend/app/summarizer.py:2067-2141 | Each profile update with a category and a text is one write of its own operation under its own key, in order. |
| `ProfileValidation.ValidateUpdates` | backend/app/analysis/universal/profile_facts.py:338-378 | Additions pass; updates with an unknown target become additions, removals with one are discarded; without current facts only additions pass. |
| `ProfileValidation.UnchangedIffSound` | backend/app/analysis/universal/profile_facts.py:338-378 | Validation changes a list exactly when some proposal cannot be carried out as it stands; its own result it lets through. |
| `ProfileValidation.EachFaresAlone` | backend/app/analysis/universal/profile_facts.py:338-378 | Each proposal fares on its own, in order: what becomes of an addition, update or removal depends on its own target and the current facts only. |
| `ProfileValidation.PassedWritesStay` | backend/app/analysis/universal/profile_facts.py:338-378 | Whatever the model proposes, what passes validation makes the writer touch keys of the profile namespace only. |
| `SummarizerRecords.CurrentMeansActive` | backend/app/summarizer.py:365-372 | The keys that proposals may refer to are exactly those of the lead's active facts in the profile namespace. |
| `SummarizerRuns.FactTableTheorem` | backend/app/summarizer.py:1581-1608 | End to end: from an empty table, after any sequence of runs, each with other runs committing while its model is asked, every key outside the profile namespace holds the values written, in order of commit, with consecutive repeats collapsed, only the last one active. |
| `TenantDeletion.Database.DeleteFrom` | backend/alembic/versions/20261003_0020_delete_qora_demo_tenant.py:46-75 | Exactly the rows of the table that meet the clause are gone, every other row of every table is as it was; an absent table is skipped; an absent parent table is an error that changes nothing. |
| `TenantDeletion.Database.SetToNull` | backend/alembic/versions/20261003_0020_delete_qora_demo_tenant.py:118-150 | No row comes or goes; exactly the rows that meet the clause lose that one reference and nothing else; errors as above. |
| `TenantDeletion.Database.Upgrade` | backend/alembic/versions/20261003_0020_delete_qora_demo_tenant.py:55-175 | The fourteen statements in order; an error stops the migration. |
| `TenantDeletionProofs.PrefixReachesStage` | backend/alembic/versions/20261003_0020_delete_qora_demo_tenant.py:62-175 | After k statements the rows are those chosen by clauses read on the original database, for every k: no statement destroys what a later clause needs. |
| `TenantDeletionProofs.UpgradeDeletesTheDoomed` | backend/alembic/versions/20261003_0020_delete_qora_demo_tenant.py:62-175 | The statements in order have the effect of deleting all their rows at once. |
| `TenantDeletionProofs.RunsToTheEndIff` | backend/alembic/versions/20261003_0020_delete_qora_demo_tenant.py:46-52 | The migration runs to its end if and only if the parents of every present table are present. |
| `TenantDeletionProofs.KeysValidThroughoutIff` | backend/alembic/versions/20261003_0020_delete_qora_demo_tenant.py:62-175 | Starting from valid foreign keys, they are valid after each of the fourteen statements if and only if no row that stays refers to a row that goes. |
| `TenantDeletionProofs.DeletionOrder` | backend/alembic/versions/20261003_0020_delete_qora_demo_tenant.py:62-175 | For each foreign key, children go before their parents or their reference is nulled before. |
| `TenantDeletionProofs.DoomedIffOwned` | backend/alembic/versions/20261003_0020_delete_qora_demo_tenant.py:62-175 | When linked rows have one owner, the rows that go are exactly the rows the tenant owns, directly or through a lead, call or agent, whichever tables are present. |
| `TenantDeletionProofs.TenantIsRemovedExactly` | backend/alembic/versions/20261003_0020_delete_qora_demo_tenant.py:46-175 | Then, on every set of tables on which the migration runs, every foreign key holds after every statement, no row of the tenant is left, and every other tenant's rows are as they were. |
| `TenantDeletionProofs.SourceCallsStay` | backend/alembic/versions/20261003_0020_delete_qora_demo_tenant.py:84-104 | Without any assumption on owners: a fact or interest row that stays and knew its source call still finds it, though no constraint protects that column. |
| `TenantDeletionProofs.SecondUpgradeChangesNothing` | backend/alembic/versions/20261003_0020_delete_qora_demo_tenant.py:55-60 | Running the migration again changes nothing, on any database on which it ran. |
| `RetireDuplicates.ScheduledCalls.Upgrade` | backend/alembic/versions/20260727_0011_auto_dialer_active_lead_index.py:95-109 | Retires the duplicates in place, builds the index, and returns the sum over leads of their calls in progress less one. |
| `RetireDuplicates.ScheduledCalls.CountAhead` | backend/alembic/versions/20260727_0011_auto_dialer_active_lead_index.py:78-83 | The window rank of a row, counted. |
| `RetireDuplicates.ScheduledCalls.SelectDuplicates` | backend/alembic/versions/20260727_0011_auto_dialer_active_lead_index.py:77-84 | Exactly the rows with a rank above one. |
| `RetireDuplicates.OneNewestIsKept` | backend/alembic/versions/20260727_0011_auto_dialer_active_lead_index.py:72-85 | Each lead that had calls in progress has exactly one afterwards: the newest by scheduled time, creation time and id. |
| `RetireDuplicates.KeptIsLatest` | backend/alembic/versions/20260727_0011_auto_dialer_active_lead_index.py:78-83 | The call that stays in progress was scheduled after every other of the lead, or created after it, or has the greater id, compared in this order. |
| `RetireDuplicates.RetiredRecord` | backend/alembic/versions/20260727_0011_auto_dialer_active_lead_index.py:73-77 | A retired call was in progress and has failed; its notes are the former ones with the reason appended; nothing else differs. |
| `RetireDuplicates.FirstIffNewest` | backend/alembic/versions/20260727_0011_auto_dialer_active_lead_index.py:79-81 | Rank one goes to the newest call of the lead and to no other. |
| `RetireDuplicates.NewerTotal` | backend/alembic/versions/20260727_0011_auto_dialer_active_lead_index.py:81 | The three-part order is total, so ranks never tie. |
| `RetireDuplicates.OthersUnchanged` | backend/alembic/versions/20260727_0011_auto_dialer_active_lead_index.py:73-77 | A row changes exactly when it is in progress and not the newest of its lead, and then only in status and notes. |
| `RetireDuplicates.IndexCanBeBuilt` | backend/alembic/versions/20260727_0011_auto_dialer_active_lead_index.py:87-90 | Afterwards the partial unique index can be built. |
| `RetireDuplicates.SecondRunRetiresNothing` | backend/alembic/versions/20260727_0011_auto_dialer_active_lead_index.py:72-85 | On a table on which the index can be built the update changes nothing, so a second run retires nothing. |
| `RetireDuplicates.RetiredCountIsSurplus` | backend/alembic/versions/20260727_0011_auto_dialer_active_lead_index.py:100-106 | The number of retired rows is the sum over leads of n - 1. |
| `Streaming.StreamEvents` | backend/app/ai/llm_streaming.py:172-268 | For an unbroken stream the events are the contents that are present, in order; then, only if the last finish reason given is `tool_calls`, one call per index whose id, name and arguments are each the concatenation of what was sent for that index, in stream order; then the end. On an API error the contents received so far and an error. |
| `Streaming.ReadChunks` | backend/app/ai/llm_streaming.py:213-246 | The accumulation over all chunks: calls by index, in order of insertion, hold the concatenated fragments. |
| `Streaming.ReadChoice` | backend/app/ai/llm_streaming.py:216-246 | One choice: its content is emitted, its fragments accumulated, its finish reason kept. |
| `Streaming.Accumulate` | backend/app/ai/llm_streaming.py:226-243 | One fragment extends the id, name and arguments of its own index at their ends, and no other call. |
| `Streaming.EventsAreStream` | backend/app/ai/llm_streaming.py:213-268 | The same for every list of chunks, with contents, fragments and finish reason read from the front of the stream. |
| `Streaming.JoinedIsConcatenation` | backend/app/ai/llm_streaming.py:236-243 | Each column of an accumulated call is the concatenation, from the front, of that column over the fragments of its index. |
| `Streaming.JoinedOfProjection` | backend/app/ai/llm_streaming.py:226-243 | A call depends on the fragments of its own index only. |
| `Streaming.InterleavingIsIrrelevant` | backend/app/ai/llm_streaming.py:226-243 | Streams that agree on every index's own fragments give the same calls, however different indices interleave. |
| `Streaming.SwapKeepsCalls` | backend/app/ai/llm_streaming.py:226-243 | Swapping neighbouring fragments of different indices changes no call. |
| `Streaming.IndicesInOrderOfAppearance` | backend/app/ai/llm_streaming.py:259-266 | One call per index that occurs, in the order in which the indices first occur. |
| `Analytics.GetOverview` | backend/app/analytics/service.py:116-152 | Total, outcome distribution, mean duration over the calls that have one, and share of positive calls. |
| `Analytics.OutcomesAreCounts` | backend/app/analytics/service.py:121-130 | An outcome is in the distribution exactly when some row has it, with the number of those rows. |
| `Analytics.GetAgentStats` | backend/app/analytics/service.py:347-420 | One entry per agent in order of first appearance, each with the numbers of exactly its own rows. |
| `Analytics.CountCall` | backend/app/analytics/service.py:374-403 | One row is added to its agent's entry and to no other. |
| `Analytics.MergeCounts` | backend/app/analytics/service.py:243-253 | Every issue of either source once, with the sum of its counts, in order of first appearance; the grand total is conserved. |
| `Analytics.SortDescending` | backend/app/analytics/service.py:255-258 | A stable sort: larger counts first, equal counts in their former order, a permutation. |
| `Analytics.RankIssues` | backend/app/analytics/service.py:243-265 | The true top of the fetched rows: exact totals, non-increasing, ranks 1 to k, no omitted issue larger than a listed one, ties and the cut-off by first appearance. |
| `Analytics.GetServiceIssues` | backend/app/analytics/service.py:187-265 | The same for the rows of the two queries, with the namespace prefix dropped from fact keys. |
| `AnalyticsRecords.OverviewIsCounted` | backend/app/analytics/service.py:116-152 | Every number of an overview by counting rows: each outcome, the mean of the durations that are known, the share of positive calls; absent exactly when there is nothing to average. |
| `AnalyticsRecords.AgentIsCounted` | backend/app/analytics/service.py:374-420 | The same for an agent's entry over its own rows, the calls without agent being "unassigned". |
| `AnalyticsRecords.TotalIsCounted` | backend/app/analytics/service.py:243-253 | An issue's total is the sum of its counts over the rows of both queries. |
| `AnalyticsRecords.IssueNames` | backend/app/analytics/service.py:243-253 | A missing issue is named "None"; a fact key loses its prefix exactly when it has it. |
| `AnalyticsProofs.AgentsPartitionOverview` | backend/app/analytics/service.py:374-420 | Calls, every outcome count and conversions sum over the agents to the overview's. |
| `AnalyticsProofs.BucketsPartition` | backend/app/analytics/service.py:374-403 | Buckets partition the rows: any outcome's count over all buckets is its count over all rows. |
| `AnalyticsProofs.EntryIsFilteredOverviewIff` | backend/app/analytics/service.py:374-420 | An agent's entry equals the overview filtered to it exactly when its id is not the name of the bucket for calls without agent, or there are no such calls. |
| `AnalyticsProofs.RankingIsTrueTopIff` | backend/app/analytics/service.py:187-258 | As each query stops at its limit, the ranking is a true top list of all data if and only if, for every issue a query dropped, at least `limit` issues reach its full total in the fetched rows: a condition on the data of the two queries alone. |
| `AnalyticsProofs.CountIsFullIff` | backend/app/analytics/service.py:187-253 | An issue's computed count is its full count exactly when neither query dropped it. |
| `AnalyticsProofs.DroppedRowsHideTheTop` | backend/app/analytics/service.py:166-258 | For every limit of at least 1 there are query results in which the issue with the largest total of all is not listed. |
| `AnalyticsProofs.CrowdedIsAResult` | backend/app/analytics/service.py:187-241 | Those are results the grouped queries can have: each issue once, most frequent first, positive counts. |
| `ClientSlugs.SlugIsJoinedWords` | backend/app/clients/router.py:72-83 | A slug is the maximal runs of letters and digits of the name joined by single hyphens, "client" if there are none. |
| `ClientSlugs.SlugIsValid` | backend/app/clients/schemas.py:21 | Every generated slug matches the slug pattern and has no two hyphens in a row. |
| `ClientSlugs.SlugKeepsLettersAndDigits` | backend/app/clients/router.py:72-83 | A slug has all letters a to z and digits of the lower-cased name, in order, and otherwise only hyphens. |
| `ClientSlugs.SameSlugIff` | backend/app/clients/router.py:72-83 | Two names compete for one slug exactly when they have the same words. |
| `ClientSlugs.SlugifyTwice` | backend/app/clients/router.py:72-83 | A slug is its own slug. |
| `ClientSlugs.CandidatesDiffer` | backend/app/clients/router.py:151-153 | All numbered candidates of a slug are different. |
| `Prelude.DigitsStandForNumber` | backend/app/clients/router.py:151-153 | The suffix of a candidate is its number in decimal notation, without a leading zero. |
| `ClientSlugs.CandidateIsSlug` | backend/app/clients/router.py:151-153 | Every candidate matches the slug pattern. |
| `ClientSlugs.CandidatesFillUp` | backend/app/clients/router.py:146-153 | n taken candidates need at least n taken identifiers: the loop must end. |
| `ClientSlugs.ResolveClientId` | backend/app/clients/router.py:146-153 | For any name and set of taken identifiers: at most one lookup more than there are identifiers; the result is free, matches the pattern, and is the candidate with the smallest usable number. |
| `ClientSlugs.CompetitorsAreNumbered` | backend/app/clients/router.py:111-112 | Names competing for a fresh slug get it bare, then with -2, -3 and so on, in the order of creation. |
| `ClientSlugs.ClientTable.CreateClient` | backend/app/clients/router.py:137-190 | Invalid, taken and same-name requests are refused in this order without a trace; otherwise exactly one client is added under the given identifier or the first free one, with one default agent and first revisions; identifiers stay valid, names unique, and every client has an agent. |
| `ClientSlugs.ClientTable.CreateAgent` | backend/app/tenants/service.py:622-667 | One agent is added with its first revision unless its client already has the slug. |
| `ClientSlugs.AgentSlugIsJoinedWords` | backend/app/tenants/service.py:201-205 | The slug of the first agent, made in other steps than a client's, is the words of its name joined by single hyphens, "agent" if there are none; always valid. |
| `TranscriptText.FormatTranscript` | backend/app/summarizer.py:649-662 | The printed transcript is the labelled turns joined by line feeds. |
| `TranscriptText.PrintedForm` | backend/app/summarizer.py:649-662 | A turn is printed as "Agente: " or "Lead: " and its content, and turns are joined by single line feeds. |
| `TranscriptText.ParseTranscript` | backend/scripts/seed_analysis_demo_call.py:46-57 | The parsed turns are those of the labelled lines, in order. |
| `TranscriptText.PrintedTurnParses` | backend/app/summarizer.py:649-662 | A printed turn parses to its trimmed first line under its normalised role, followed by whatever its further lines parse to. |
| `TranscriptText.RoundTripIff` | backend/scripts/seed_analysis_demo_call.py:46-57 | Parsing a printed transcript gives the normalised turns (trimmed, every role but agent read as user) if and only if no turn has text after its first line break. |
| `TranscriptText.RoundTripCharacters` | backend/scripts/seed_analysis_demo_call.py:46-57 | The same condition on characters: no content has a character other than whitespace after one of the ten that end a line. |
| `TranscriptText.TrimmedExactly` | backend/scripts/seed_analysis_demo_call.py:50-56 | Trimming drops whitespace at both ends, all of it and nothing else. |
| `TranscriptText.RoundTrip` | backend/app/summarizer.py:649-662 | Agent and user turns without line breaks or outer whitespace come back exactly. |
| `TranscriptText.FirstLineIsContentIff` | backend/scripts/seed_analysis_demo_call.py:50-56 | Trimming the first line gives the trimmed content exactly when only whitespace follows the first line break. |
| `Text.GatherJoin` | backend/scripts/seed_analysis_demo_call.py:49 | Splitting a joined text into lines and processing them is processing its parts one after the other, for every kind of line break. |

## Left out

- The SQL engine, the object-relational mapper, asynchronous scheduling, logging and HTTP: tables are maps and sequences, a query is its result, and each operation runs on its own.
- The language model and everything around its calls: its reply, or its failure, is a parameter of a run; so is what other transactions commit meanwhile.
- Which session an outbound provider event is matched to (`link_outbound_session_by_webhook`): the session found is a parameter.
- Agent and revision resolution in `create_session`, scheduling of summaries and jobs, `resolve_scheduled_call`: no effect on the modelled records.
- The microsecond clock and floating-point durations: times are whole seconds on a clock that does not go back, averages and rates are exact reals.
- Whether a lead is ready for a quote: a parameter of a run.
- How correction values are validated, normalised and coerced (the outcome for each is part of the model's answer), JSON texts, and the effects of follow-up scheduling and CRM synchronisation, whose failures are swallowed.
- Normalisation of fact keys and slugs of profile facts: keys arrive normalised, None for unusable ones.
- CRM import, which also writes call counters.
- The other analytics (interests, objections, pain points, trends) and the agent-filtered joins, which count a fact once per matching session.
- Python's sorting algorithm: an insertion sort with the same, stable result stands for it.
- Lower-casing of Unicode text: an arbitrary function of the display name in `CreateClient`; the slug laws hold for any text it gives.
- Deletion and renaming of clients; settings copied to a new client, its agent and their revisions.
- The two filters after the validation of profile updates: they select by evidence and text, so any selection is allowed.
- Down-migrations, and the additive migrations: copying of fields.
- `CallRuns.RunKeepsForestAndTurns`: requires of direct finalisation what `CallRuns.EndKeepsForestIff` shows to be necessary.
- `CallRuns.RunCounts`: does not hold for a lead with the empty id, which the code never counts.
- `FactStore.RowsAreHistoryOutsideProfile`: relies on validated pipeline targets, which `ProfileValidation.PassedWritesStay` provides and `SummarizerRuns.FactTableTheorem` uses.
- `SummarizerRuns.RunsRemember`: holds as far as the other transactions at work during a run forget nothing either.
- `SummarizerRuns.FactTableTheorem`: the fact writes of others during a run are those of runs; hand edits of the table are not covered.
