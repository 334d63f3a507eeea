/**
 The telephony status table, and the two rules that write a status when a call ends.
 */
module Telephony {
  import opened Prelude

  datatype CallStatus =
    | Queued | Dialing | Ringing | Connected | Voicemail
    | Completed | NoAnswer | Failed | RecurrentError | StaleInCall

  const VOICEMAIL_MAX_DURATION_SECONDS := 30

  function ValidTransitions(from: CallStatus): set<CallStatus> {
    match from
    case Queued => {Dialing}
    case Dialing => {Ringing, Failed, RecurrentError}
    case Ringing => {Connected, NoAnswer, StaleInCall}
    case Connected => {Voicemail, Completed, StaleInCall}
    case Voicemail => {Completed}
    case Failed => {Dialing}
    case Completed => {}
    case NoAnswer => {}
    case RecurrentError => {}
    case StaleInCall => {}
  }

  predicate ValidateTransition(from: CallStatus, to: CallStatus) {
    to in ValidTransitions(from)
  }

  /** A run of the table: it starts queued and takes only permitted transitions. */
  predicate IsRun(path: seq<CallStatus>) {
    && path != []
    && path[0] == Queued
    && forall i {:trigger path[i]} :: 0 < i < |path| ==> ValidateTransition(path[i - 1], path[i])
  }

  function Visits(path: seq<CallStatus>, status: CallStatus): nat {
    if path == [] then 0
    else Visits(path[..|path| - 1], status) + if path[|path| - 1] == status then 1 else 0
  }

  lemma VisitsSnoc(path: seq<CallStatus>, last: CallStatus, status: CallStatus)
    ensures Visits(path + [last], status) == Visits(path, status) + if last == status then 1 else 0
  {
    assert (path + [last])[..|path|] == path;
  }

  // Distance from the last (re)dial, not counting two states for every failed attempt.
  predicate DepthIs(status: CallStatus, depth: int) {
    match status
    case Queued => depth == 1
    case Failed => depth == 1
    case Dialing => depth == 2
    case Ringing => depth == 3
    case RecurrentError => depth == 3
    case Connected => depth == 4
    case NoAnswer => depth == 4
    case StaleInCall => 4 <= depth <= 5
    case Voicemail => depth == 5
    case Completed => 5 <= depth <= 6
  }

  lemma {:induction false} RunLength(path: seq<CallStatus>)
    requires IsRun(path)
    ensures DepthIs(path[|path| - 1], |path| - 2 * Visits(path, Failed))
  {
    var n := |path| - 1;
    if n == 0 {
      assert path[..0] == [];
    } else {
      var prefix := path[..n];
      assert IsRun(prefix) by {
        forall i | 0 < i < |prefix| ensures ValidateTransition(prefix[i - 1], prefix[i]) {
          assert prefix[i] == path[i];
        }
      }
      RunLength(prefix);
      assert ValidateTransition(path[n - 1], path[n]);
    }
  }

  /** A run that visits `failed` k times has at most 2k + 6 states. */
  lemma {:induction false} RunIsShort(path: seq<CallStatus>)
    requires IsRun(path)
    ensures |path| <= 2 * Visits(path, Failed) + 6
  {
    RunLength(path);
  }

  /** The longest run with k failed attempts, up to its last redial. */
  function Redials(k: nat): (path: seq<CallStatus>) {
    if k == 0 then [Queued, Dialing] else Redials(k - 1) + [Failed, Dialing]
  }

  lemma {:induction false} RedialsIsRun(k: nat)
    ensures IsRun(Redials(k)) && |Redials(k)| == 2 * k + 2
    ensures Redials(k)[|Redials(k)| - 1] == Dialing && Visits(Redials(k), Failed) == k
  {
    if k == 0 {
      assert [Queued, Dialing][..1] == [Queued] && [Queued][..0] == [];
    } else {
      RedialsIsRun(k - 1);
      OneMoreRedial(Redials(k - 1));
    }
  }

  lemma {:induction false} OneMoreRedial(p: seq<CallStatus>)
    requires IsRun(p) && p[|p| - 1] == Dialing
    ensures IsRun(p + [Failed, Dialing]) && Visits(p + [Failed, Dialing], Failed) == Visits(p, Failed) + 1
  {
    RunSnoc(p, Failed);
    RunSnoc(p + [Failed], Dialing);
    assert p + [Failed, Dialing] == p + [Failed] + [Dialing];
  }

  /** The bound of RunIsShort is reached for every number of failed attempts. */
  lemma BoundIsTight(k: nat) returns (path: seq<CallStatus>)
    ensures IsRun(path) && Visits(path, Failed) == k && |path| == 2 * k + 6
  {
    RedialsIsRun(k);
    var p := Redials(k);
    RunSnoc(p, Ringing);
    RunSnoc(p + [Ringing], Connected);
    RunSnoc(p + [Ringing] + [Connected], Voicemail);
    RunSnoc(p + [Ringing] + [Connected] + [Voicemail], Completed);
    path := p + [Ringing] + [Connected] + [Voicemail] + [Completed];
  }

  /** A status from which the table leads to this one, one place earlier. */
  function Previous(status: CallStatus, failures: nat, depth: int): CallStatus {
    match status
    case Queued => Queued
    case Failed => Dialing
    case Dialing => if failures == 0 then Queued else Failed
    case Ringing => Dialing
    case RecurrentError => Dialing
    case Connected => Ringing
    case NoAnswer => Ringing
    case StaleInCall => if depth == 4 then Ringing else Connected
    case Voicemail => Connected
    case Completed => if depth == 5 then Connected else Voicemail
  }

  /** Every place that RunLength allows a status is one where some run stands. */
  lemma {:induction false} EveryPlaceIsReached(status: CallStatus, failures: nat, depth: nat) returns (path: seq<CallStatus>)
    requires DepthIs(status, depth) && (status == Queued ==> failures == 0) && (status == Failed ==> failures > 0)
    ensures IsRun(path) && path[|path| - 1] == status
    ensures Visits(path, Failed) == failures && |path| == depth + 2 * failures
    decreases failures, depth
  {
    if status == Queued {
      path := [Queued];
      assert path[..0] == [];
    } else {
      var before := EveryPlaceIsReached(Previous(status, failures, depth), if status == Failed then failures - 1 else failures,
                                        if status == Failed then 2 else depth - 1);
      RunSnoc(before, status);
      path := before + [status];
    }
  }

  lemma RunSnoc(path: seq<CallStatus>, last: CallStatus)
    requires IsRun(path) && ValidateTransition(path[|path| - 1], last)
    ensures IsRun(path + [last])
    ensures Visits(path + [last], Failed) == Visits(path, Failed) + if last == Failed then 1 else 0
  {
    VisitsSnoc(path, last, Failed);
  }

  /** `completed` is reached only after dialing, ringing and connected, in that order. */
  lemma CompletedNeedsConversation(path: seq<CallStatus>, i: nat) returns (dial: nat, ring: nat, connect: nat)
    requires IsRun(path) && i < |path| && path[i] == Completed
    ensures dial < ring < connect < i
    ensures path[dial] == Dialing && path[ring] == Ringing && path[connect] == Connected
  {
    assert ValidateTransition(path[i - 1], path[i]);
    connect := if path[i - 1] == Connected then i - 1 else i - 2;
    assert ValidateTransition(path[i - 2], path[i - 1]);
    assert path[connect] == Connected;
    assert ValidateTransition(path[connect - 1], path[connect]);
    ring := connect - 1;
    assert ValidateTransition(path[ring - 1], path[ring]);
    dial := ring - 1;
  }

  /** The four terminal states are never left, so a run that meets one ends there. */
  lemma TerminalStatesEndRuns(path: seq<CallStatus>, i: nat)
    requires IsRun(path) && i < |path|
    ensures path[i] in {Completed, NoAnswer, RecurrentError, StaleInCall} ==> i == |path| - 1
    ensures ValidTransitions(path[i]) == {} <==> path[i] in {Completed, NoAnswer, RecurrentError, StaleInCall}
  {
    if i < |path| - 1 {
      assert ValidateTransition(path[i + 1 - 1], path[i + 1]);
    }
  }

  /** The status written when a session-end event arrives; inbound sessions have none. */
  function OnSessionEnd(status: Option<CallStatus>): Option<CallStatus> {
    if status.None? || status.value in {NoAnswer, RecurrentError} then status else Some(Completed)
  }

  /** Short calls in which the lead never spoke are taken to be voicemail pickups. */
  function ApplyVoicemailHeuristic(status: Option<CallStatus>, duration: int, userTurns: nat): Option<CallStatus> {
    if status.Some? && duration < VOICEMAIL_MAX_DURATION_SECONDS && userTurns == 0 then Some(Voicemail) else status
  }

  /** What closing a session makes of its telephony status. */
  function OnClose(status: Option<CallStatus>, duration: int, userTurns: nat): Option<CallStatus> {
    var ended := OnSessionEnd(status);
    if ended == Some(Completed) then ApplyVoicemailHeuristic(ended, duration, userTurns) else ended
  }

  /**
   Closing a session does not consult the table. Its net effect is a permitted transition, or no
   change at all, exactly when the call had been connected, had already ended without a
   conversation, or already stood at the status it would be given.
   */
  lemma CloseFollowsTableIff(status: CallStatus, duration: int, userTurns: nat)
    ensures var short := duration < VOICEMAIL_MAX_DURATION_SECONDS && userTurns == 0;
            var after := OnClose(Some(status), duration, userTurns);
            (after == Some(status) || (after.Some? && ValidateTransition(status, after.value)))
            <==>
            || status in {Connected, Voicemail, NoAnswer, RecurrentError}
            || (status == Completed && !short)
  {
    match status {
      case Queued => case Dialing => case Ringing => case Connected => case Voicemail =>
      case Completed => case NoAnswer => case Failed => case RecurrentError => case StaleInCall =>
    }
  }
}
