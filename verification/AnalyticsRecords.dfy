/**
 The numbers of the analytics said by counting rows: how many rows have a property, and sums from the
 first row on.
 */
module AnalyticsRecords {
  import opened Prelude
  import opened Analytics

  // ---------- Counting and summing rows ----------

  function WithOutcome(rows: seq<CallRow>, outcome: string): set<int> {
    set i | 0 <= i < |rows| && rows[i].classification == Some(outcome)
  }

  lemma {:induction false} OutcomeIsCounted(rows: seq<CallRow>, outcome: string)
    ensures OutcomeCount(rows, outcome) == |WithOutcome(rows, outcome)|
  {
    if rows != [] {
      var n := |rows| - 1;
      OutcomeIsCounted(rows[..n], outcome);
      var here := rows[n].classification == Some(outcome);
      assert WithOutcome(rows, outcome) == WithOutcome(rows[..n], outcome) + if here then {n} else {};
    }
  }

  /** Seconds talked, over the calls whose duration is known. */
  function Talked(rows: seq<CallRow>): real {
    if rows == [] then 0.0 else (if rows[0].duration.Some? then rows[0].duration.value else 0.0) + Talked(rows[1..])
  }

  function WithDuration(rows: seq<CallRow>): set<int> {
    set i | 0 <= i < |rows| && rows[i].duration.Some?
  }

  lemma {:induction false} TalkedSnoc(rows: seq<CallRow>, last: CallRow)
    ensures Talked(rows + [last]) == Talked(rows) + if last.duration.Some? then last.duration.value else 0.0
  {
    if rows == [] {
      assert rows + [last] == [last] && [last][1..] == [];
    } else {
      assert (rows + [last])[1..] == rows[1..] + [last];
      TalkedSnoc(rows[1..], last);
    }
  }

  lemma {:induction false} DurationsAreTalked(rows: seq<CallRow>)
    ensures Total(Durations(rows)) == Talked(rows)
    ensures |Durations(rows)| == |WithDuration(rows)|
  {
    if rows != [] {
      var n := |rows| - 1;
      DurationsAreTalked(rows[..n]);
      TalkedSnoc(rows[..n], rows[n]);
      assert rows == rows[..n] + [rows[n]];
      DurationsSnoc(rows);
      assert WithDuration(rows) == WithDuration(rows[..n]) + if rows[n].duration.Some? then {n} else {};
    }
  }

  lemma DurationsSnoc(rows: seq<CallRow>)
    requires rows != []
    ensures var before, last := Durations(rows[..|rows| - 1]), rows[|rows| - 1].duration;
            && |Durations(rows)| == |before| + (if last.Some? then 1 else 0)
            && Total(Durations(rows)) == Total(before) + if last.Some? then last.value else 0.0
  {
    var before := Durations(rows[..|rows| - 1]);
    if rows[|rows| - 1].duration.Some? {
      assert Durations(rows)[..|before|] == before;
    } else {
      assert Durations(rows) == before;
    }
  }

  /** An overview counts every outcome and averages and rates exactly the rows that it should. */
  lemma OverviewIsCounted(rows: seq<CallRow>, overview: Overview, outcome: string)
    requires overview.totalCalls == |rows| && overview.outcomes == Outcomes(rows) && overview.conversionRate == Rate(rows)
    requires var d := Durations(rows);
             overview.averageDuration == if d == [] then None else Some(Total(d) / |d| as real)
    ensures outcome in overview.outcomes <==> outcome != "" && WithOutcome(rows, outcome) != {}
    ensures outcome in overview.outcomes ==> overview.outcomes[outcome] == |WithOutcome(rows, outcome)|
    ensures overview.averageDuration.None? <==> WithDuration(rows) == {}
    ensures overview.averageDuration.Some? ==>
              overview.averageDuration.value == Talked(rows) / |WithDuration(rows)| as real
    ensures overview.conversionRate.None? <==> rows == []
    ensures overview.conversionRate.Some? ==>
              overview.conversionRate.value == |WithOutcome(rows, "completed_positive")| as real / |rows| as real
  {
    OutcomesAreCounts(rows, outcome);
    OutcomeIsCounted(rows, outcome);
    OutcomeIsCounted(rows, "completed_positive");
    DurationsAreTalked(rows);
  }

  // ---------- One agent ----------

  /** Rows of the agent; the calls without an agent go under the name "unassigned". */
  predicate BelongsTo(row: CallRow, agent: string) {
    row.agentId == Some(agent) || (row.agentId == None && agent == "unassigned")
  }

  function RowsOf(rows: seq<CallRow>, agent: string): set<int> {
    set i | 0 <= i < |rows| && BelongsTo(rows[i], agent)
  }

  function RowsOfWith(rows: seq<CallRow>, agent: string, outcome: string): set<int> {
    set i | 0 <= i < |rows| && BelongsTo(rows[i], agent) && rows[i].classification == Some(outcome)
  }

  lemma {:induction false} BucketIsCounted(rows: seq<CallRow>, agent: string, outcome: string)
    ensures |InBucket(rows, agent)| == |RowsOf(rows, agent)|
    ensures OutcomeCount(InBucket(rows, agent), outcome) == |RowsOfWith(rows, agent, outcome)|
  {
    if rows != [] {
      var n := |rows| - 1;
      BucketIsCounted(rows[..n], agent, outcome);
      RowsOfSnoc(rows, agent);
      RowsOfWithSnoc(rows, agent, outcome);
      BucketSnoc(rows, agent, outcome);
    }
  }

  lemma RowsOfSnoc(rows: seq<CallRow>, agent: string)
    requires rows != []
    ensures |RowsOf(rows, agent)| == |RowsOf(rows[..|rows| - 1], agent)| + if BelongsTo(rows[|rows| - 1], agent) then 1 else 0
  {
    var n := |rows| - 1;
    assert RowsOf(rows, agent) == RowsOf(rows[..n], agent) + if BelongsTo(rows[n], agent) then {n} else {};
  }

  lemma RowsOfWithSnoc(rows: seq<CallRow>, agent: string, outcome: string)
    requires rows != []
    ensures var last := rows[|rows| - 1];
            |RowsOfWith(rows, agent, outcome)| == |RowsOfWith(rows[..|rows| - 1], agent, outcome)|
                                                  + if BelongsTo(last, agent) && last.classification == Some(outcome) then 1 else 0
  {
    var n := |rows| - 1;
    var hit := BelongsTo(rows[n], agent) && rows[n].classification == Some(outcome);
    assert RowsOfWith(rows, agent, outcome) == RowsOfWith(rows[..n], agent, outcome) + if hit then {n} else {};
  }

  lemma BucketSnoc(rows: seq<CallRow>, agent: string, outcome: string)
    requires rows != []
    ensures var n, own := |rows| - 1, BelongsTo(rows[|rows| - 1], agent);
            && |InBucket(rows, agent)| == |InBucket(rows[..n], agent)| + (if own then 1 else 0)
            && OutcomeCount(InBucket(rows, agent), outcome) == OutcomeCount(InBucket(rows[..n], agent), outcome)
               + if own && rows[n].classification == Some(outcome) then 1 else 0
  {
    var before := InBucket(rows[..|rows| - 1], agent);
    if BelongsTo(rows[|rows| - 1], agent) {
      assert InBucket(rows, agent)[..|before|] == before;
    } else {
      assert InBucket(rows, agent) == before;
    }
  }

  /** An agent's entry counts its own rows: all of them, those with each outcome, and the positive share. */
  lemma AgentIsCounted(rows: seq<CallRow>, stats: AgentStats, agent: string, outcome: string)
    requires StatsInBucket(stats, agent, rows)
    ensures stats.agentId == agent && stats.totalCalls == |RowsOf(rows, agent)| > 0
    ensures outcome in stats.outcomes <==> outcome != "" && RowsOfWith(rows, agent, outcome) != {}
    ensures outcome in stats.outcomes ==> stats.outcomes[outcome] == |RowsOfWith(rows, agent, outcome)|
    ensures stats.conversionRate.Some?
    ensures stats.conversionRate.value == |RowsOfWith(rows, agent, "completed_positive")| as real / stats.totalCalls as real
  {
    BucketIsCounted(rows, agent, outcome);
    BucketIsCounted(rows, agent, "completed_positive");
    OutcomesAreCounts(InBucket(rows, agent), outcome);
  }

  // ---------- Issue totals ----------

  function Counted(rows: seq<IssueCount>, issue: string): int {
    if rows == [] then 0 else (if rows[0].issue == issue then rows[0].count else 0) + Counted(rows[1..], issue)
  }

  lemma {:induction false} CountedSnoc(rows: seq<IssueCount>, last: IssueCount, issue: string)
    ensures Counted(rows + [last], issue) == Counted(rows, issue) + if last.issue == issue then last.count else 0
  {
    if rows == [] {
      assert rows + [last] == [last] && [last][1..] == [];
    } else {
      assert (rows + [last])[1..] == rows[1..] + [last];
      CountedSnoc(rows[1..], last, issue);
    }
  }

  /** The total of an issue is the sum of its counts over the rows of both sources. */
  lemma {:induction false} TotalIsCounted(rows: seq<IssueCount>, issue: string)
    ensures CountOf(rows, issue) == Counted(rows, issue)
  {
    if rows != [] {
      var n := |rows| - 1;
      TotalIsCounted(rows[..n], issue);
      CountedSnoc(rows[..n], rows[n], issue);
      assert rows == rows[..n] + [rows[n]];
    }
  }

  /** What the rows of the two queries are named: a missing issue is "None", and facts lose their prefix. */
  lemma IssueNames(analysisRows: seq<(Option<string>, int)>, factRows: seq<(string, int)>, i: nat, rest: string)
    ensures i < |analysisRows| ==>
              FromAnalyses(analysisRows)[i] ==
              IssueCount(if analysisRows[i].0 == None then "None" else analysisRows[i].0.value, analysisRows[i].1)
    ensures i < |factRows| && factRows[i].0 == "service_issue:" + rest ==>
              FromFacts(factRows)[i] == IssueCount(rest, factRows[i].1)
    ensures i < |factRows| && !("service_issue:" <= factRows[i].0) ==>
              FromFacts(factRows)[i] == IssueCount(factRows[i].0, factRows[i].1)
  {
    assert ("service_issue:" + rest)[|"service_issue:"|..] == rest;
  }
}
