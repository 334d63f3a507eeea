/**
 Agent statistics partition the overview, and what the limits of the two issue queries do to the ranking.
 */
module AnalyticsProofs {
  import opened Prelude
  import opened Analytics

  // ---------- Agents partition the calls ----------

  /** Number of rows, or of rows with a given outcome. */
  function Measure(rows: seq<CallRow>, outcome: Option<string>): nat {
    if outcome.None? then |rows| else OutcomeCount(rows, outcome.value)
  }

  function OverBuckets(rows: seq<CallRow>, buckets: seq<string>, outcome: Option<string>): nat {
    if buckets == [] then 0
    else OverBuckets(rows, buckets[..|buckets| - 1], outcome) + Measure(InBucket(rows, buckets[|buckets| - 1]), outcome)
  }

  predicate NoRepeat(buckets: seq<string>) {
    forall i, j | 0 <= i < j < |buckets| :: buckets[i] != buckets[j]
  }

  lemma {:induction false} BucketsDistinct(rows: seq<CallRow>)
    ensures NoRepeat(Buckets(rows))
  {
    if rows != [] {
      BucketsDistinct(rows[..|rows| - 1]);
    }
  }

  lemma MeasureAppend(rows: seq<CallRow>, row: CallRow, outcome: Option<string>)
    ensures Measure(rows + [row], outcome) == Measure(rows, outcome) + Measure([row], outcome)
  {
    assert (rows + [row])[..|rows|] == rows;
    assert [row][..0] == [] && [row][|[row]| - 1] == row;
    if outcome.Some? {
      assert OutcomeCount([row], outcome.value) == OutcomeCount([row][..0], outcome.value) + if row.classification == outcome then 1 else 0;
    }
  }

  lemma {:induction false} OneMoreRow(rows: seq<CallRow>, row: CallRow, buckets: seq<string>, outcome: Option<string>)
    requires NoRepeat(buckets)
    ensures OverBuckets(rows + [row], buckets, outcome)
         == OverBuckets(rows, buckets, outcome) + if Bucket(row) in buckets then Measure([row], outcome) else 0
  {
    if buckets != [] {
      var n := |buckets| - 1;
      OneMoreRow(rows, row, buckets[..n], outcome);
      BucketMeasure(rows, row, buckets[n], outcome);
      InAllButLast(buckets, Bucket(row));
    }
  }

  lemma InAllButLast(buckets: seq<string>, bucket: string)
    requires buckets != [] && NoRepeat(buckets)
    ensures bucket in buckets <==> bucket in buckets[..|buckets| - 1] || bucket == buckets[|buckets| - 1]
    ensures !(bucket in buckets[..|buckets| - 1] && bucket == buckets[|buckets| - 1])
    ensures NoRepeat(buckets[..|buckets| - 1])
  {}

  lemma BucketMeasure(rows: seq<CallRow>, row: CallRow, bucket: string, outcome: Option<string>)
    ensures Measure(InBucket(rows + [row], bucket), outcome)
         == Measure(InBucket(rows, bucket), outcome) + if Bucket(row) == bucket then Measure([row], outcome) else 0
  {
    InBucketAppend(rows, row, bucket);
    MeasureAppend(InBucket(rows, bucket), row, outcome);
  }

  /** Calls, and calls with any one outcome, sum over the agents to the overview's number. */
  lemma {:induction false} BucketsPartition(rows: seq<CallRow>, outcome: Option<string>)
    ensures OverBuckets(rows, Buckets(rows), outcome) == Measure(rows, outcome)
  {
    if rows != [] {
      var before, last := rows[..|rows| - 1], rows[|rows| - 1];
      assert rows == before + [last];
      BucketsPartition(before, outcome);
      BucketsDistinct(rows);
      OneMoreRow(before, last, Buckets(rows), outcome);
      MeasureAppend(before, last, outcome);
      if Bucket(last) !in Buckets(before) {
        EmptyBucketIff(before, Bucket(last));
        assert Buckets(rows)[..|Buckets(before)|] == Buckets(before);
      }
    }
  }

  function CallsOver(agents: seq<AgentStats>): nat {
    if agents == [] then 0 else CallsOver(agents[..|agents| - 1]) + agents[|agents| - 1].totalCalls
  }

  function OutcomeOver(agents: seq<AgentStats>, outcome: string): nat {
    if agents == [] then 0
    else
      var last := agents[|agents| - 1].outcomes;
      OutcomeOver(agents[..|agents| - 1], outcome) + if outcome in last then last[outcome] else 0
  }

  /** An agent's conversion rate weighted by the number of its calls. */
  function Converted(stats: AgentStats): real {
    if stats.conversionRate.Some? then stats.conversionRate.value * stats.totalCalls as real else 0.0
  }

  function ConvertedOver(agents: seq<AgentStats>): real {
    if agents == [] then 0.0 else ConvertedOver(agents[..|agents| - 1]) + Converted(agents[|agents| - 1])
  }

  ghost predicate StatsFor(agents: seq<AgentStats>, buckets: seq<string>, rows: seq<CallRow>) {
    |agents| == |buckets| && forall i | 0 <= i < |agents| :: StatsInBucket(agents[i], buckets[i], rows)
  }

  lemma BucketAdds(rows: seq<CallRow>, buckets: seq<string>, k: nat, outcome: Option<string>)
    requires k < |buckets|
    ensures OverBuckets(rows, buckets[..k + 1], outcome)
         == OverBuckets(rows, buckets[..k], outcome) + Measure(InBucket(rows, buckets[k]), outcome)
  {
    assert buckets[..k + 1][..k] == buckets[..k];
  }

  lemma {:induction false} CallsSum(agents: seq<AgentStats>, buckets: seq<string>, rows: seq<CallRow>, k: nat)
    requires StatsFor(agents, buckets, rows) && k <= |agents|
    ensures CallsOver(agents[..k]) == OverBuckets(rows, buckets[..k], None)
  {
    if k > 0 {
      CallsSum(agents, buckets, rows, k - 1);
      BucketAdds(rows, buckets, k - 1, None);
      assert agents[..k][..k - 1] == agents[..k - 1];
    }
  }

  lemma {:induction false} OutcomeSum(agents: seq<AgentStats>, buckets: seq<string>, rows: seq<CallRow>, outcome: string, k: nat)
    requires StatsFor(agents, buckets, rows) && outcome != "" && k <= |agents|
    ensures OutcomeOver(agents[..k], outcome) == OverBuckets(rows, buckets[..k], Some(outcome))
  {
    if k > 0 {
      OutcomeSum(agents, buckets, rows, outcome, k - 1);
      BucketAdds(rows, buckets, k - 1, Some(outcome));
      OutcomesAreCounts(InBucket(rows, buckets[k - 1]), outcome);
      assert agents[..k][..k - 1] == agents[..k - 1];
    }
  }

  lemma AgentConverted(stats: AgentStats, bucket: string, own: seq<CallRow>)
    requires StatsOf(stats, bucket, own)
    ensures Converted(stats) == Measure(own, Some(POSITIVE)) as real
  {
    RateTimesCalls(own);
  }

  lemma {:induction false} ConvertedSum(agents: seq<AgentStats>, buckets: seq<string>, rows: seq<CallRow>, k: nat)
    requires StatsFor(agents, buckets, rows) && k <= |agents|
    ensures ConvertedOver(agents[..k]) == OverBuckets(rows, buckets[..k], Some(POSITIVE)) as real
  {
    if k > 0 {
      ConvertedSum(agents, buckets, rows, k - 1);
      BucketAdds(rows, buckets, k - 1, Some(POSITIVE));
      AgentConverted(agents[k - 1], buckets[k - 1], InBucket(rows, buckets[k - 1]));
      assert agents[..k][..k - 1] == agents[..k - 1];
    }
  }

  lemma RateTimesCalls(rows: seq<CallRow>)
    requires rows != []
    ensures Rate(rows).value * |rows| as real == OutcomeCount(rows, POSITIVE) as real
  {}

  /**
   The statistics that GetAgentStats returns partition the overview of the same rows: calls, every
   outcome and conversions sum to its numbers.
   */
  lemma {:induction false} AgentsPartitionOverview(rows: seq<CallRow>, agents: seq<AgentStats>, outcome: string)
    requires StatsFor(agents, Buckets(rows), rows) && outcome != ""
    ensures CallsOver(agents) == |rows|
    ensures OutcomeOver(agents, outcome) == if outcome in Outcomes(rows) then Outcomes(rows)[outcome] else 0
    ensures rows != [] ==> ConvertedOver(agents) == Rate(rows).value * |rows| as real
  {
    CallsSum(agents, Buckets(rows), rows, |agents|);
    OutcomeSum(agents, Buckets(rows), rows, outcome, |agents|);
    ConvertedSum(agents, Buckets(rows), rows, |agents|);
    assert agents[..|agents|] == agents && Buckets(rows)[..|agents|] == Buckets(rows);
    BucketsPartition(rows, None);
    BucketsPartition(rows, Some(outcome));
    BucketsPartition(rows, Some(POSITIVE));
    OutcomesAreCounts(rows, outcome);
    if rows != [] {
      RateTimesCalls(rows);
    }
  }

  // ---------- An agent's entry and the filtered overview ----------

  predicate NoneUnassigned(rows: seq<CallRow>) {
    forall row | row in rows :: row.agentId.Some?
  }

  lemma {:induction false} BucketIsFilter(rows: seq<CallRow>, agentId: string)
    ensures |OfAgent(rows, agentId)| <= |InBucket(rows, agentId)|
    ensures agentId != UNASSIGNED || NoneUnassigned(rows) ==> InBucket(rows, agentId) == OfAgent(rows, agentId)
    ensures agentId == UNASSIGNED && !NoneUnassigned(rows) ==> |OfAgent(rows, agentId)| < |InBucket(rows, agentId)|
  {
    if rows != [] {
      var before, last := rows[..|rows| - 1], rows[|rows| - 1];
      assert rows == before + [last];
      BucketIsFilter(before, agentId);
    }
  }

  /**
   An agent's entry equals the overview filtered to that agent exactly when its id is not the name of the
   bucket for calls without an agent, or there are no such calls.
   */
  lemma EntryIsFilteredOverviewIff(rows: seq<CallRow>, stats: AgentStats)
    requires StatsOf(stats, stats.agentId, InBucket(rows, stats.agentId))
    ensures (var own := OfAgent(rows, stats.agentId);
             stats.totalCalls == |own| && stats.outcomes == Outcomes(own) && stats.conversionRate == Rate(own))
       <==> stats.agentId != UNASSIGNED || NoneUnassigned(rows)
  {
    BucketIsFilter(rows, stats.agentId);
  }

  // ---------- The limits of the two issue queries ----------

  /** What a grouped query with a limit returns of its full result. */
  function Fetched(full: seq<IssueCount>, limit: nat): seq<IssueCount> {
    if |full| <= limit then full else full[..limit]
  }

  function Dropped(full: seq<IssueCount>, limit: nat): seq<IssueCount> {
    if |full| <= limit then [] else full[limit..]
  }

  predicate AllPositive(rows: seq<IssueCount>) {
    forall i | 0 <= i < |rows| :: rows[i].count > 0
  }

  lemma {:induction false} CountOfAppend(a: seq<IssueCount>, b: seq<IssueCount>, issue: string)
    ensures CountOf(a + b, issue) == CountOf(a, issue) + CountOf(b, issue)
  {
    if b == [] {
      assert a + b == a;
    } else {
      assert (a + b)[..|a + b| - 1] == a + b[..|b| - 1];
      CountOfAppend(a, b[..|b| - 1], issue);
    }
  }

  lemma {:induction false} PositiveCount(rows: seq<IssueCount>, issue: string)
    requires AllPositive(rows)
    ensures CountOf(rows, issue) >= 0
    ensures CountOf(rows, issue) > 0 <==> Mentions(rows, issue)
  {
    if rows != [] {
      var before, last := rows[..|rows| - 1], rows[|rows| - 1];
      assert rows == before + [last];
      PositiveCount(before, issue);
      MentionsAppend(before, last, issue);
    }
  }

  /** The count computed for an issue is its count in all data exactly when neither query dropped it. */
  lemma CountIsFullIff(first: seq<IssueCount>, second: seq<IssueCount>, limit: nat, issue: string)
    requires AllPositive(first) && AllPositive(second)
    ensures CountOf(Fetched(first, limit) + Fetched(second, limit), issue) == CountOf(first + second, issue)
       <==> !Mentions(Dropped(first, limit), issue) && !Mentions(Dropped(second, limit), issue)
  {
    CountOfAppend(Fetched(first, limit), Fetched(second, limit), issue);
    CountOfAppend(first, second, issue);
    DroppedCount(first, limit, issue);
    DroppedCount(second, limit, issue);
  }

  lemma DroppedCount(full: seq<IssueCount>, limit: nat, issue: string)
    requires AllPositive(full)
    ensures CountOf(Fetched(full, limit), issue) <= CountOf(full, issue)
    ensures CountOf(Fetched(full, limit), issue) == CountOf(full, issue) <==> !Mentions(Dropped(full, limit), issue)
  {
    assert full == Fetched(full, limit) + Dropped(full, limit);
    CountOfAppend(Fetched(full, limit), Dropped(full, limit), issue);
    PositiveCount(Dropped(full, limit), issue);
  }

  lemma MentionsSplit(full: seq<IssueCount>, limit: nat, issue: string)
    ensures Mentions(full, issue) <==> Mentions(Fetched(full, limit), issue) || Mentions(Dropped(full, limit), issue)
  {
    if |full| > limit {
      if Mentions(full, issue) {
        var i :| 0 <= i < |full| && full[i].issue == issue;
        if i < limit { assert full[..limit][i] == full[i]; } else { assert full[limit..][i - limit] == full[i]; }
      }
      if Mentions(full[..limit], issue) {
        var i :| 0 <= i < limit && full[..limit][i].issue == issue;
        assert full[i].issue == issue;
      }
      if Mentions(full[limit..], issue) {
        var i :| 0 <= i < |full| - limit && full[limit..][i].issue == issue;
        assert full[limit + i].issue == issue;
      }
    }
  }

  lemma MentionsConcat(a: seq<IssueCount>, b: seq<IssueCount>, issue: string)
    ensures Mentions(a + b, issue) <==> Mentions(a, issue) || Mentions(b, issue)
  {
    if Mentions(a, issue) {
      var i :| 0 <= i < |a| && a[i].issue == issue;
      assert (a + b)[i].issue == issue;
    }
    if Mentions(b, issue) {
      var i :| 0 <= i < |b| && b[i].issue == issue;
      assert (a + b)[|a| + i].issue == issue;
    }
  }

  predicate WasDropped(first: seq<IssueCount>, second: seq<IssueCount>, limit: nat, issue: string) {
    Mentions(Dropped(first, limit), issue) || Mentions(Dropped(second, limit), issue)
  }

  /** An issue that is not listed does not belong on a full list, and has no more than any listed one. */
  predicate FairlyOmitted(ranked: seq<RankedIssue>, rows: seq<IssueCount>, limit: nat, issue: string) {
    !Listed(ranked, issue) ==> |ranked| == limit && forall i | 0 <= i < |ranked| :: CountOf(rows, issue) <= ranked[i].count
  }

  lemma TopOfMeans(ranked: seq<RankedIssue>, rows: seq<IssueCount>, limit: nat)
    ensures TopOf(ranked, rows, limit) <==>
            && Ranking(ranked) && |ranked| <= limit
            && (forall i | 0 <= i < |ranked| :: ranked[i].count == CountOf(rows, ranked[i].issue) && Mentions(rows, ranked[i].issue))
            && (forall issue | Mentions(rows, issue) :: FairlyOmitted(ranked, rows, limit, issue))
  {
    if TopOf(ranked, rows, limit) {
      forall issue | Mentions(rows, issue) ensures FairlyOmitted(ranked, rows, limit, issue) {
        var k :| 0 <= k < |rows| && rows[k].issue == issue;
      }
    }
    if forall issue | Mentions(rows, issue) :: FairlyOmitted(ranked, rows, limit, issue) {
      forall k | 0 <= k < |rows| ensures FairlyOmitted(ranked, rows, limit, rows[k].issue) {
        assert Mentions(rows, rows[k].issue);
      }
    }
  }

  /** In terms of the computed list: no listed issue lost counts, and no dropped one belongs on the list. */
  lemma TrueTopByList(first: seq<IssueCount>, second: seq<IssueCount>, limit: nat, ranked: seq<RankedIssue>)
    requires AllPositive(first) && AllPositive(second)
    requires TopOf(ranked, Fetched(first, limit) + Fetched(second, limit), limit)
    ensures TopOf(ranked, first + second, limit) <==>
            forall issue | WasDropped(first, second, limit, issue) ::
              !Listed(ranked, issue) && FairlyOmitted(ranked, first + second, limit, issue)
  {
    var fetched, all := Fetched(first, limit) + Fetched(second, limit), first + second;
    TopOfMeans(ranked, fetched, limit);
    TopOfMeans(ranked, all, limit);
    forall issue
      ensures Mentions(all, issue) <==> Mentions(fetched, issue) || WasDropped(first, second, limit, issue)
      ensures CountOf(fetched, issue) == CountOf(all, issue) <==> !WasDropped(first, second, limit, issue)
    {
      CountIsFullIff(first, second, limit, issue);
      MentionsSplit(first, limit, issue);
      MentionsSplit(second, limit, issue);
      MentionsConcat(first, second, issue);
      MentionsConcat(Fetched(first, limit), Fetched(second, limit), issue);
    }
    if TopOf(ranked, all, limit) {
      forall issue | WasDropped(first, second, limit, issue) ensures !Listed(ranked, issue) {
        if Listed(ranked, issue) {
          assert false;
        }
      }
    }
    if forall issue | WasDropped(first, second, limit, issue) ::
         !Listed(ranked, issue) && FairlyOmitted(ranked, all, limit, issue) {
      forall i | 0 <= i < |ranked|
        ensures ranked[i].count == CountOf(all, ranked[i].issue) && Mentions(all, ranked[i].issue)
      {
        assert Listed(ranked, ranked[i].issue);
      }
      forall issue | Mentions(all, issue) ensures FairlyOmitted(ranked, all, limit, issue) {
        if !WasDropped(first, second, limit, issue) {
          assert FairlyOmitted(ranked, fetched, limit, issue);
        }
      }
    }
  }

  /** The issues of the rows whose total is at least `bound`. */
  function Reaching(rows: seq<IssueCount>, bound: int): set<string> {
    set i | 0 <= i < |rows| && CountOf(rows, rows[i].issue) >= bound :: rows[i].issue
  }

  function IssuesOf(ranked: seq<RankedIssue>): set<string> {
    set i | 0 <= i < |ranked| :: ranked[i].issue
  }

  lemma {:induction false} IssuesAreMany(ranked: seq<RankedIssue>)
    requires Ranking(ranked)
    ensures |IssuesOf(ranked)| == |ranked|
  {
    if ranked != [] {
      var n := |ranked| - 1;
      IssuesAreMany(ranked[..n]);
      assert IssuesOf(ranked) == IssuesOf(ranked[..n]) + {ranked[n].issue};
      assert ranked[n].issue !in IssuesOf(ranked[..n]);
    }
  }

  lemma SubsetSize(part: set<string>, whole: set<string>)
    requires part <= whole
    ensures |part| <= |whole|
    ensures part != whole ==> |part| < |whole|
  {
    assert whole == part + (whole - part);
  }

  /** A list that is full of issues with at least `bound` exists exactly when enough issues reach it. */
  lemma FullListIff(ranked: seq<RankedIssue>, rows: seq<IssueCount>, limit: nat, bound: int)
    requires TopOf(ranked, rows, limit)
    ensures |Reaching(rows, bound)| >= limit
       <==> |ranked| == limit && forall i | 0 <= i < |ranked| :: ranked[i].count >= bound
  {
    var listed, reaching := IssuesOf(ranked), Reaching(rows, bound);
    IssuesAreMany(ranked);
    if |ranked| == limit && forall i | 0 <= i < |ranked| :: ranked[i].count >= bound {
      ListedReach(ranked, rows, limit, bound);
      SubsetSize(listed, reaching);
    } else {
      ReachingAreListed(ranked, rows, limit, bound);
      SubsetSize(reaching, listed);
    }
  }

  lemma ListedReach(ranked: seq<RankedIssue>, rows: seq<IssueCount>, limit: nat, bound: int)
    requires TopOf(ranked, rows, limit) && forall i | 0 <= i < |ranked| :: ranked[i].count >= bound
    ensures IssuesOf(ranked) <= Reaching(rows, bound)
  {
    forall issue | issue in IssuesOf(ranked) ensures issue in Reaching(rows, bound) {
      var i :| 0 <= i < |ranked| && ranked[i].issue == issue;
      var k :| 0 <= k < |rows| && rows[k].issue == ranked[i].issue;
      assert CountOf(rows, rows[k].issue) >= bound;
    }
  }

  lemma ReachingAreListed(ranked: seq<RankedIssue>, rows: seq<IssueCount>, limit: nat, bound: int)
    requires TopOf(ranked, rows, limit)
    requires |ranked| < limit || exists i :: 0 <= i < |ranked| && ranked[i].count < bound
    ensures Reaching(rows, bound) <= IssuesOf(ranked)
    ensures |ranked| < limit || Reaching(rows, bound) != IssuesOf(ranked)
  {
    forall issue | issue in Reaching(rows, bound) ensures issue in IssuesOf(ranked) {
      var k :| 0 <= k < |rows| && rows[k].issue == issue;
      assert Listed(ranked, rows[k].issue);
    }
    if i :| 0 <= i < |ranked| && ranked[i].count < bound {
      assert ranked[i].issue in IssuesOf(ranked) && ranked[i].issue !in Reaching(rows, bound);
    }
  }

  /** Every issue that lost counts to a limit is outweighed by enough issues that were fetched. */
  ghost predicate Outweighed(first: seq<IssueCount>, second: seq<IssueCount>, limit: nat) {
    forall issue | WasDropped(first, second, limit, issue) ::
      |Reaching(Fetched(first, limit) + Fetched(second, limit), CountOf(first + second, issue))| >= limit
  }

  /**
   Each query returns only its first `limit` groups. The ranking computed from what they return is a true
   top list of all data exactly when, for every issue that a query dropped, at least `limit` issues reach
   its full total in the fetched rows.
   */
  lemma RankingIsTrueTopIff(first: seq<IssueCount>, second: seq<IssueCount>, limit: nat, ranked: seq<RankedIssue>)
    requires AllPositive(first) && AllPositive(second)
    requires TopOf(ranked, Fetched(first, limit) + Fetched(second, limit), limit)
    ensures TopOf(ranked, first + second, limit) <==> Outweighed(first, second, limit)
  {
    var fetched, all := Fetched(first, limit) + Fetched(second, limit), first + second;
    TrueTopByList(first, second, limit, ranked);
    forall issue | WasDropped(first, second, limit, issue)
      ensures |Reaching(fetched, CountOf(all, issue))| >= limit
         <==> !Listed(ranked, issue) && FairlyOmitted(ranked, all, limit, issue)
    {
      FullListIff(ranked, fetched, limit, CountOf(all, issue));
      DroppedIsShort(first, second, limit, issue);
    }
  }

  lemma DroppedIsShort(first: seq<IssueCount>, second: seq<IssueCount>, limit: nat, issue: string)
    requires AllPositive(first) && AllPositive(second) && WasDropped(first, second, limit, issue)
    ensures CountOf(Fetched(first, limit) + Fetched(second, limit), issue) < CountOf(first + second, issue)
  {
    CountOfAppend(Fetched(first, limit), Fetched(second, limit), issue);
    CountOfAppend(first, second, issue);
    DroppedCount(first, limit, issue);
    DroppedCount(second, limit, issue);
  }

  // ---------- For every limit the most frequent issue can be missing ----------

  /** Issues named by a letter and a number, with count 3 each. */
  function Fillers(letter: char, n: nat): (rows: seq<IssueCount>)
    ensures |rows| == n
    ensures forall i | 0 <= i < n :: rows[i] == IssueCount([letter] + Digits(i), 3)
  {
    if n == 0 then [] else Fillers(letter, n - 1) + [IssueCount([letter] + Digits(n - 1), 3)]
  }

  lemma DigitsApart(letter: char, i: nat, j: nat)
    requires [letter] + Digits(i) == [letter] + Digits(j)
    ensures i == j
  {
    assert ([letter] + Digits(i))[1..] == Digits(i) && ([letter] + Digits(j))[1..] == Digits(j);
    DigitsInjective(i, j);
  }

  lemma FillersDistinct(letter: char, n: nat)
    ensures Distinct(Fillers(letter, n))
  {
    forall i, j | 0 <= i < j < n ensures Fillers(letter, n)[i].issue != Fillers(letter, n)[j].issue {
      if [letter] + Digits(i) == [letter] + Digits(j) { DigitsApart(letter, i, j); }
    }
  }

  lemma {:induction false} DistinctCount(rows: seq<IssueCount>, issue: string)
    requires Distinct(rows) && forall i | 0 <= i < |rows| :: rows[i].count == 3
    ensures CountOf(rows, issue) == if Mentions(rows, issue) then 3 else 0
  {
    if rows != [] {
      var before, last := rows[..|rows| - 1], rows[|rows| - 1];
      assert rows == before + [last];
      DistinctCount(before, issue);
      MentionsAppend(before, last, issue);
      if Mentions(before, issue) {
        var i :| 0 <= i < |before| && before[i].issue == issue;
        assert rows[i].issue == issue;
      }
    }
  }

  /** The full result of one query: `limit` fillers, and one issue more. */
  function Crowded(letter: char, limit: nat): seq<IssueCount> {
    Fillers(letter, limit) + [IssueCount("b", 2)]
  }

  lemma CrowdedCounts(letter: char, limit: nat, issue: string)
    requires letter != 'b'
    ensures Fetched(Crowded(letter, limit), limit) == Fillers(letter, limit)
    ensures CountOf(Fillers(letter, limit), issue) == if Mentions(Fillers(letter, limit), issue) then 3 else 0
    ensures CountOf(Crowded(letter, limit), issue) == CountOf(Fillers(letter, limit), issue) + if issue == "b" then 2 else 0
    ensures Mentions(Fillers(letter, limit), issue) ==> issue != "" && issue[0] == letter
  {
    FillersDistinct(letter, limit);
    DistinctCount(Fillers(letter, limit), issue);
    MentionsAppend(Fillers(letter, limit), IssueCount("b", 2), issue);
  }

  /** Such a result is one a query can have: each issue once, most frequent first. */
  lemma CrowdedIsAResult(letter: char, limit: nat)
    requires letter != 'b'
    ensures Distinct(Crowded(letter, limit)) && Descending(Crowded(letter, limit)) && AllPositive(Crowded(letter, limit))
  {
    FillersDistinct(letter, limit);
    forall i | 0 <= i < limit ensures Crowded(letter, limit)[i].issue != "b" {
      assert Crowded(letter, limit)[i].issue[0] == letter;
    }
  }

  /**
   Whatever the limit, an issue that comes just behind it in both sources can have a larger total than any
   other and still be missing from the ranking.
   */
  lemma DroppedRowsHideTheTop(limit: nat, ranked: seq<RankedIssue>, other: string)
    requires limit >= 1 && other != "b"
    requires TopOf(ranked, Fetched(Crowded('a', limit), limit) + Fetched(Crowded('c', limit), limit), limit)
    ensures !Listed(ranked, "b")
    ensures CountOf(Crowded('a', limit) + Crowded('c', limit), "b") > CountOf(Crowded('a', limit) + Crowded('c', limit), other)
    ensures !TopOf(ranked, Crowded('a', limit) + Crowded('c', limit), limit)
  {
    var a: seq<IssueCount>, c: seq<IssueCount> := Crowded('a', limit), Crowded('c', limit);
    CrowdedTotals(limit, "b");
    CrowdedTotals(limit, other);
    forall i | 0 <= i < |ranked| ensures ranked[i].issue != "b" && ranked[i].count <= 3 {
      CrowdedTotals(limit, ranked[i].issue);
    }
    var rows := a + c;
    assert rows[limit] == IssueCount("b", 2);
    assert |ranked| > 0 ==> ranked[0].count < CountOf(rows, rows[limit].issue);
  }

  lemma CrowdedTotals(limit: nat, issue: string)
    ensures var fetched := Fetched(Crowded('a', limit), limit) + Fetched(Crowded('c', limit), limit);
            && 0 <= CountOf(fetched, issue) <= 3
            && CountOf(Crowded('a', limit) + Crowded('c', limit), issue) == CountOf(fetched, issue) + (if issue == "b" then 4 else 0)
            && (Mentions(fetched, issue) ==> issue != "b")
  {
    var a, c := Fillers('a', limit), Fillers('c', limit);
    CrowdedCounts('a', limit, issue);
    CrowdedCounts('c', limit, issue);
    CountOfAppend(a, c, issue);
    CountOfAppend(Crowded('a', limit), Crowded('c', limit), issue);
    MentionsConcat(a, c, issue);
  }
}
