/**
 Call analytics after the rows have been fetched: the overview, its breakdown by agent, and the ranking
 of service issues.
 */
module Analytics {
  import opened Prelude

  // ---------- Calls ----------

  datatype CallRow = CallRow(agentId: Option<string>, agentName: Option<string>,
                             classification: Option<string>, duration: Option<real>)

  datatype Overview = Overview(totalCalls: nat, outcomes: map<string, nat>,
                               averageDuration: Option<real>, conversionRate: Option<real>)

  datatype AgentStats = AgentStats(agentId: string, agentName: Option<string>, totalCalls: nat,
                                   outcomes: map<string, nat>, conversionRate: Option<real>)

  const POSITIVE := "completed_positive"
  const UNASSIGNED := "unassigned"

  function Bucket(row: CallRow): string {
    if row.agentId.Some? then row.agentId.value else UNASSIGNED
  }

  function InBucket(rows: seq<CallRow>, bucket: string): seq<CallRow> {
    if rows == [] then []
    else InBucket(rows[..|rows| - 1], bucket) + if Bucket(rows[|rows| - 1]) == bucket then [rows[|rows| - 1]] else []
  }

  /** The rows that a query filtered by agent id returns; rows without an agent never match. */
  function OfAgent(rows: seq<CallRow>, agentId: string): seq<CallRow> {
    if rows == [] then []
    else OfAgent(rows[..|rows| - 1], agentId) +
         if rows[|rows| - 1].agentId == Some(agentId) then [rows[|rows| - 1]] else []
  }

  /** Number of rows with an outcome. */
  function OutcomeCount(rows: seq<CallRow>, outcome: string): nat {
    if rows == [] then 0
    else OutcomeCount(rows[..|rows| - 1], outcome) + if rows[|rows| - 1].classification == Some(outcome) then 1 else 0
  }

  function Tallied(outcomes: map<string, nat>, classification: Option<string>): map<string, nat> {
    if !Truthy(classification) then outcomes
    else
      var o := classification.value;
      outcomes[o := (if o in outcomes then outcomes[o] else 0) + 1]
  }

  /** The outcome distribution; OutcomesAreCounts says what it holds. */
  function Outcomes(rows: seq<CallRow>): map<string, nat> {
    if rows == [] then map[]
    else Tallied(Outcomes(rows[..|rows| - 1]), rows[|rows| - 1].classification)
  }

  /** An outcome is in the distribution exactly when some row has it, and with the number of those rows. */
  lemma {:induction false} OutcomesAreCounts(rows: seq<CallRow>, outcome: string)
    ensures outcome in Outcomes(rows) <==> outcome != "" && OutcomeCount(rows, outcome) > 0
    ensures outcome in Outcomes(rows) ==> Outcomes(rows)[outcome] == OutcomeCount(rows, outcome)
  {
    if rows != [] {
      OutcomesAreCounts(rows[..|rows| - 1], outcome);
    }
  }

  function Rate(rows: seq<CallRow>): Option<real> {
    if rows == [] then None else Some(OutcomeCount(rows, POSITIVE) as real / |rows| as real)
  }

  function Durations(rows: seq<CallRow>): seq<real> {
    if rows == [] then []
    else Durations(rows[..|rows| - 1]) +
         if rows[|rows| - 1].duration.Some? then [rows[|rows| - 1].duration.value] else []
  }

  function Total(values: seq<real>): real {
    if values == [] then 0.0 else Total(values[..|values| - 1]) + values[|values| - 1]
  }

  /** The overview of the fetched rows. */
  method GetOverview(rows: seq<CallRow>) returns (overview: Overview)
    ensures overview.totalCalls == |rows|
    ensures overview.outcomes == Outcomes(rows)
    ensures overview.conversionRate == Rate(rows)
    ensures var d := Durations(rows);
            overview.averageDuration == if d == [] then None else Some(Total(d) / |d| as real)
  {
    var outcomes: map<string, nat>, durations, sum, positive := map[], [], 0.0, 0;
    for i := 0 to |rows|
      invariant outcomes == Outcomes(rows[..i]) && positive == OutcomeCount(rows[..i], POSITIVE)
      invariant durations == Durations(rows[..i]) && sum == Total(durations)
    {
      assert rows[..i + 1][..i] == rows[..i];
      var classification := rows[i].classification;
      if Truthy(classification) {
        var o := classification.value;
        outcomes := outcomes[o := (if o in outcomes then outcomes[o] else 0) + 1];
        if o == POSITIVE {
          positive := positive + 1;
        }
      }
      if rows[i].duration.Some? {
        assert (durations + [rows[i].duration.value])[..|durations|] == durations;
        durations := durations + [rows[i].duration.value];
        sum := sum + rows[i].duration.value;
      }
    }
    assert rows[..|rows|] == rows;
    overview := Overview(|rows|, outcomes,
                         if durations == [] then None else Some(sum / |durations| as real),
                         if rows == [] then None else Some(positive as real / |rows| as real));
  }

  /** Buckets in the order in which they first occur. */
  function Buckets(rows: seq<CallRow>): seq<string> {
    if rows == [] then []
    else
      var before := Buckets(rows[..|rows| - 1]);
      var bucket := Bucket(rows[|rows| - 1]);
      if bucket in before then before else before + [bucket]
  }

  datatype AgentEntry = AgentEntry(agentName: Option<string>, totalCalls: nat, outcomes: map<string, nat>, positive: nat)

  predicate EntryOf(e: AgentEntry, rows: seq<CallRow>) {
    && rows != []
    && e.agentName == (if rows[0].agentId.Some? then rows[0].agentName else None)
    && e.totalCalls == |rows|
    && e.outcomes == Outcomes(rows)
    && e.positive == OutcomeCount(rows, POSITIVE)
  }

  predicate StatsOf(stats: AgentStats, bucket: string, rows: seq<CallRow>) {
    && rows != []
    && stats.agentId == bucket
    && stats.agentName == (if rows[0].agentId.Some? then rows[0].agentName else None)
    && stats.totalCalls == |rows|
    && stats.outcomes == Outcomes(rows)
    && stats.conversionRate == Rate(rows)
  }

  predicate StatsInBucket(stats: AgentStats, bucket: string, rows: seq<CallRow>) {
    StatsOf(stats, bucket, InBucket(rows, bucket))
  }

  lemma {:induction false} EmptyBucketIff(rows: seq<CallRow>, bucket: string)
    ensures bucket in Buckets(rows) <==> InBucket(rows, bucket) != []
  {
    if rows != [] {
      EmptyBucketIff(rows[..|rows| - 1], bucket);
    }
  }

  ghost predicate GroupedAt(data: map<string, AgentEntry>, rows: seq<CallRow>, bucket: string) {
    bucket in data && EntryOf(data[bucket], InBucket(rows, bucket))
  }

  ghost predicate Grouped(order: seq<string>, data: map<string, AgentEntry>, rows: seq<CallRow>) {
    && order == Buckets(rows)
    && (forall b | b in data :: b in order)
    && (forall b {:trigger GroupedAt(data, rows, b)} | b in order :: GroupedAt(data, rows, b))
  }

  lemma InBucketAppend(seen: seq<CallRow>, row: CallRow, bucket: string)
    ensures InBucket(seen + [row], bucket) == if Bucket(row) == bucket then InBucket(seen, bucket) + [row] else InBucket(seen, bucket)
    ensures Buckets(seen + [row]) == if Bucket(row) in Buckets(seen) then Buckets(seen) else Buckets(seen) + [Bucket(row)]
  {
    assert (seen + [row])[..|seen|] == seen;
  }

  /** Counts a call for the entry of its agent; `entry` is None for the first call of the agent. */
  method CountForAgent(entry: Option<AgentEntry>, row: CallRow, ghost seen: seq<CallRow>) returns (entry': AgentEntry)
    requires if entry.Some? then EntryOf(entry.value, seen) else seen == []
    ensures EntryOf(entry', seen + [row])
  {
    assert (seen + [row])[..|seen|] == seen;
    entry' := if entry.Some? then entry.value
              else AgentEntry(if row.agentId.Some? then row.agentName else None, 0, map[], 0);
    entry' := entry'.(totalCalls := entry'.totalCalls + 1);
    if Truthy(row.classification) {
      var o, outcomes := row.classification.value, entry'.outcomes;
      entry' := entry'.(outcomes := outcomes[o := (if o in outcomes then outcomes[o] else 0) + 1]);
      if o == POSITIVE {
        entry' := entry'.(positive := entry'.positive + 1);
      }
    }
  }

  method CountCall(order: seq<string>, data: map<string, AgentEntry>, row: CallRow, ghost seen: seq<CallRow>)
    returns (order': seq<string>, data': map<string, AgentEntry>)
    requires Grouped(order, data, seen)
    ensures Grouped(order', data', seen + [row])
  {
    var bucket := Bucket(row);
    EmptyBucketIff(seen, bucket);
    assert bucket in order ==> GroupedAt(data, seen, bucket);
    var entry := CountForAgent(if bucket in data then Some(data[bucket]) else None, row, InBucket(seen, bucket));
    order' := if bucket in data then order else order + [bucket];
    data' := data[bucket := entry];
    InBucketAppend(seen, row, bucket);
    forall b | b in order' ensures GroupedAt(data', seen + [row], b) {
      InBucketAppend(seen, row, b);
      if b != bucket {
        assert GroupedAt(data, seen, b);
        assert data'[b] == data[b] && InBucket(seen + [row], b) == InBucket(seen, b);
      } else {
        assert data'[b] == entry && InBucket(seen + [row], b) == InBucket(seen, b) + [row];
      }
    }
  }

  /** The statistics built from an entry. */
  method Respond(bucket: string, e: AgentEntry, ghost rows: seq<CallRow>) returns (stats: AgentStats)
    requires EntryOf(e, rows)
    ensures StatsOf(stats, bucket, rows)
  {
    stats := AgentStats(bucket, e.agentName, e.totalCalls, e.outcomes,
                        if e.totalCalls > 0 then Some(e.positive as real / e.totalCalls as real) else None);
  }

  /** Statistics per agent, in order of first appearance; rows without an agent form one bucket. */
  method GetAgentStats(rows: seq<CallRow>) returns (agents: seq<AgentStats>)
    ensures |agents| == |Buckets(rows)|
    ensures forall i | 0 <= i < |agents| :: StatsInBucket(agents[i], Buckets(rows)[i], rows)
  {
    var order: seq<string>, data: map<string, AgentEntry> := [], map[];
    for i := 0 to |rows|
      invariant Grouped(order, data, rows[..i])
    {
      assert rows[..i + 1] == rows[..i] + [rows[i]];
      order, data := CountCall(order, data, rows[i], rows[..i]);
    }
    assert rows[..|rows|] == rows;
    agents := BuildResponse(order, data, rows);
  }

  method BuildResponse(order: seq<string>, data: map<string, AgentEntry>, ghost rows: seq<CallRow>)
    returns (agents: seq<AgentStats>)
    requires Grouped(order, data, rows)
    ensures |agents| == |order|
    ensures forall i | 0 <= i < |agents| :: StatsInBucket(agents[i], order[i], rows)
  {
    agents := [];
    for i := 0 to |order|
      invariant |agents| == i
      invariant forall k | 0 <= k < i :: StatsInBucket(agents[k], order[k], rows)
    {
      assert GroupedAt(data, rows, order[i]);
      var stats := Respond(order[i], data[order[i]], InBucket(rows, order[i]));
      agents := agents + [stats];
    }
  }

  // ---------- Service issues ----------

  datatype IssueCount = IssueCount(issue: string, count: int)

  datatype RankedIssue = RankedIssue(issue: string, count: int, rank: nat)

  /** Total of the counts given for an issue. */
  function CountOf(rows: seq<IssueCount>, issue: string): int {
    if rows == [] then 0
    else CountOf(rows[..|rows| - 1], issue) + if rows[|rows| - 1].issue == issue then rows[|rows| - 1].count else 0
  }

  function Sum(rows: seq<IssueCount>): int {
    if rows == [] then 0 else Sum(rows[..|rows| - 1]) + rows[|rows| - 1].count
  }

  predicate Distinct(rows: seq<IssueCount>) {
    forall i, j | 0 <= i < j < |rows| :: rows[i].issue != rows[j].issue
  }

  predicate Descending(rows: seq<IssueCount>) {
    forall i, j | 0 <= i < j < |rows| :: rows[i].count >= rows[j].count
  }

  predicate Mentions(rows: seq<IssueCount>, issue: string) {
    exists i :: 0 <= i < |rows| && rows[i].issue == issue
  }

  /** `merged` lists every issue of `rows` once, with its total, and conserves the grand total. */
  predicate Merged(merged: seq<IssueCount>, rows: seq<IssueCount>) {
    && Distinct(merged)
    && (forall i | 0 <= i < |merged| :: merged[i].count == CountOf(rows, merged[i].issue) && Mentions(rows, merged[i].issue))
    && (forall i | 0 <= i < |rows| :: Mentions(merged, rows[i].issue))
    && Sum(merged) == Sum(rows)
  }

  function Position(rows: seq<IssueCount>, issue: string): (at: nat)
    ensures at <= |rows|
    ensures at < |rows| <==> Mentions(rows, issue)
    ensures at < |rows| ==> rows[at].issue == issue
    ensures forall i | 0 <= i < at :: rows[i].issue != issue
  {
    if rows == [] then 0
    else
      var at := Position(rows[..|rows| - 1], issue);
      if at < |rows| - 1 then
        assert rows[at].issue == issue;
        at
      else if rows[|rows| - 1].issue == issue then |rows| - 1
      else |rows|
  }

  lemma {:induction false} SumUpdate(rows: seq<IssueCount>, at: nat, row: IssueCount)
    requires at < |rows|
    ensures Sum(rows[at := row]) == Sum(rows) - rows[at].count + row.count
  {
    var n := |rows| - 1;
    if at == n {
      assert rows[at := row][..n] == rows[..n];
    } else {
      assert rows[at := row][..n] == rows[..n][at := row];
      SumUpdate(rows[..n], at, row);
    }
  }

  lemma {:induction false} UnmentionedCountsNothing(rows: seq<IssueCount>, issue: string)
    requires !Mentions(rows, issue)
    ensures CountOf(rows, issue) == 0
  {
    if rows != [] {
      var n := |rows| - 1;
      forall i | 0 <= i < n ensures rows[..n][i].issue != issue { assert rows[..n][i] == rows[i]; }
      UnmentionedCountsNothing(rows[..n], issue);
    }
  }

  lemma MentionsAppend(rows: seq<IssueCount>, row: IssueCount, issue: string)
    ensures Mentions(rows + [row], issue) <==> Mentions(rows, issue) || row.issue == issue
    ensures CountOf(rows + [row], issue) == CountOf(rows, issue) + if row.issue == issue then row.count else 0
    ensures Sum(rows + [row]) == Sum(rows) + row.count
  {
    assert (rows + [row])[..|rows|] == rows;
    if Mentions(rows, issue) {
      var i :| 0 <= i < |rows| && rows[i].issue == issue;
      assert (rows + [row])[i].issue == issue;
    }
    assert (rows + [row])[|rows|] == row;
  }

  lemma MergedUpdate(merged: seq<IssueCount>, at: nat, row: IssueCount, seen: seq<IssueCount>)
    requires Merged(merged, seen) && at < |merged| && merged[at].issue == row.issue
    ensures Merged(merged[at := IssueCount(row.issue, merged[at].count + row.count)], seen + [row])
  {
    var rows, merged' := seen + [row], merged[at := IssueCount(row.issue, merged[at].count + row.count)];
    SumUpdate(merged, at, merged'[at]);
    MentionsAppend(seen, row, row.issue);
    forall i | 0 <= i < |merged'|
      ensures merged'[i].count == CountOf(rows, merged'[i].issue) && Mentions(rows, merged'[i].issue)
    {
      assert merged'[i].issue == merged[i].issue;
      MentionsAppend(seen, row, merged[i].issue);
    }
    forall i | 0 <= i < |rows| ensures Mentions(merged', rows[i].issue) {
      var k :| 0 <= k < |merged| && merged[k].issue == rows[i].issue;
      assert merged'[k].issue == rows[i].issue;
    }
  }

  lemma MergedAppend(merged: seq<IssueCount>, row: IssueCount, seen: seq<IssueCount>)
    requires Merged(merged, seen) && !Mentions(merged, row.issue)
    ensures Merged(merged + [row], seen + [row])
  {
    var rows, merged' := seen + [row], merged + [row];
    MentionsAppend(merged, row, row.issue);
    MentionsAppend(seen, row, row.issue);
    assert !Mentions(seen, row.issue);
    UnmentionedCountsNothing(seen, row.issue);
    forall i | 0 <= i < |merged'|
      ensures merged'[i].count == CountOf(rows, merged'[i].issue) && Mentions(rows, merged'[i].issue)
    {
      MentionsAppend(seen, row, merged'[i].issue);
    }
    forall i | 0 <= i < |rows| ensures Mentions(merged', rows[i].issue) {
      MentionsAppend(merged, row, rows[i].issue);
      if i < |seen| { assert rows[i] == seen[i]; }
    }
  }

  /** Issues stand in the order in which the rows first name them. */
  predicate FirstSeenOrder(merged: seq<IssueCount>, rows: seq<IssueCount>) {
    forall i, j | 0 <= i < j < |merged| :: Position(rows, merged[i].issue) < Position(rows, merged[j].issue)
  }

  lemma OrderAppend(merged: seq<IssueCount>, merged': seq<IssueCount>, row: IssueCount, seen: seq<IssueCount>)
    requires Merged(merged, seen) && FirstSeenOrder(merged, seen)
    requires |merged| <= |merged'| <= |merged| + 1
    requires forall i | 0 <= i < |merged| :: merged'[i].issue == merged[i].issue
    requires |merged'| > |merged| ==> merged'[|merged|].issue == row.issue && !Mentions(merged, row.issue)
    ensures FirstSeenOrder(merged', seen + [row])
  {
    assert (seen + [row])[..|seen|] == seen;
    forall i | 0 <= i < |merged'|
      ensures Position(seen + [row], merged'[i].issue) == if i < |merged| then Position(seen, merged[i].issue) else |seen|
    {
      if i == |merged| {
        assert !Mentions(seen, row.issue);
      }
    }
  }

  /** Adds one fetched row to the merged counts; a new issue goes to the end. */
  method AddCount(merged: seq<IssueCount>, row: IssueCount, ghost seen: seq<IssueCount>) returns (merged': seq<IssueCount>)
    requires Merged(merged, seen) && FirstSeenOrder(merged, seen)
    ensures Merged(merged', seen + [row]) && FirstSeenOrder(merged', seen + [row])
  {
    var at := Position(merged, row.issue);
    if at < |merged| {
      merged' := merged[at := IssueCount(row.issue, merged[at].count + row.count)];
      MergedUpdate(merged, at, row, seen);
    } else {
      merged' := merged + [row];
      MergedAppend(merged, row, seen);
    }
    OrderAppend(merged, merged', row, seen);
  }

  method MergeCounts(rows: seq<IssueCount>) returns (merged: seq<IssueCount>)
    ensures Merged(merged, rows) && FirstSeenOrder(merged, rows)
  {
    merged := [];
    for i := 0 to |rows|
      invariant Merged(merged, rows[..i]) && FirstSeenOrder(merged, rows[..i])
    {
      assert rows[..i + 1] == rows[..i] + [rows[i]];
      merged := AddCount(merged, rows[i], rows[..i]);
    }
    assert rows[..|rows|] == rows;
  }

  /** Where an item goes among items in descending order: after all that are not smaller. */
  function InsertAt(sorted: seq<IssueCount>, count: int): (at: nat)
    requires Descending(sorted)
    ensures at <= |sorted|
    ensures forall i | 0 <= i < at :: sorted[i].count >= count
    ensures forall i | at <= i < |sorted| :: sorted[i].count < count
  {
    if sorted == [] || sorted[|sorted| - 1].count >= count then |sorted|
    else InsertAt(sorted[..|sorted| - 1], count)
  }

  /** Larger counts first; of equal counts, the one listed earlier in `items`. */
  predicate Precedes(a: IssueCount, b: IssueCount, items: seq<IssueCount>) {
    a.count > b.count || (a.count == b.count && Position(items, a.issue) < Position(items, b.issue))
  }

  predicate Sorted(sorted: seq<IssueCount>, items: seq<IssueCount>) {
    forall i, j | 0 <= i < j < |sorted| :: Precedes(sorted[i], sorted[j], items)
  }

  predicate Within(sorted: seq<IssueCount>, items: seq<IssueCount>, bound: nat) {
    forall i | 0 <= i < |sorted| :: Position(items, sorted[i].issue) < bound
  }

  function Inserted(sorted: seq<IssueCount>, at: nat, item: IssueCount): (longer: seq<IssueCount>)
    requires at <= |sorted|
    ensures |longer| == |sorted| + 1
    ensures forall i | 0 <= i < |longer| :: longer[i] == if i < at then sorted[i] else if i == at then item else sorted[i - 1]
  {
    sorted[..at] + [item] + sorted[at..]
  }

  lemma InsertKeepsSorted(sorted: seq<IssueCount>, items: seq<IssueCount>, at: nat, item: IssueCount)
    requires at <= |sorted| && Sorted(sorted, items) && Within(sorted, items, Position(items, item.issue))
    requires forall i | 0 <= i < at :: sorted[i].count >= item.count
    requires forall i | at <= i < |sorted| :: sorted[i].count < item.count
    ensures Sorted(Inserted(sorted, at, item), items)
    ensures Within(Inserted(sorted, at, item), items, Position(items, item.issue) + 1)
  {
    var longer := Inserted(sorted, at, item);
    forall i, j | 0 <= i < j < |longer| ensures Precedes(longer[i], longer[j], items) {
      if i != at && j != at {
        assert Precedes(sorted[if i < at then i else i - 1], sorted[if j < at then j else j - 1], items);
      }
    }
  }

  lemma InsertAddsOne(sorted: seq<IssueCount>, at: nat, item: IssueCount)
    requires at <= |sorted|
    ensures multiset(Inserted(sorted, at, item)) == multiset(sorted) + multiset{item}
  {
    assert sorted == sorted[..at] + sorted[at..];
  }

  method SortDescending(items: seq<IssueCount>) returns (sorted: seq<IssueCount>)
    requires Distinct(items)
    ensures Sorted(sorted, items) && multiset(sorted) == multiset(items)
  {
    sorted := [];
    for i := 0 to |items|
      invariant Sorted(sorted, items) && Within(sorted, items, i)
      invariant multiset(sorted) == multiset(items[..i])
    {
      assert items[..i + 1] == items[..i] + [items[i]];
      assert Mentions(items, items[i].issue) && Position(items, items[i].issue) == i;
      var at := InsertAt(sorted, items[i].count);
      InsertKeepsSorted(sorted, items, at, items[i]);
      InsertAddsOne(sorted, at, items[i]);
      sorted := Inserted(sorted, at, items[i]);
    }
    assert items[..|items|] == items;
  }

  /** Ranks 1, 2, ... with non-increasing counts; no issue twice. */
  predicate Ranking(ranked: seq<RankedIssue>) {
    && (forall i | 0 <= i < |ranked| :: ranked[i].rank == i + 1)
    && (forall i, j | 0 <= i < j < |ranked| :: ranked[i].count >= ranked[j].count && ranked[i].issue != ranked[j].issue)
  }

  predicate Listed(ranked: seq<RankedIssue>, issue: string) {
    exists i :: 0 <= i < |ranked| && ranked[i].issue == issue
  }

  /** The first `limit` issues by total count: exact counts, and nothing larger is left out. */
  predicate TopOf(ranked: seq<RankedIssue>, rows: seq<IssueCount>, limit: nat) {
    && Ranking(ranked) && |ranked| <= limit
    && (forall i | 0 <= i < |ranked| :: ranked[i].count == CountOf(rows, ranked[i].issue) && Mentions(rows, ranked[i].issue))
    && (forall k | 0 <= k < |rows| && !Listed(ranked, rows[k].issue) ::
          && |ranked| == limit
          && forall i | 0 <= i < |ranked| :: CountOf(rows, rows[k].issue) <= ranked[i].count)
  }

  /** Issues with equal totals are ranked, and cut off, in the order in which the rows first name them. */
  predicate TiesByAppearance(ranked: seq<RankedIssue>, rows: seq<IssueCount>) {
    && (forall i, j | 0 <= i < j < |ranked| && ranked[i].count == ranked[j].count ::
          Position(rows, ranked[i].issue) < Position(rows, ranked[j].issue))
    && (forall i, k | 0 <= i < |ranked| && 0 <= k < |rows| && !Listed(ranked, rows[k].issue) ::
          ranked[i].count == CountOf(rows, rows[k].issue) ==>
            Position(rows, ranked[i].issue) < Position(rows, rows[k].issue))
  }

  const ISSUE_PREFIX := "service_issue:"

  /** Rows of the analysis query; a missing issue is named "None". */
  function FromAnalyses(rows: seq<(Option<string>, int)>): (counts: seq<IssueCount>)
    ensures |counts| == |rows|
  {
    seq(|rows|, i requires 0 <= i < |rows| =>
      IssueCount(if rows[i].0.Some? then rows[i].0.value else "None", rows[i].1))
  }

  /** Rows of the fact query; the namespace prefix is dropped from the key. */
  function FromFacts(rows: seq<(string, int)>): (counts: seq<IssueCount>)
    ensures |counts| == |rows|
  {
    seq(|rows|, i requires 0 <= i < |rows| =>
      IssueCount(if ISSUE_PREFIX <= rows[i].0 then rows[i].0[|ISSUE_PREFIX|..] else rows[i].0, rows[i].1))
  }

  method GetServiceIssues(analysisRows: seq<(Option<string>, int)>, factRows: seq<(string, int)>, limit: nat)
    returns (ranked: seq<RankedIssue>)
    ensures TopOf(ranked, FromAnalyses(analysisRows) + FromFacts(factRows), limit)
    ensures TiesByAppearance(ranked, FromAnalyses(analysisRows) + FromFacts(factRows))
  {
    ranked := RankIssues(FromAnalyses(analysisRows) + FromFacts(factRows), limit);
  }

  /** The ranking computed from the fetched rows of both sources. */
  method RankIssues(rows: seq<IssueCount>, limit: nat) returns (ranked: seq<RankedIssue>)
    ensures TopOf(ranked, rows, limit) && TiesByAppearance(ranked, rows)
  {
    var merged := MergeCounts(rows);
    var sorted := SortDescending(merged);
    SortKeepsMerge(merged, sorted, rows);
    ranked := Numbered(sorted, limit);
    OrderTransfers(merged, sorted, rows);
    TopIsTop(sorted, ranked, rows, limit);
  }

  /** The first `limit` entries with their ranks. */
  method Numbered(sorted: seq<IssueCount>, limit: nat) returns (ranked: seq<RankedIssue>)
    ensures AreFirst(ranked, sorted, limit)
  {
    ranked := [];
    for i := 0 to if |sorted| <= limit then |sorted| else limit
      invariant |ranked| == i
      invariant forall k | 0 <= k < i :: ranked[k] == RankedIssue(sorted[k].issue, sorted[k].count, k + 1)
    {
      ranked := ranked + [RankedIssue(sorted[i].issue, sorted[i].count, i + 1)];
    }
  }

  predicate AreFirst(ranked: seq<RankedIssue>, sorted: seq<IssueCount>, limit: nat) {
    && |ranked| == (if |sorted| <= limit then |sorted| else limit)
    && forall k | 0 <= k < |ranked| :: ranked[k] == RankedIssue(sorted[k].issue, sorted[k].count, k + 1)
  }

  /** Numbering the first entries of the sorted totals gives the top list. */
  lemma TopIsTop(sorted: seq<IssueCount>, ranked: seq<RankedIssue>, rows: seq<IssueCount>, limit: nat)
    requires Distinct(sorted) && Sorted(sorted, rows) && ListsTotals(sorted, rows)
    requires AreFirst(ranked, sorted, limit)
    ensures TopOf(ranked, rows, limit) && TiesByAppearance(ranked, rows)
  {
    TiesStay(sorted, ranked, rows, limit);
    assert Ranking(ranked) by {
      forall i, j | 0 <= i < j < |ranked| ensures ranked[i].count >= ranked[j].count && ranked[i].issue != ranked[j].issue {
        assert Precedes(sorted[i], sorted[j], rows);
      }
    }
    forall k | 0 <= k < |rows| && !Listed(ranked, rows[k].issue)
      ensures |ranked| == limit
      ensures forall i | 0 <= i < |ranked| :: CountOf(rows, rows[k].issue) <= ranked[i].count
    {
      var j :| 0 <= j < |sorted| && sorted[j].issue == rows[k].issue;
      assert j >= |ranked|;
      forall i | 0 <= i < |ranked| ensures CountOf(rows, rows[k].issue) <= ranked[i].count {
        assert Precedes(sorted[i], sorted[j], rows);
      }
    }
  }

  /** The entries are totals of the rows, and every issue of the rows has one. */
  predicate ListsTotals(sorted: seq<IssueCount>, rows: seq<IssueCount>) {
    && (forall i | 0 <= i < |sorted| :: sorted[i].count == CountOf(rows, sorted[i].issue) && Mentions(rows, sorted[i].issue))
    && (forall i | 0 <= i < |rows| :: Mentions(sorted, rows[i].issue))
  }

  /** Order among the merged counts is order of appearance in the rows. */
  lemma OrderTransfers(merged: seq<IssueCount>, sorted: seq<IssueCount>, rows: seq<IssueCount>)
    requires Distinct(merged) && FirstSeenOrder(merged, rows)
    requires Sorted(sorted, merged) && multiset(sorted) == multiset(merged)
    ensures Sorted(sorted, rows)
  {
    forall i, j | 0 <= i < j < |sorted| ensures Precedes(sorted[i], sorted[j], rows) {
      assert Precedes(sorted[i], sorted[j], merged);
      assert sorted[i] in multiset(sorted) && sorted[i] in merged;
      assert sorted[j] in multiset(sorted) && sorted[j] in merged;
      assert Mentions(merged, sorted[i].issue) && Mentions(merged, sorted[j].issue);
      var a, b := Position(merged, sorted[i].issue), Position(merged, sorted[j].issue);
      assert merged[a].issue == sorted[i].issue && merged[b].issue == sorted[j].issue;
    }
  }

  lemma TiesStay(sorted: seq<IssueCount>, ranked: seq<RankedIssue>, rows: seq<IssueCount>, limit: nat)
    requires Sorted(sorted, rows) && ListsTotals(sorted, rows)
    requires AreFirst(ranked, sorted, limit)
    ensures TiesByAppearance(ranked, rows)
  {
    forall i, k | 0 <= i < |ranked| && 0 <= k < |rows| && !Listed(ranked, rows[k].issue)
                  && ranked[i].count == CountOf(rows, rows[k].issue)
      ensures Position(rows, ranked[i].issue) < Position(rows, rows[k].issue)
    {
      var j :| 0 <= j < |sorted| && sorted[j].issue == rows[k].issue;
      assert j >= |ranked| && Precedes(sorted[i], sorted[j], rows);
    }
    forall i, j | 0 <= i < j < |ranked| && ranked[i].count == ranked[j].count
      ensures Position(rows, ranked[i].issue) < Position(rows, ranked[j].issue)
    {
      assert Precedes(sorted[i], sorted[j], rows);
    }
  }

  lemma SortKeepsMerge(merged: seq<IssueCount>, sorted: seq<IssueCount>, rows: seq<IssueCount>)
    requires Merged(merged, rows) && multiset(sorted) == multiset(merged)
    ensures Distinct(sorted) && ListsTotals(sorted, rows)
  {
    forall i | 0 <= i < |sorted| ensures sorted[i] in merged { assert sorted[i] in multiset(sorted); }
    forall i | 0 <= i < |merged| ensures merged[i] in sorted { assert merged[i] in multiset(merged); }
    forall i | 0 <= i < |rows| ensures Mentions(sorted, rows[i].issue) {
      var k :| 0 <= k < |merged| && merged[k].issue == rows[i].issue;
      assert merged[k] in sorted;
      var j :| 0 <= j < |sorted| && sorted[j] == merged[k];
    }
    DistinctTransfers(merged, sorted);
  }

  lemma DistinctTransfers(merged: seq<IssueCount>, sorted: seq<IssueCount>)
    requires Distinct(merged) && multiset(sorted) == multiset(merged)
    ensures Distinct(sorted)
  {
    forall i, j | 0 <= i < j < |sorted| ensures sorted[i].issue != sorted[j].issue {
      if sorted[i].issue == sorted[j].issue {
        assert sorted[i] in multiset(sorted) && sorted[j] in multiset(sorted);
        var a :| 0 <= a < |merged| && merged[a] == sorted[i];
        var b :| 0 <= b < |merged| && merged[b] == sorted[j];
        assert a == b;
        OnceOnly(merged, a);
        TwiceAtLeast(sorted, i, j);
        assert false;
      }
    }
  }

  lemma TwiceAtLeast(rows: seq<IssueCount>, i: nat, j: nat)
    requires i < j < |rows| && rows[i] == rows[j]
    ensures multiset(rows)[rows[i]] >= 2
  {
    assert rows == rows[..j] + rows[j..];
    assert rows[i] in rows[..j] by { assert rows[..j][i] == rows[i]; }
    assert rows[j] in rows[j..] by { assert rows[j..][0] == rows[j]; }
  }

  lemma OnceOnly(merged: seq<IssueCount>, a: nat)
    requires Distinct(merged) && a < |merged|
    ensures multiset(merged)[merged[a]] == 1
  {
    assert merged == merged[..a] + [merged[a]] + merged[a + 1..];
    assert merged[a] !in merged[..a] && merged[a] !in merged[a + 1..];
    assert multiset(merged) == multiset(merged[..a]) + multiset{merged[a]} + multiset(merged[a + 1..]);
  }
}
