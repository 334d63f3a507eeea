/**
 Short concrete runs in which a rule that one might expect of the machine does not hold.
 */
module CallExamples {
  import opened Prelude
  import opened CallState
  import opened CallRuns
  import opened CallClosing
  import T = Telephony

  const EMPTY := State(0, map[], [], map["lead" := Lead("client", "new", 0, None)])

  function Open(id: Id): Op { Create(id, "client", Some("lead"), None, None) }

  function Hangup(id: Id): Op { Close(id, "user_hangup", true, None, None, None) }

  /** Two calls of one lead started together; "a" is closed and has absorbed "b", which is still open. */
  ghost predicate FirstAbsorbedSecond(s: State) {
    && s.now == 0 && s.turns == [] && s.sessions.Keys == {"a", "b"}
    && s.sessions["b"] == NewSession(0, "client", Some("lead"), None, None).(mergedInto := Some("a"))
    && var a := s.sessions["a"];
    && a.status.Completed? && a.mergedInto.None? && a.startedAt == 0
    && a.clientId == "client" && a.leadId == Some("lead") && a.conversationId.None?
  }

  lemma FirstAbsorbsSecond() returns (ops: seq<Op>)
    ensures ops == [Open("a"), Open("b"), Hangup("a")]
    ensures ValidRun(EMPTY, ops) && FirstAbsorbedSecond(After(EMPTY, ops))
  {
    var both := TwoOpened();
    HangupMerges(both);
    OneStep(both, Hangup("a"));
    TwoSteps(EMPTY, Open("a"), Open("b"));
    RunsCompose(EMPTY, [Open("a"), Open("b")], [Hangup("a")]);
    ops := [Open("a"), Open("b")] + [Hangup("a")];
  }

  ghost predicate BothOpen(s: State) {
    && s.now == 0 && s.turns == []
    && s.sessions == map["a" := NewSession(0, "client", Some("lead"), None, None),
                         "b" := NewSession(0, "client", Some("lead"), None, None)]
  }

  lemma TwoOpened() returns (s: State)
    ensures Enabled(EMPTY, Open("a")) && Enabled(Apply(EMPTY, Open("a")), Open("b"))
    ensures s == Apply(Apply(EMPTY, Open("a")), Open("b")) && BothOpen(s)
  {
    s := Apply(Apply(EMPTY, Open("a")), Open("b"));
  }

  lemma HangupMerges(s: State)
    requires BothOpen(s)
    ensures FirstAbsorbedSecond(Apply(s, Hangup("a")))
  {
    SecondIsSibling(s);
    FirstCloseEffect(s, "a", "user_hangup", true);
    FirstCloseKeepsConversation(s, "a", "user_hangup", true);
    AbsorbedIn(s, FirstClosed(s, "a", "user_hangup", true));
  }

  lemma SecondIsSibling(s: State)
    requires BothOpen(s)
    ensures Siblings(s, "a") == {"b"}
  {}

  lemma AbsorbedIn(s: State, t: State)
    requires BothOpen(s) && Siblings(s, "a") == {"b"} && CloseEffect(s, t, "a")
    requires t.sessions["a"].conversationId == None
    ensures FirstAbsorbedSecond(t)
  {}

  lemma {:induction false} TwoSteps(s: State, one: Op, two: Op)
    requires Enabled(s, one) && Enabled(Apply(s, one), two)
    ensures ValidRun(s, [one, two]) && After(s, [one, two]) == Apply(Apply(s, one), two)
  {
    assert [one, two][1..] == [two];
    assert After(Apply(s, one), [two]) == Apply(Apply(s, one), two);
  }

  lemma ReopenThenClose(s: State)
    requires FirstAbsorbedSecond(s)
    ensures ValidRun(s, [End("a", Abandoned, 0), Hangup("b")])
    ensures var t := After(s, [End("a", Abandoned, 0), Hangup("b")]);
            && t.sessions.Keys == {"a", "b"}
            && t.sessions["a"].mergedInto == Some("b") && t.sessions["b"].mergedInto == Some("a")
  {
    var s1 := Apply(s, End("a", Abandoned, 0));
    FirstCloseEffect(s1, "b", "user_hangup", true);
    assert Siblings(s1, "b") == {"a"};
    TwoSteps(s, End("a", Abandoned, 0), Hangup("b"));
  }

  /**
   Reopening, by direct finalisation, a session that another was merged into, and then closing the
   other, makes the two links point at each other: following them never ends.
   */
  lemma ReopeningMakesACycle() returns (ops: seq<Op>)
    ensures ValidRun(EMPTY, ops)
    ensures After(EMPTY, ops).sessions.Keys == {"a", "b"}
    ensures After(EMPTY, ops).sessions["a"].mergedInto == Some("b")
    ensures After(EMPTY, ops).sessions["b"].mergedInto == Some("a")
  {
    var first := FirstAbsorbsSecond();
    var second := [End("a", Abandoned, 0), Hangup("b")];
    ReopenThenClose(After(EMPTY, first));
    RunsCompose(EMPTY, first, second);
    ops := first + second;
  }

  /** The absorbed session "b" is closed too, and has absorbed "c". */
  ghost predicate HiddenAbsorbed(t: State) {
    && t.sessions.Keys == {"a", "b", "c"}
    && t.sessions["c"].mergedInto == Some("b") && t.sessions["b"].mergedInto == Some("a")
    && t.sessions["a"].status.Completed? && t.sessions["b"].status.Completed? && !t.sessions["c"].status.Completed?
    && t.sessions["a"].leadId == Some("lead") && t.sessions["b"].leadId == Some("lead")
    && t.sessions["a"].clientId == "client" && t.sessions["a"].mergedInto.None?
  }

  lemma OpenThenClose(s: State)
    requires FirstAbsorbedSecond(s)
    ensures ValidRun(s, [Open("c"), Hangup("b")])
    ensures HiddenAbsorbed(After(s, [Open("c"), Hangup("b")]))
  {
    ThirdIsSibling(s);
    FirstCloseEffect(Apply(s, Open("c")), "b", "user_hangup", true);
    TwoSteps(s, Open("c"), Hangup("b"));
  }

  lemma ThirdIsSibling(s: State)
    requires FirstAbsorbedSecond(s)
    ensures var t := Apply(s, Open("c"));
            && t.sessions == s.sessions["c" := NewSession(0, "client", Some("lead"), None, None)]
            && Siblings(t, "b") == {"c"}
  {}

  lemma OneOfTwoIsShown(t: State)
    requires HiddenAbsorbed(t)
    ensures |CompletedOf(t, "lead")| == 2
    ensures CallMetrics(t, Query("client", Some("lead"), None, None)).completedCalls == 1
  {
    assert CompletedOf(t, "lead") == {"a", "b"};
    assert WithStatus(t.sessions, Matching(t.sessions, Query("client", Some("lead"), None, None)), Completed) == {"a"};
  }

  /**
   A session that was absorbed while open can be closed by its own end event later. It then absorbs
   further siblings although it is hidden itself, and it is counted on the lead but not in the metrics.
   */
  lemma HiddenSessionAbsorbs() returns (ops: seq<Op>)
    ensures ValidRun(EMPTY, ops)
    ensures var t := After(EMPTY, ops);
            && t.sessions.Keys == {"a", "b", "c"}
            && t.sessions["c"].mergedInto == Some("b") && t.sessions["b"].mergedInto == Some("a")
            && "lead" in t.leads && t.leads["lead"].callCount == 2
            && CallMetrics(t, Query("client", Some("lead"), None, None)).completedCalls == 1
  {
    var first := CountingSteps();
    var second := [Open("c"), Hangup("b")];
    RunsTogether(first, second);
    ops := first + second;
    OneOfTwoIsShown(After(EMPTY, ops));
    BothAreCounted(ops);
  }

  ghost predicate Counting(ops: seq<Op>) {
    forall i | 0 <= i < |ops| :: !ops[i].End? && (ops[i].Close? ==> ops[i].counters)
  }

  lemma CountingSteps() returns (ops: seq<Op>)
    ensures ValidRun(EMPTY, ops) && FirstAbsorbedSecond(After(EMPTY, ops)) && Counting(ops)
  {
    ops := FirstAbsorbsSecond();
  }

  lemma RunsTogether(first: seq<Op>, second: seq<Op>)
    requires second == [Open("c"), Hangup("b")] && ValidRun(EMPTY, first) && FirstAbsorbedSecond(After(EMPTY, first))
    ensures ValidRun(EMPTY, first + second) && HiddenAbsorbed(After(EMPTY, first + second))
  {
    OpenThenClose(After(EMPTY, first));
    RunsCompose(EMPTY, first, second);
  }

  lemma BothAreCounted(ops: seq<Op>)
    requires ValidRun(EMPTY, ops) && Counting(ops)
    requires |CompletedOf(After(EMPTY, ops), "lead")| == 2
    ensures "lead" in After(EMPTY, ops).leads && After(EMPTY, ops).leads["lead"].callCount == 2
  {
    assert CompletedOf(EMPTY, "lead") == {};
    CallCountIsCompletedSessions(EMPTY, ops, "lead");
  }
}
