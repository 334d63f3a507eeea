/**
 What a committed run of the summarizer leaves in the rows of its call: which fact is stored under which
 key, and what becomes of the lead, the session, the interest history and the analysis.
 */
module SummarizerRecords {
  import opened Prelude
  import opened FactStore
  import opened ProfileValidation
  import opened Summarizer
  import opened SummarizerRuns

  // ---------- Active rows ----------

  /** The lead has an active row with this key. */
  ghost predicate HasActive(rows: seq<Fact>, leadId: string, key: string) {
    exists row :: row in rows && row.leadId == leadId && row.key == key && row.supersededAt == None
  }

  /** The lead has an active row with this key, and every such row holds this value. */
  ghost predicate HasOnly(rows: seq<Fact>, leadId: string, key: string, value: string) {
    && HasActive(rows, leadId, key)
    && forall row | row in rows && row.leadId == leadId && row.key == key && row.supersededAt == None :: row.value == value
  }

  lemma {:induction false} OwnMembers(rows: seq<Fact>, leadId: string, key: string, row: Fact)
    ensures row in Own(rows, leadId, key) <==> row in rows && row.leadId == leadId && row.key == key
  {
    if rows != [] {
      var n := |rows| - 1;
      OwnMembers(rows[..n], leadId, key, row);
      assert rows == rows[..n] + [rows[n]];
    }
  }

  lemma SameOwnSameActive(before: seq<Fact>, after: seq<Fact>, leadId: string, key: string, value: string)
    requires Own(before, leadId, key) == Own(after, leadId, key)
    ensures HasActive(before, leadId, key) <==> HasActive(after, leadId, key)
    ensures HasOnly(before, leadId, key, value) <==> HasOnly(after, leadId, key, value)
  {
    forall row ensures row in before && row.leadId == leadId && row.key == key
                  <==> row in after && row.leadId == leadId && row.key == key {
      OwnMembers(before, leadId, key, row);
      OwnMembers(after, leadId, key, row);
    }
  }

  // ---------- One write ----------

  lemma WriteMakesActive(rows: seq<Fact>, e: Entry, key: string)
    requires !FromPipeline(e.write) && e.write.key == key && Put(rows, e.leadId, e.write, e.source, e.at).Some?
    ensures HasActive(Put(rows, e.leadId, e.write, e.source, e.at).value, e.leadId, key)
  {
    FindSeesAll(rows, e.leadId, key);
    var after := Put(rows, e.leadId, e.write, e.source, e.at).value;
    var found := Find(rows, e.leadId, key);
    if found.One? && after == rows {
      assert rows[found.index] in rows;
    } else {
      assert after[|after| - 1] in after;
    }
  }

  lemma SupersedeHolds(rows: seq<Fact>, e: Entry, key: string)
    requires e.write.Supersede? && e.write.key == key && Put(rows, e.leadId, e.write, e.source, e.at).Some?
    ensures HasOnly(Put(rows, e.leadId, e.write, e.source, e.at).value, e.leadId, key, e.write.value)
  {
    WriteMakesActive(rows, e, key);
    FindSeesAll(rows, e.leadId, key);
    var after := Put(rows, e.leadId, e.write, e.source, e.at).value;
    forall row | row in after && row.leadId == e.leadId && row.key == key && row.supersededAt == None
      ensures row.value == e.write.value
    {
      var i :| 0 <= i < |after| && after[i] == row;
      if i < |rows| && after[i] == rows[i] {
        assert ActiveAt(rows, i, e.leadId, key);
      }
    }
  }

  // ---------- All writes of a call ----------

  /** The value last written to a key by the writers that supersede or add once. */
  function Latest(writes: seq<Write>, key: string): Option<string> {
    if writes == [] then None
    else
      var last := writes[|writes| - 1];
      if !FromPipeline(last) && last.key == key then Some(last.value) else Latest(writes[..|writes| - 1], key)
  }

  lemma {:induction false} LatestAppend(a: seq<Write>, b: seq<Write>, key: string)
    ensures Latest(a + b, key) == if Latest(b, key).Some? then Latest(b, key) else Latest(a, key)
  {
    if b == [] {
      assert a + b == a;
    } else {
      var n := |b| - 1;
      assert (a + b)[..|a + b| - 1] == a + b[..n];
      LatestAppend(a, b[..n], key);
    }
  }

  lemma {:induction false} LatestNone(writes: seq<Write>, key: string)
    ensures Latest(writes, key).None? <==> forall w | w in writes :: FromPipeline(w) || w.key != key
  {
    if writes != [] {
      LatestNone(writes[..|writes| - 1], key);
      assert writes == writes[..|writes| - 1] + [writes[|writes| - 1]];
    }
  }

  ghost predicate Usable(writes: seq<Write>) {
    forall i | 0 <= i < |writes| :: WellKeyed(writes[i]) && StaysInProfile(writes[i])
  }

  lemma UntouchedByOthers(write: Write, key: string)
    requires StaysInProfile(write) && !InProfile(key) && (FromPipeline(write) || write.key != key)
    ensures !Touches(write, key)
  {}

  lemma LogPrefix(leadId: string, source: string, writes: seq<Write>, at: int)
    requires writes != []
    ensures var n := |writes| - 1;
            && Log(leadId, source, writes, at)[..n] == Log(leadId, source, writes[..n], at)
            && Log(leadId, source, writes, at)[n] == Entry(leadId, writes[n], Some(source), at)
  {}

  /**
   After the writes of a call a key outside the profile namespace is active if it was or was written, and
   a key that is only superseded holds the value written last.
   */
  lemma {:induction false} RowsFollowWrites(rows: seq<Fact>, leadId: string, source: string, writes: seq<Write>, at: int, key: string)
    requires PutAll(rows, Log(leadId, source, writes, at)).Some? && Usable(writes) && !InProfile(key)
    ensures var after := PutAll(rows, Log(leadId, source, writes, at)).value;
            && (HasActive(after, leadId, key) <==> HasActive(rows, leadId, key) || Latest(writes, key).Some?)
            && (Latest(writes, key).None? ==> Own(after, leadId, key) == Own(rows, leadId, key))
            && (':' !in key && Latest(writes, key).Some? ==> HasOnly(after, leadId, key, Latest(writes, key).value))
  {
    if writes != [] {
      var n := |writes| - 1;
      var e := Entry(leadId, writes[n], Some(source), at);
      LogPrefix(leadId, source, writes, at);
      assert PutAll(rows, Log(leadId, source, writes[..n], at)).Some?;
      RowsFollowWrites(rows, leadId, source, writes[..n], at, key);
      LastWriteFollows(PutAll(rows, Log(leadId, source, writes[..n], at)).value, e, key,
                       if Latest(writes[..n], key).Some? then Latest(writes[..n], key).value else "");
    }
  }

  lemma LastWriteFollows(mid: seq<Fact>, e: Entry, key: string, value: string)
    requires Put(mid, e.leadId, e.write, e.source, e.at).Some? && !InProfile(key)
    requires WellKeyed(e.write) && StaysInProfile(e.write)
    ensures var after := Put(mid, e.leadId, e.write, e.source, e.at).value;
            if FromPipeline(e.write) || e.write.key != key
            then Own(after, e.leadId, key) == Own(mid, e.leadId, key)
                 && (HasActive(after, e.leadId, key) <==> HasActive(mid, e.leadId, key))
                 && (HasOnly(after, e.leadId, key, value) <==> HasOnly(mid, e.leadId, key, value))
            else HasActive(after, e.leadId, key)
                 && (':' !in key ==> HasOnly(after, e.leadId, key, e.write.value))
  {
    var after := Put(mid, e.leadId, e.write, e.source, e.at).value;
    if FromPipeline(e.write) || e.write.key != key {
      UntouchedByOthers(e.write, key);
      PutElsewhere(mid, e, e.leadId, key);
      SameOwnSameActive(after, mid, e.leadId, key, value);
    } else {
      WriteMakesActive(mid, e, key);
      if ':' !in key {
        ListKeysHaveColon(e.write);
        SupersedeHolds(mid, e, key);
      }
    }
  }

  lemma ListKeysHaveColon(write: Write)
    requires WellKeyed(write)
    ensures write.AddOnce? ==> ':' in write.key
  {
    if write.AddOnce? {
      var p :| p in PREFIXES && write.key == p + write.value;
      assert write.key[|p| - 1] == p[|p| - 1] == ':';
    }
  }

  lemma ProfileKeysHaveColon(key: string)
    ensures InProfile(key) ==> ':' in key
  {
    if InProfile(key) {
      assert key[7] == "profile:"[7];
    }
  }

  /** What the pipeline does with one update, and that it takes them in order. */
  lemma PipelineFollowsUpdates(before: seq<ProfileUpdate>, u: ProfileUpdate)
    requires u.category != "" && u.fact != ""
    ensures u.operation == "add" ==>
              PipelineWrites(before + [u]) == PipelineWrites(before) + [PipelineAdd("profile:" + u.category + ":" + u.slug, u.value)]
    ensures u.operation == "update" ==>
              PipelineWrites(before + [u])
              == PipelineWrites(before) + [PipelineUpdate(u.target, "profile:" + u.category + ":" + u.slug, u.value)]
    ensures u.operation == "remove" ==> PipelineWrites(before + [u]) == PipelineWrites(before) + [PipelineRemove(u.target)]
  {
    assert (before + [u])[..|before|] == before;
  }

  // ---------- Which keys a call writes ----------

  lemma {:induction false} ListMembers(prefix: string, keys: seq<Option<string>>, w: Write)
    ensures w in ListWrites(prefix, keys) <==>
            w.AddOnce? && w.value != "" && Some(w.value) in keys && w.key == prefix + w.value
  {
    if keys != [] {
      var n := |keys| - 1;
      ListMembers(prefix, keys[..n], w);
      assert keys == keys[..n] + [keys[n]];
    }
  }

  lemma LatestOfList(prefix: string, keys: seq<Option<string>>, k: string, q: string)
    requires k != "" && prefix in PREFIXES && q in PREFIXES
    ensures Latest(ListWrites(prefix, keys), q + k).Some? <==> prefix == q && Some(k) in keys
  {
    LatestNone(ListWrites(prefix, keys), q + k);
    if prefix == q && Some(k) in keys {
      ListMembers(prefix, keys, AddOnce(q + k, k));
    }
    forall w | w in ListWrites(prefix, keys) && !FromPipeline(w) && w.key == q + k ensures prefix == q && w.value == k && Some(k) in keys {
      ListMembers(prefix, keys, w);
      PrefixesDiffer(prefix, q, w.value, k);
    }
  }

  lemma PrefixesDiffer(p: string, q: string, x: string, y: string)
    requires p in PREFIXES && q in PREFIXES && p + x == q + y
    ensures p == q && x == y
  {
    PrefixIsUnique(p, q, x, y);
    assert |p| == |q| && (p + x)[..|p|] == p && (q + y)[..|q|] == q;
  }

  lemma PlainWritesHaveNoColon(writes: seq<Write>, key: string)
    requires ':' in key && forall w | w in writes :: w.Supersede? && WellKeyed(w)
    ensures Latest(writes, key).None?
  {
    LatestNone(writes, key);
  }

  lemma ListsHaveColon(prefix: string, keys: seq<Option<string>>, key: string)
    requires prefix in PREFIXES && ':' !in key
    ensures Latest(ListWrites(prefix, keys), key).None?
  {
    LatestNone(ListWrites(prefix, keys), key);
    forall w | w in ListWrites(prefix, keys) && !FromPipeline(w) ensures w.key != key {
      ListMembers(prefix, keys, w);
      assert WellKeyed(w);
      ListKeysHaveColon(w);
    }
  }

  lemma {:induction false} PipelineWritesAreApart(updates: seq<ProfileUpdate>, key: string)
    ensures Latest(PipelineWrites(updates), key).None?
  {
    PipelineOnly(updates);
    LatestNone(PipelineWrites(updates), key);
  }

  lemma {:induction false} PipelineOnly(updates: seq<ProfileUpdate>)
    ensures forall w | w in PipelineWrites(updates) :: FromPipeline(w)
  {
    if updates != [] {
      PipelineOnly(updates[..|updates| - 1]);
    }
  }

  lemma {:induction false} SupersedesOnly(facts: seq<(string, Option<string>)>)
    ensures forall w | w in Supersedes(facts) :: w.Supersede?
  {
    if facts != [] {
      SupersedesOnly(facts[..|facts| - 1]);
    }
  }

  lemma {:induction false} CorrectionsOnly(corrections: seq<Correction>)
    ensures forall w | w in CorrectionWrites(corrections) :: w.Supersede?
  {
    if corrections != [] {
      CorrectionsOnly(corrections[..|corrections| - 1]);
    }
  }

  /** The writes of a call other than its corrections and single values. */
  function Rest(f: CallFacts): seq<Write> {
    ListWrites("pain:", f.painPoints) + ListWrites("service_issue:", f.serviceIssues)
    + ListWrites("objection:", f.objections) + ListWrites("signal:", f.commitments) + PipelineWrites(f.profileUpdates)
  }

  lemma WritesSplit(f: CallFacts)
    ensures Writes(f) == CorrectionWrites(f.corrections) + Supersedes(SingularFacts(f)) + Rest(f)
  {
    Regroup(CorrectionWrites(f.corrections) + Supersedes(SingularFacts(f)), ListWrites("pain:", f.painPoints),
            ListWrites("service_issue:", f.serviceIssues), ListWrites("objection:", f.objections),
            ListWrites("signal:", f.commitments), PipelineWrites(f.profileUpdates));
  }

  lemma Regroup(a: seq<Write>, b: seq<Write>, c: seq<Write>, d: seq<Write>, e: seq<Write>, f: seq<Write>)
    ensures a + b + c + d + e + f == a + (b + c + d + e + f)
  {
    assert a + b + c == a + (b + c);
    assert a + b + c + d == a + (b + c + d);
    assert a + b + c + d + e == a + (b + c + d + e);
  }

  lemma LatestOfRest(f: CallFacts, key: string)
    ensures Latest(Rest(f), key) ==
            if Latest(ListWrites("signal:", f.commitments), key).Some? then Latest(ListWrites("signal:", f.commitments), key)
            else if Latest(ListWrites("objection:", f.objections), key).Some? then Latest(ListWrites("objection:", f.objections), key)
            else if Latest(ListWrites("service_issue:", f.serviceIssues), key).Some?
            then Latest(ListWrites("service_issue:", f.serviceIssues), key)
            else Latest(ListWrites("pain:", f.painPoints), key)
  {
    var p, s, o, c := ListWrites("pain:", f.painPoints), ListWrites("service_issue:", f.serviceIssues),
                      ListWrites("objection:", f.objections), ListWrites("signal:", f.commitments);
    PipelineWritesAreApart(f.profileUpdates, key);
    LatestAppend(p + s + o + c, PipelineWrites(f.profileUpdates), key);
    LatestAppend(p + s + o, c, key);
    LatestAppend(p + s, o, key);
    LatestAppend(p, s, key);
  }

  lemma LatestIsInRest(f: CallFacts, q: string, k: string)
    requires q in PREFIXES
    ensures Latest(Writes(f), q + k) == Latest(Rest(f), q + k)
  {
    var corrections, single := CorrectionWrites(f.corrections), Supersedes(SingularFacts(f));
    assert (q + k)[|q| - 1] == ':';
    CorrectionsOnly(f.corrections);
    CorrectionsWellKeyed(f.corrections);
    SupersedesOnly(SingularFacts(f));
    SingularWellKeyed(SingularFacts(f));
    PlainWritesHaveNoColon(corrections, q + k);
    PlainWritesHaveNoColon(single, q + k);
    WritesSplit(f);
    LatestAppend(corrections + single, Rest(f), q + k);
    LatestAppend(corrections, single, q + k);
  }

  /** A list-type key is written exactly when its own list names it. */
  lemma LatestOfListKey(f: CallFacts, q: string, k: string)
    requires q in PREFIXES && k != ""
    ensures Latest(Writes(f), q + k).Some? <==>
            Some(k) in (if q == "pain:" then f.painPoints else if q == "service_issue:" then f.serviceIssues
                        else if q == "objection:" then f.objections else f.commitments)
  {
    LatestIsInRest(f, q, k);
    LatestOfRest(f, q + k);
    LatestOfList("pain:", f.painPoints, k, q);
    LatestOfList("service_issue:", f.serviceIssues, k, q);
    LatestOfList("objection:", f.objections, k, q);
    LatestOfList("signal:", f.commitments, k, q);
  }

  lemma {:induction false} LatestOfPairs(facts: seq<(string, Option<string>)>, i: nat)
    requires i < |facts| && forall j, k | 0 <= j < k < |facts| :: facts[j].0 != facts[k].0
    ensures Latest(Supersedes(facts), facts[i].0) == facts[i].1
    decreases |facts|
  {
    var n := |facts| - 1;
    if i < n {
      LatestOfPairs(facts[..n], i);
    } else {
      PairsWithout(facts[..n], facts[n].0);
    }
    LatestAppend(Supersedes(facts[..n]), if facts[n].1.Some? then [Supersede(facts[n].0, facts[n].1.value)] else [], facts[i].0);
  }

  lemma {:induction false} PairsWithout(facts: seq<(string, Option<string>)>, key: string)
    requires forall i | 0 <= i < |facts| :: facts[i].0 != key
    ensures Latest(Supersedes(facts), key).None?
  {
    if facts != [] {
      var n := |facts| - 1;
      PairsWithout(facts[..n], key);
      LatestAppend(Supersedes(facts[..n]), if facts[n].1.Some? then [Supersede(facts[n].0, facts[n].1.value)] else [], key);
    }
  }

  /** After the corrections only the single values are written to a key without a prefix. */
  lemma LatestOfPlainKey(f: CallFacts, key: string)
    requires ':' !in key
    ensures Latest(Writes(f), key) == if Latest(Supersedes(SingularFacts(f)), key).Some?
                                      then Latest(Supersedes(SingularFacts(f)), key)
                                      else Latest(CorrectionWrites(f.corrections), key)
  {
    WritesSplit(f);
    LatestOfRest(f, key);
    ListsHaveColon("pain:", f.painPoints, key);
    ListsHaveColon("service_issue:", f.serviceIssues, key);
    ListsHaveColon("objection:", f.objections, key);
    ListsHaveColon("signal:", f.commitments, key);
    LatestAppend(CorrectionWrites(f.corrections) + Supersedes(SingularFacts(f)), Rest(f), key);
    LatestAppend(CorrectionWrites(f.corrections), Supersedes(SingularFacts(f)), key);
  }

  lemma LatestOfSingle(f: CallFacts, i: nat)
    requires i < 6
    ensures Latest(Supersedes(SingularFacts(f)), SingularFacts(f)[i].0) == SingularFacts(f)[i].1
  {
    LatestOfPairs(SingularFacts(f), i);
  }

  // ---------- The fact table after a committed run ----------

  /** A run that committed results for a lead, with profile updates that passed validation. */
  ghost predicate Committed(db: Db, a: Attempt, t: Db, leadId: string) {
    && ResultsWritten(db, a, t)
    && db.sessions[a.sessionId].leadId == Some(leadId) && leadId != "" && leadId in World(db, a).leads
    && Passed(a.reply.facts.profileUpdates, CurrentKeys(db.facts, leadId))
  }

  lemma CommittedFacts(db: Db, a: Attempt, t: Db, leadId: string, key: string)
    requires Committed(db, a, t, leadId) && !InProfile(key)
    ensures var w, latest := World(db, a), Latest(Writes(a.reply.facts), key);
            && (HasActive(t.facts, leadId, key) <==> HasActive(w.facts, leadId, key) || latest.Some?)
            && (latest.None? ==> Own(t.facts, leadId, key) == Own(w.facts, leadId, key))
            && (':' !in key && latest.Some? ==> HasOnly(t.facts, leadId, key, latest.value))
  {
    var f := a.reply.facts;
    WritesWellKeyed(f);
    PassedWritesStay(f.profileUpdates, CurrentKeys(db.facts, leadId));
    forall i | 0 <= i < |Writes(f)| ensures WellKeyed(Writes(f)[i]) && StaysInProfile(Writes(f)[i]) {
      assert Writes(f)[i] in Writes(f);
    }
    RowsFollowWrites(World(db, a).facts, leadId, a.sessionId, Writes(f), a.now, key);
  }

  /**
   A list-type fact is active after a run exactly when it was before or the call's own list names it:
   pain points under "pain:", service issues under "service_issue:", objections under "objection:" and
   commitments under "signal:".
   */
  lemma ListFactsAreStored(db: Db, a: Attempt, t: Db, leadId: string, k: string)
    requires Committed(db, a, t, leadId) && k != ""
    ensures var before, f := World(db, a).facts, a.reply.facts;
            && (HasActive(t.facts, leadId, "pain:" + k) <==> HasActive(before, leadId, "pain:" + k) || Some(k) in f.painPoints)
            && (HasActive(t.facts, leadId, "service_issue:" + k)
                <==> HasActive(before, leadId, "service_issue:" + k) || Some(k) in f.serviceIssues)
            && (HasActive(t.facts, leadId, "objection:" + k)
                <==> HasActive(before, leadId, "objection:" + k) || Some(k) in f.objections)
            && (HasActive(t.facts, leadId, "signal:" + k) <==> HasActive(before, leadId, "signal:" + k) || Some(k) in f.commitments)
  {
    ListFactIsStored(db, a, t, leadId, "pain:", k);
    ListFactIsStored(db, a, t, leadId, "service_issue:", k);
    ListFactIsStored(db, a, t, leadId, "objection:", k);
    ListFactIsStored(db, a, t, leadId, "signal:", k);
  }

  lemma ListFactIsStored(db: Db, a: Attempt, t: Db, leadId: string, q: string, k: string)
    requires Committed(db, a, t, leadId) && k != "" && q in PREFIXES
    ensures HasActive(t.facts, leadId, q + k) <==>
            HasActive(World(db, a).facts, leadId, q + k) || Latest(Writes(a.reply.facts), q + k).Some?
    ensures Latest(Writes(a.reply.facts), q + k).Some? <==>
            Some(k) in (if q == "pain:" then a.reply.facts.painPoints else if q == "service_issue:" then a.reply.facts.serviceIssues
                        else if q == "objection:" then a.reply.facts.objections else a.reply.facts.commitments)
  {
    ListKeysAreApart(q, k);
    CommittedFacts(db, a, t, leadId, q + k);
    LatestOfListKey(a.reply.facts, q, k);
  }

  lemma ListKeysAreApart(q: string, k: string)
    requires q in PREFIXES
    ensures !InProfile(q + k)
  {
    assert (q + k)[0] == q[0] && (q + k)[1] == q[1];
  }

  lemma SingleIsLatest(f: CallFacts, i: nat)
    requires i < 6
    ensures ':' !in SingularFacts(f)[i].0
    ensures SingularFacts(f)[i].1.Some? ==> Latest(Writes(f), SingularFacts(f)[i].0) == SingularFacts(f)[i].1
  {
    LatestOfSingle(f, i);
    LatestOfPlainKey(f, SingularFacts(f)[i].0);
  }

  lemma SingleFactIsStored(db: Db, a: Attempt, t: Db, leadId: string, i: nat)
    requires Committed(db, a, t, leadId) && i < 6 && SingularFacts(a.reply.facts)[i].1.Some?
    ensures HasOnly(t.facts, leadId, SingularFacts(a.reply.facts)[i].0, SingularFacts(a.reply.facts)[i].1.value)
  {
    var key := SingularFacts(a.reply.facts)[i].0;
    SingleIsLatest(a.reply.facts, i);
    ProfileKeysHaveColon(key);
    CommittedFacts(db, a, t, leadId, key);
  }

  /** Each single value a call gives is the one active value of its own key after the run. */
  lemma SingleFactsAreStored(db: Db, a: Attempt, t: Db, leadId: string)
    requires Committed(db, a, t, leadId)
    ensures var f := a.reply.facts;
            && (f.interestLevel.Some? ==> HasOnly(t.facts, leadId, "interest_level", Decimal(f.interestLevel.value)))
            && (f.currentInsurance.Some? ==> HasOnly(t.facts, leadId, "current_insurance", f.currentInsurance.value))
            && (f.nextAction.Some? ==> HasOnly(t.facts, leadId, "next_action", f.nextAction.value))
            && (f.primaryNeed.Some? ==> HasOnly(t.facts, leadId, "primary_need", f.primaryNeed.value))
            && (f.classification.Some? ==> HasOnly(t.facts, leadId, "classification", f.classification.value))
            && (f.nextAction == Some("do_not_call") ==> HasOnly(t.facts, leadId, "do_not_call", "true"))
  {
    var f := a.reply.facts;
    if f.interestLevel.Some? { SingleFactIsStored(db, a, t, leadId, 0); }
    if f.currentInsurance.Some? { SingleFactIsStored(db, a, t, leadId, 1); }
    if f.nextAction.Some? { SingleFactIsStored(db, a, t, leadId, 2); }
    if f.primaryNeed.Some? { SingleFactIsStored(db, a, t, leadId, 3); }
    if f.classification.Some? { SingleFactIsStored(db, a, t, leadId, 4); }
    if f.nextAction == Some("do_not_call") { SingleFactIsStored(db, a, t, leadId, 5); }
  }

  // ---------- Corrections ----------

  /** A correction of a known field that the pipeline applied and whose value coerces. */
  predicate Effective(c: Correction) {
    && c.applied && c.coerced.Some?
    && c.field in {"name", "phone", "email", "age", "car_make", "car_model", "car_year", "current_insurance", "zona"}
  }

  /** Correction i is the last effective one of its field. */
  predicate LastOfField(corrections: seq<Correction>, i: nat) {
    && i < |corrections| && Effective(corrections[i])
    && forall j | i < j < |corrections| :: !(Effective(corrections[j]) && corrections[j].field == corrections[i].field)
  }

  lemma LastOfPrefix(corrections: seq<Correction>, i: nat)
    requires LastOfField(corrections, i) && i < |corrections| - 1
    ensures LastOfField(corrections[..|corrections| - 1], i)
  {}

  lemma {:induction false} LatestCorrection(corrections: seq<Correction>, i: nat)
    requires LastOfField(corrections, i)
    ensures Latest(CorrectionWrites(corrections), corrections[i].field) == Some(corrections[i].value)
    decreases |corrections|
  {
    var n := |corrections| - 1;
    if i < n {
      LastOfPrefix(corrections, i);
      LatestCorrection(corrections[..n], i);
    }
    LatestAppend(CorrectionWrites(corrections[..n]),
                 if Accepted(corrections[n]) then [Supersede(corrections[n].field, corrections[n].value)] else [], corrections[i].field);
  }

  lemma {:induction false} CorrectedField(fields: map<string, string>, corrections: seq<Correction>, i: nat)
    requires LastOfField(corrections, i)
    ensures var after := Corrected(fields, corrections);
            corrections[i].field in after && after[corrections[i].field] == corrections[i].coerced.value
    decreases |corrections|
  {
    var n := |corrections| - 1;
    if i < n {
      LastOfPrefix(corrections, i);
      CorrectedField(fields, corrections[..n], i);
    }
  }

  lemma {:induction false} UncorrectedField(fields: map<string, string>, corrections: seq<Correction>, field: string)
    requires forall i | 0 <= i < |corrections| :: !(Effective(corrections[i]) && corrections[i].field == field)
    ensures var after := Corrected(fields, corrections);
            (field in after <==> field in fields) && (field in fields ==> after[field] == fields[field])
  {
    if corrections != [] {
      UncorrectedField(fields, corrections[..|corrections| - 1], field);
    }
  }

  lemma {:induction false} CustomField(fields: map<Summarizer.CustomField, string>, clientId: string, corrections: seq<Correction>, i: nat)
    requires LastOfField(corrections, i) && clientId != ""
    requires corrections[i].field in {"age", "car_make", "car_model", "car_year", "current_insurance", "zona"}
    ensures var after := CustomCorrected(fields, clientId, corrections);
            var key := Summarizer.CustomField(clientId, corrections[i].field);
            key in after && after[key] == corrections[i].coerced.value
    decreases |corrections|
  {
    var n := |corrections| - 1;
    if i < n {
      LastOfPrefix(corrections, i);
      CustomField(fields, clientId, corrections[..n], i);
    }
  }

  lemma {:induction false} UntouchedCustomField(fields: map<Summarizer.CustomField, string>, clientId: string, corrections: seq<Correction>,
                                                key: Summarizer.CustomField)
    requires clientId == "" || key.clientId != clientId
             || key.field !in {"age", "car_make", "car_model", "car_year", "current_insurance", "zona"}
             || forall i | 0 <= i < |corrections| :: !(Effective(corrections[i]) && corrections[i].field == key.field)
    ensures var after := CustomCorrected(fields, clientId, corrections);
            (key in after <==> key in fields) && (key in fields ==> after[key] == fields[key])
  {
    if corrections != [] && clientId != "" {
      UntouchedCustomField(fields, clientId, corrections[..|corrections| - 1], key);
    }
  }

  /**
   The last effective correction of a field is what the lead's column and, for a custom field, the custom
   field hold afterwards; as a fact it is the active value unless the call also gives the value itself.
   */
  lemma CorrectionsAreStored(db: Db, a: Attempt, t: Db, leadId: string, i: nat)
    requires Committed(db, a, t, leadId) && LastOfField(a.reply.facts.corrections, i)
    ensures leadId in t.leads
    ensures var c, lead, clientId := a.reply.facts.corrections[i], t.leads[leadId], db.sessions[a.sessionId].clientId;
            && c.field in lead.fields && lead.fields[c.field] == c.coerced.value
            && (clientId != "" && c.field in {"age", "car_make", "car_model", "car_year", "current_insurance", "zona"} ==>
                  Summarizer.CustomField(clientId, c.field) in lead.customFields
                  && lead.customFields[Summarizer.CustomField(clientId, c.field)] == c.coerced.value)
            && (c.field != "current_insurance" || a.reply.facts.currentInsurance == None ==>
                  HasOnly(t.facts, leadId, c.field, c.value))
  {
    var f := a.reply.facts;
    var c, lead, clientId := f.corrections[i], World(db, a).leads[leadId], db.sessions[a.sessionId].clientId;
    CorrectedField(lead.fields, f.corrections, i);
    if clientId != "" && c.field in {"age", "car_make", "car_model", "car_year", "current_insurance", "zona"} {
      CustomField(lead.customFields, clientId, f.corrections, i);
    }
    if c.field != "current_insurance" || f.currentInsurance == None {
      CorrectionFactIsStored(db, a, t, leadId, i);
    }
  }

  lemma CorrectionFactIsStored(db: Db, a: Attempt, t: Db, leadId: string, i: nat)
    requires Committed(db, a, t, leadId) && LastOfField(a.reply.facts.corrections, i)
    requires a.reply.facts.corrections[i].field != "current_insurance" || a.reply.facts.currentInsurance == None
    ensures HasOnly(t.facts, leadId, a.reply.facts.corrections[i].field, a.reply.facts.corrections[i].value)
  {
    var key := a.reply.facts.corrections[i].field;
    FieldsArePlain(a.reply.facts.corrections[i]);
    ProfileKeysHaveColon(key);
    CorrectionIsLatest(a.reply.facts, i);
    CommittedFacts(db, a, t, leadId, key);
  }

  lemma FieldsArePlain(c: Correction)
    requires Effective(c)
    ensures ':' !in c.field
  {}

  lemma CorrectionIsLatest(f: CallFacts, i: nat)
    requires LastOfField(f.corrections, i)
    requires f.corrections[i].field != "current_insurance" || f.currentInsurance == None
    ensures Latest(Writes(f), f.corrections[i].field) == Some(f.corrections[i].value)
  {
    var key := f.corrections[i].field;
    FieldsArePlain(f.corrections[i]);
    LatestCorrection(f.corrections, i);
    if key == "current_insurance" {
      LatestOfSingle(f, 1);
    } else {
      SingleKeysDiffer(f, f.corrections[i]);
      PairsWithout(SingularFacts(f), key);
    }
    LatestOfPlainKey(f, key);
  }

  lemma SingleKeysDiffer(f: CallFacts, c: Correction)
    requires Effective(c) && c.field != "current_insurance"
    ensures forall i | 0 <= i < 6 :: SingularFacts(f)[i].0 != c.field
  {
    assert SingularFacts(f)[0].0 == "interest_level" && SingularFacts(f)[1].0 == "current_insurance"
           && SingularFacts(f)[2].0 == "next_action" && SingularFacts(f)[3].0 == "primary_need"
           && SingularFacts(f)[4].0 == "classification" && SingularFacts(f)[5].0 == "do_not_call";
  }

  /** Columns and custom fields without an effective correction stay as they were. */
  lemma UncorrectedFieldsStay(db: Db, a: Attempt, t: Db, leadId: string, field: string, key: Summarizer.CustomField)
    requires Committed(db, a, t, leadId) && key.field == field
    requires forall i | 0 <= i < |a.reply.facts.corrections| ::
               !(Effective(a.reply.facts.corrections[i]) && a.reply.facts.corrections[i].field == field)
    ensures leadId in t.leads
    ensures var before, after := World(db, a).leads[leadId], t.leads[leadId];
            && (field in after.fields <==> field in before.fields)
            && (field in before.fields ==> after.fields[field] == before.fields[field])
            && (key in after.customFields <==> key in before.customFields)
            && (key in before.customFields ==> after.customFields[key] == before.customFields[key])
  {
    var lead := World(db, a).leads[leadId];
    UncorrectedField(lead.fields, a.reply.facts.corrections, field);
    UntouchedCustomField(lead.customFields, db.sessions[a.sessionId].clientId, a.reply.facts.corrections, key);
  }

  // ---------- The lead, the history, the session and the analysis ----------

  /** The columns of the lead after a run, one by one; no other lead changes. */
  lemma LeadIsUpdated(db: Db, a: Attempt, t: Db, leadId: string)
    requires Committed(db, a, t, leadId)
    ensures leadId in t.leads
    ensures var f, before, after := a.reply.facts, World(db, a).leads[leadId], t.leads[leadId];
            && after.summaryLastCall == Some(a.reply.summary)
            && (forall o :: o in after.objectionsHeard <==> o in before.objectionsHeard || o in f.objectionCategories)
            && after.interestLevel == (if f.interestLevel.Some? then f.interestLevel else before.interestLevel)
            && (forall key :: key in after.extracted <==> key in f.extracted || key in before.extracted)
            && (forall key | key in f.extracted :: after.extracted[key] == f.extracted[key])
            && (forall key | key in before.extracted && key !in f.extracted :: after.extracted[key] == before.extracted[key])
            && (after.doNotCall <==>
                  || before.doNotCall || f.nextAction == Some("close_lead") || f.nextAction == Some("do_not_call")
                  || f.classification == Some("do_not_contact"))
            && after.nextAction == (if f.nextAction.Some? && f.nextAction.value != "" then f.nextAction else before.nextAction)
            && after.nextActionAt == (if f.nextActionResult.Some? && f.nextActionResult.value.at.Some?
                                      then f.nextActionResult.value.at else before.nextActionAt)
    ensures forall other | other in World(db, a).leads && other != leadId ::
              other in t.leads && t.leads[other] == World(db, a).leads[other]
  {}

  /** The only moves of a lead's status: from `called`, by a follow-up, a scheduled call, or a close with an outcome. */
  lemma StatusMoves(db: Db, a: Attempt, t: Db, leadId: string)
    requires Committed(db, a, t, leadId) && leadId in t.leads
    ensures var before, after, decision := World(db, a).leads[leadId].status, t.leads[leadId].status, a.reply.facts.nextActionResult;
            && (before != "called" || decision.None? ==> after == before)
            && (before == "called" && decision.Some? ==>
                  var action, outcome := decision.value.action, decision.value.outcome;
                  && (after == "quoted" <==> action == "close_lead" && outcome == Some("completed_positive") && a.quoteReady)
                  && (after == "follow_up" <==>
                        || action == "follow_up" || action == "schedule_call"
                        || (action == "close_lead" && outcome == Some("completed_positive") && !a.quoteReady))
                  && (after == "not_interested" <==>
                        && action == "close_lead"
                        && outcome in {Some("completed_negative"), Some("do_not_contact"), Some("hostile")})
                  && after in {"called", "quoted", "follow_up", "not_interested"})
  {}

  /** One entry of interest history, between 0 and 100, if the call gives a level. */
  lemma HistoryGrows(db: Db, a: Attempt, t: Db, leadId: string)
    requires Committed(db, a, t, leadId)
    ensures var before, level := World(db, a).history, a.reply.facts.interestLevel;
            && (level.None? ==> t.history == before)
            && (level.Some? ==>
                  && |t.history| == |before| + 1 && t.history[..|before|] == before
                  && var entry := t.history[|before|];
                     && entry.leadId == leadId && entry.source == a.sessionId && 0 <= entry.level <= 100
                     && (0 <= level.value <= 100 ==> entry.level == level.value)
                     && (level.value < 0 ==> entry.level == 0) && (level.value > 100 ==> entry.level == 100))
  {}

  lemma {:induction false} RolesAreCounted(roles: seq<string>, role: string)
    ensures CountRole(roles, role) == |set i | 0 <= i < |roles| && roles[i] == role|
  {
    if roles != [] {
      var n := |roles| - 1;
      RolesAreCounted(roles[..n], role);
      var before := set i | 0 <= i < n && roles[..n][i] == role;
      assert (set i | 0 <= i < |roles| && roles[i] == role) == before + if roles[n] == role then {n} else {};
    }
  }

  lemma {:induction false} CountOneMeans(analyses: seq<AnalysisRow>, sessionId: string)
    ensures AnalysisCount(analyses, sessionId) <= 1 ==>
              forall i, j | 0 <= i < j < |analyses| && analyses[i].sessionId == sessionId :: analyses[j].sessionId != sessionId
  {
    if analyses != [] {
      var n := |analyses| - 1;
      CountOneMeans(analyses[..n], sessionId);
      CountAbsent(analyses[..n], sessionId);
      assert analyses == analyses[..n] + [analyses[n]];
    }
  }

  /** The analysis row of the session is there, holds the result, and is the only row that changed. */
  lemma RowIsUpserted(analyses: seq<AnalysisRow>, row: AnalysisRow, keep: bool)
    requires Upserted(analyses, row, keep).Some?
    ensures var after := Upserted(analyses, row, keep).value;
            exists k :: 0 <= k < |after|
              && after[k].sessionId == row.sessionId && after[k].leadId == row.leadId && after[k].clientId == row.clientId
              && after[k].status == row.status && after[k].error == row.error
              && (!keep || k == |analyses| ==> after[k].summary == row.summary && after[k].facts == row.facts)
              && (keep && k < |analyses| ==> after[k].summary == analyses[k].summary && after[k].facts == analyses[k].facts)
              && |analyses| == (if k < |analyses| then |after| else |after| - 1)
              && forall i | 0 <= i < |analyses| && i != k :: after[i] == analyses[i] && analyses[i].sessionId != row.sessionId
  {
    CountAbsent(analyses, row.sessionId);
    CountOneMeans(analyses, row.sessionId);
    var after := Upserted(analyses, row, keep).value;
    if AnalysisCount(analyses, row.sessionId) == 0 {
      assert after[|analyses|] == row;
    } else {
      var k :| 0 <= k < |analyses| && analyses[k].sessionId == row.sessionId;
      assert after[k].sessionId == row.sessionId;
    }
  }

  /** What a run with results leaves on its session and analysis, whether or not the call has a lead. */
  lemma SessionIsUpdated(db: Db, a: Attempt, t: Db)
    requires ResultsWritten(db, a, t)
    ensures a.sessionId in t.sessions
    ensures var roles, cs := db.turns[a.sessionId], t.sessions[a.sessionId];
            && cs.summary == Some(a.reply.summary) && cs.extracted == Extracted(a.reply.facts)
            && cs.userTurns == |set i | 0 <= i < |roles| && roles[i] == "user"|
            && cs.agentTurns == |set i | 0 <= i < |roles| && roles[i] == "agent"|
            && cs.leadId == World(db, a).sessions[a.sessionId].leadId && cs.clientId == World(db, a).sessions[a.sessionId].clientId
    ensures forall o | o in World(db, a).sessions && o != a.sessionId :: o in t.sessions && t.sessions[o] == World(db, a).sessions[o]
    ensures exists k :: 0 <= k < |t.analyses| && t.analyses[k] ==
              AnalysisRow(a.sessionId, db.sessions[a.sessionId].leadId, db.sessions[a.sessionId].clientId,
                          Some(a.reply.summary), Some(a.reply.facts), "ok", None)
  {
    RolesAreCounted(db.turns[a.sessionId], "user");
    RolesAreCounted(db.turns[a.sessionId], "agent");
    var row := AnalysisRow(a.sessionId, db.sessions[a.sessionId].leadId, db.sessions[a.sessionId].clientId,
                           Some(a.reply.summary), Some(a.reply.facts), "ok", None);
    RowIsUpserted(World(db, a).analyses, row, false);
    var k :| 0 <= k < |t.analyses| && t.analyses[k].sessionId == row.sessionId;
    OnlyRow(World(db, a).analyses, row, t.analyses);
  }

  lemma OnlyRow(analyses: seq<AnalysisRow>, row: AnalysisRow, after: seq<AnalysisRow>)
    requires Upserted(analyses, row, false) == Some(after)
    ensures exists k :: 0 <= k < |after| && after[k] == row
  {
    CountAbsent(analyses, row.sessionId);
    if AnalysisCount(analyses, row.sessionId) == 0 {
      assert after[|analyses|] == row;
    } else {
      var k :| 0 <= k < |analyses| && analyses[k].sessionId == row.sessionId;
      assert after[k] == row;
    }
  }

  /** A call without a lead, or whose lead is gone, leaves leads, facts and history alone. */
  lemma NoLeadNoMerge(db: Db, a: Attempt, t: Db)
    requires ResultsWritten(db, a, t)
    requires var lead := db.sessions[a.sessionId].leadId; lead == None || lead == Some("") || lead.value !in World(db, a).leads
    ensures t.leads == World(db, a).leads && t.facts == World(db, a).facts && t.history == World(db, a).history
  {}

  /** A call without turns or without a session record is left alone, whatever the model would answer. */
  lemma NothingWithoutTurns(db: Db, a: Attempt)
    requires a.sessionId !in db.turns || |db.turns[a.sessionId]| == 0 || a.sessionId !in db.sessions
    ensures Run(db, a).db == db && (a.faults == {} ==> !Run(db, a).raised)
  {}

  /** The keys that proposals may refer to are those of the lead's active facts in the profile namespace. */
  lemma CurrentMeansActive(facts: seq<Fact>, leadId: string, key: string)
    ensures key in CurrentKeys(facts, leadId) <==> "profile:" <= key && HasActive(facts, leadId, key)
  {
    if "profile:" <= key && HasActive(facts, leadId, key) {
      var row :| row in facts && row.leadId == leadId && row.key == key && row.supersededAt == None;
      var i :| 0 <= i < |facts| && facts[i] == row;
      assert Active(facts[i], leadId, facts[i].key);
    }
  }

  // ---------- Runs that meet no failure ----------

  /** A run that meets no failure commits its results and reports success. */
  lemma FaultlessRunCommits(db: Db, a: Attempt)
    requires a.faults == {} && a.reply.Answer? && AsksModel(db, a) && a.sessionId in World(db, a).sessions
    requires Persisted(World(db, a), a, db.sessions[a.sessionId].leadId, db.sessions[a.sessionId].clientId,
                       db.turns[a.sessionId]).Some?
    ensures !Run(db, a).raised && ResultsWritten(db, a, Run(db, a).db)
  {}

  /** When the model fails and nothing else does, the failure is committed, and the durable entry point raises. */
  lemma ModelFailureIsRecorded(db: Db, a: Attempt)
    requires a.faults == {} && a.reply.Failure? && AsksModel(db, a) && a.sessionId in World(db, a).sessions
    requires AnalysisCount(World(db, a).analyses, a.sessionId) <= 1
    ensures Run(db, a).raised <==> a.durable
    ensures var t := Run(db, a).db;
            && a.sessionId in t.sessions && t.sessions[a.sessionId].extracted == FailedAnalysis(a.reply.error)
            && exists k :: 0 <= k < |t.analyses| && t.analyses[k].sessionId == a.sessionId
                           && t.analyses[k].status == "failed" && t.analyses[k].error == Some(a.reply.error)
  {
    var row := AnalysisRow(a.sessionId, db.sessions[a.sessionId].leadId, db.sessions[a.sessionId].clientId, None, None,
                           "failed", Some(a.reply.error));
    RowIsUpserted(World(db, a).analyses, row, true);
  }
}
