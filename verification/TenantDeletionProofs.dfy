/**
 The fourteen statements do what one simultaneous deletion would, and keep every foreign key on the way
 exactly when no row that stays refers to a row that goes.
 */
module TenantDeletionProofs {
  import opened Prelude
  import opened TenantDeletion

  // ---------- When the migration runs to its end ----------

  lemma {:induction false} KeysAndParents(db: Db, k: nat, cid: Id)
    requires k <= |UPGRADE| && ExecuteAll(db, UPGRADE[..k], cid).Some?
    ensures ExecuteAll(db, UPGRADE[..k], cid).value.Keys == db.Keys
    ensures forall j | 0 <= j < k :: UPGRADE[j].table in db ==> Parents(UPGRADE[j].where) <= db.Keys
  {
    if k > 0 {
      assert UPGRADE[..k][..k - 1] == UPGRADE[..k - 1];
      KeysAndParents(db, k - 1, cid);
    }
  }

  // ---------- Each statement reaches the next stage ----------

  /** A clause that is read the same at stage k: it selects from undeleted tables by columns never nulled. */
  predicate ReadableAt(where: Condition, k: nat) {
    match where
    case IdIsTenant => true
    case IsTenant => true
    case RefersTo(column, parent) =>
      k <= DeleteAt(parent) && column != ActiveRevisionId && column != ActiveConfigRevisionId
    case Or(left, right) => ReadableAt(left, k) && ReadableAt(right, k)
  }

  lemma StatementsReadable(k: nat)
    requires k < |UPGRADE|
    ensures ReadableAt(UPGRADE[k].where, k)
    ensures UPGRADE[k].Delete? ==> DeleteAt(UPGRADE[k].table) == k
    ensures UPGRADE[k].SetNull? ==>
              && NullAt(UPGRADE[k].table) == Some(k) && k < DeleteAt(UPGRADE[k].table)
              && UPGRADE[k].where == UPGRADE[DeleteAt(UPGRADE[k].table)].where
  {}

  lemma {:induction false} HoldsAtStage(db: Db, where: Condition, cid: Id, k: nat, t: Table, id: Id, row: Row)
    requires ReadableAt(where, k)
    ensures Holds(Stage(db, cid, k), where, cid, id, StageRow(db, t, cid, k, id, row)) <==> Holds(db, where, cid, id, row)
  {
    match where {
      case IdIsTenant =>
      case IsTenant =>
      case RefersTo(column, parent) =>
        if column in row.refs && parent in db && row.refs[column] in db[parent] {
          var target := row.refs[column];
          assert Stays(db, parent, cid, k, target, db[parent][target]);
          assert Stage(db, cid, k)[parent][target] == StageRow(db, parent, cid, k, target, db[parent][target]);
        }
      case Or(left, right) =>
        HoldsAtStage(db, left, cid, k, t, id, row);
        HoldsAtStage(db, right, cid, k, t, id, row);
    }
  }

  lemma StageElsewhere(db: Db, cid: Id, k: nat, t: Table)
    requires k < |UPGRADE| && t in db && UPGRADE[k].table != t
    ensures StageRows(db, t, cid, k + 1) == StageRows(db, t, cid, k)
  {
    assert DeleteAt(t) != k && NullAt(t) != Some(k);
    forall id | id in db[t]
      ensures Stays(db, t, cid, k + 1, id, db[t][id]) <==> Stays(db, t, cid, k, id, db[t][id])
      ensures StageRow(db, t, cid, k + 1, id, db[t][id]) == StageRow(db, t, cid, k, id, db[t][id])
    {}
  }

  lemma StageAtTable(db: Db, cid: Id, k: nat)
    requires k < |UPGRADE| && UPGRADE[k].table in db && Parents(UPGRADE[k].where) <= db.Keys
    ensures Execute(Stage(db, cid, k), UPGRADE[k], cid).Some?
    ensures Execute(Stage(db, cid, k), UPGRADE[k], cid).value[UPGRADE[k].table]
         == StageRows(db, UPGRADE[k].table, cid, k + 1)
  {
    StatementsReadable(k);
    var t := UPGRADE[k].table;
    var where := UPGRADE[k].where;
    var stage := Stage(db, cid, k);
    var after := Execute(stage, UPGRADE[k], cid).value[t];
    var expected := StageRows(db, t, cid, k + 1);
    forall id | id in db[t] ensures id in after <==> id in expected {
      if id in stage[t] {
        assert stage[t][id] == StageRow(db, t, cid, k, id, db[t][id]);
        HoldsAtStage(db, where, cid, k, t, id, db[t][id]);
      }
    }
    forall id | id in after ensures id in expected && after[id] == expected[id] {
      assert id in stage[t] && stage[t][id] == StageRow(db, t, cid, k, id, db[t][id]);
      HoldsAtStage(db, where, cid, k, t, id, db[t][id]);
    }
    assert after.Keys == expected.Keys;
  }

  lemma StageStep(db: Db, cid: Id, k: nat)
    requires k < |UPGRADE| && (UPGRADE[k].table in db ==> Parents(UPGRADE[k].where) <= db.Keys)
    ensures Execute(Stage(db, cid, k), UPGRADE[k], cid) == Some(Stage(db, cid, k + 1))
  {
    forall t | t in db && t != UPGRADE[k].table ensures StageRows(db, t, cid, k + 1) == StageRows(db, t, cid, k) {
      StageElsewhere(db, cid, k, t);
    }
    if UPGRADE[k].table in db {
      StageAtTable(db, cid, k);
      var after := Execute(Stage(db, cid, k), UPGRADE[k], cid).value;
      assert after.Keys == Stage(db, cid, k + 1).Keys;
      assert after == Stage(db, cid, k + 1);
    } else {
      assert Stage(db, cid, k) == Stage(db, cid, k + 1);
    }
  }

  lemma StageZero(db: Db, cid: Id)
    ensures Stage(db, cid, 0) == db
  {
    forall t | t in db ensures StageRows(db, t, cid, 0) == db[t] {}
  }

  /** The database after the first k statements is stage k, whose rows are chosen on the original database. */
  lemma {:induction false} PrefixReachesStage(db: Db, cid: Id, k: nat)
    requires k <= |UPGRADE| && Runnable(db)
    ensures ExecuteAll(db, UPGRADE[..k], cid) == Some(Stage(db, cid, k))
  {
    if k == 0 {
      StageZero(db, cid);
    } else {
      assert UPGRADE[..k][..k - 1] == UPGRADE[..k - 1];
      PrefixReachesStage(db, cid, k - 1);
      StageStep(db, cid, k - 1);
    }
  }

  /** The migration runs to its end exactly when every present table's parents are present too. */
  lemma RunsToTheEndIff(db: Db, cid: Id)
    ensures ExecuteAll(db, UPGRADE, cid).Some? <==> Runnable(db)
  {
    assert UPGRADE[..|UPGRADE|] == UPGRADE;
    if ExecuteAll(db, UPGRADE, cid).Some? {
      KeysAndParents(db, |UPGRADE|, cid);
      ParentsMakeRunnable(db);
    }
    if Runnable(db) {
      PrefixReachesStage(db, cid, |UPGRADE|);
    }
  }

  lemma ParentsMakeRunnable(db: Db)
    requires forall j | 0 <= j < |UPGRADE| :: UPGRADE[j].table in db ==> Parents(UPGRADE[j].where) <= db.Keys
    ensures Runnable(db)
  {
    assert UPGRADE[0].table in db ==> Parents(UPGRADE[0].where) <= db.Keys;
    assert UPGRADE[1].table in db ==> Parents(UPGRADE[1].where) <= db.Keys;
    assert UPGRADE[2].table in db ==> Parents(UPGRADE[2].where) <= db.Keys;
    assert UPGRADE[3].table in db ==> Parents(UPGRADE[3].where) <= db.Keys;
    assert UPGRADE[9].table in db ==> Parents(UPGRADE[9].where) <= db.Keys;
  }

  // ---------- What is left at the end ----------

  /** The simultaneous deletion: rows that are not doomed, unchanged. */
  function Survivors(db: Db, cid: Id): Db {
    map t | t in db :: map id | id in db[t] && !Doomed(db, t, cid, id, db[t][id]) :: db[t][id]
  }

  /** The statements in order have the effect of deleting all doomed rows of the original database at once. */
  lemma UpgradeDeletesTheDoomed(db: Db, cid: Id)
    requires Runnable(db)
    ensures ExecuteAll(db, UPGRADE, cid) == Some(Survivors(db, cid))
  {
    PrefixReachesStage(db, cid, |UPGRADE|);
    assert UPGRADE[..|UPGRADE|] == UPGRADE;
    forall t | t in db ensures StageRows(db, t, cid, |UPGRADE|) == Survivors(db, cid)[t] {}
    assert Stage(db, cid, |UPGRADE|) == Survivors(db, cid);
  }

  lemma {:induction false} HoldsOnFewer(db: Db, where: Condition, cid: Id, id: Id, row: Row)
    requires Holds(Survivors(db, cid), where, cid, id, row)
    ensures Holds(db, where, cid, id, row)
  {
    match where {
      case IdIsTenant =>
      case IsTenant =>
      case RefersTo(_, _) =>
      case Or(left, right) =>
        if Holds(Survivors(db, cid), left, cid, id, row) {
          HoldsOnFewer(db, left, cid, id, row);
        } else {
          HoldsOnFewer(db, right, cid, id, row);
        }
    }
  }

  /** Running the migration a second time changes nothing. */
  lemma SecondUpgradeChangesNothing(db: Db, cid: Id)
    requires Runnable(db)
    ensures ExecuteAll(Survivors(db, cid), UPGRADE, cid) == Some(Survivors(db, cid))
  {
    var once := Survivors(db, cid);
    UpgradeDeletesTheDoomed(once, cid);
    forall t, id | t in once && id in once[t] ensures !Doomed(once, t, cid, id, once[t][id]) {
      if Doomed(once, t, cid, id, once[t][id]) {
        HoldsOnFewer(db, UPGRADE[DeleteAt(t)].where, cid, id, once[t][id]);
      }
    }
    forall t | t in once ensures Survivors(once, cid)[t] == once[t] {}
    assert Survivors(once, cid) == once;
  }

  // ---------- Foreign keys ----------

  /** No row that stays refers to a row that goes. */
  predicate Isolated(db: Db, cid: Id) {
    forall fk, id | fk in FOREIGN_KEYS && fk.table in db && id in db[fk.table] ::
      IsolatedRow(db, cid, fk, id, db[fk.table][id])
  }

  predicate IsolatedRow(db: Db, cid: Id, fk: ForeignKey, id: Id, row: Row) {
    !Doomed(db, fk.table, cid, id, row) && fk.column in row.refs && fk.target in db && row.refs[fk.column] in db[fk.target]
    ==> !Doomed(db, fk.target, cid, row.refs[fk.column], db[fk.target][row.refs[fk.column]])
  }

  /** Children go before their parents, or their reference is nulled before. */
  lemma DeletionOrder(fk: ForeignKey)
    requires fk in FOREIGN_KEYS
    ensures || DeleteAt(fk.table) < DeleteAt(fk.target)
            || (NullAt(fk.table).Some? && NullAt(fk.table).value < DeleteAt(fk.target)
                && UPGRADE[NullAt(fk.table).value].column == fk.column)
  {}

  lemma StageRefOk(db: Db, cid: Id, k: nat, fk: ForeignKey, id: Id)
    requires KeysValid(db) && Isolated(db, cid) && fk in FOREIGN_KEYS
    requires fk.table in db && id in db[fk.table] && Stays(db, fk.table, cid, k, id, db[fk.table][id])
    ensures RefOk(Stage(db, cid, k), fk, StageRow(db, fk.table, cid, k, id, db[fk.table][id]))
  {
    var row := db[fk.table][id];
    assert RefOk(db, fk, row) && IsolatedRow(db, cid, fk, id, row);
    DeletionOrder(fk);
    if fk.column in StageRow(db, fk.table, cid, k, id, row).refs {
      var target := row.refs[fk.column];
      assert Stays(db, fk.target, cid, k, target, db[fk.target][target]);
    }
  }

  lemma StageKeysValid(db: Db, cid: Id, k: nat)
    requires KeysValid(db) && Isolated(db, cid)
    ensures KeysValid(Stage(db, cid, k))
  {
    var stage := Stage(db, cid, k);
    forall fk, id | fk in FOREIGN_KEYS && fk.table in stage && id in stage[fk.table]
      ensures RefOk(stage, fk, stage[fk.table][id])
    {
      StageRefOk(db, cid, k, fk, id);
    }
  }

  lemma FinalKeysNeedIsolation(db: Db, cid: Id)
    requires KeysValid(Survivors(db, cid))
    ensures Isolated(db, cid)
  {
    var end := Survivors(db, cid);
    forall fk, id | fk in FOREIGN_KEYS && fk.table in db && id in db[fk.table]
      ensures IsolatedRow(db, cid, fk, id, db[fk.table][id])
    {
      if !Doomed(db, fk.table, cid, id, db[fk.table][id]) {
        assert id in end[fk.table];
        assert RefOk(end, fk, end[fk.table][id]);
      }
    }
  }

  /** After k statements every foreign key is valid. */
  ghost predicate ValidAfter(db: Db, cid: Id, k: nat)
    requires k <= |UPGRADE|
  {
    ExecuteAll(db, UPGRADE[..k], cid).Some? && KeysValid(ExecuteAll(db, UPGRADE[..k], cid).value)
  }

  /**
   Starting from valid foreign keys, they stay valid after each of the fourteen statements if and only if
   no row that stays refers to a row that goes.
   */
  lemma KeysValidThroughoutIff(db: Db, cid: Id)
    requires Runnable(db) && KeysValid(db)
    ensures (forall k: nat | k <= |UPGRADE| :: ValidAfter(db, cid, k)) <==> Isolated(db, cid)
  {
    if Isolated(db, cid) {
      forall k: nat | k <= |UPGRADE| ensures ValidAfter(db, cid, k) {
        PrefixReachesStage(db, cid, k);
        StageKeysValid(db, cid, k);
      }
    } else if forall k: nat | k <= |UPGRADE| :: ValidAfter(db, cid, k) {
      assert ValidAfter(db, cid, |UPGRADE|);
      assert UPGRADE[..|UPGRADE|] == UPGRADE;
      UpgradeDeletesTheDoomed(db, cid);
      FinalKeysNeedIsolation(db, cid);
    }
  }

  /**
   Whatever the tenants, a row that stays and knows the call it comes from still finds that call: the
   clauses on the source call make up for the missing constraint.
   */
  lemma SourceCallsStay(db: Db, cid: Id, link: ForeignKey, id: Id)
    requires Runnable(db) && link in SOURCE_CALLS
    requires var end := Survivors(db, cid); link.table in end && id in end[link.table]
    ensures RefOk(db, link, db[link.table][id]) ==> RefOk(Survivors(db, cid), link, Survivors(db, cid)[link.table][id])
  {
    var row := db[link.table][id];
    if RefOk(db, link, row) && link.column in row.refs && Doomed(db, CallSessions, cid, row.refs[SourceCallId], db[CallSessions][row.refs[SourceCallId]]) {
      HoldsOr(db, RefersTo(LeadId, Leads), RefersTo(SourceCallId, CallSessions), cid, id, row);
      assert false;
    }
  }

  // ---------- Tenants that keep to themselves ----------

  /** Columns that may not be NULL. */
  const REQUIRED: set<(Table, Column)> := {
    (TranscriptTurns, SessionId), (CallAnalyses, ClientId), (LeadProfileFacts, LeadId), (LeadInterestHistory, LeadId),
    (LeadCustomFields, ClientId), (ScheduledCalls, ClientId), (CallSessions, ClientId), (Leads, ClientId),
    (AgentConfigRevisions, AgentId), (Agents, ClientId), (ClientConfigRevisions, ClientId)
  }

  predicate RequiredPresent(db: Db) {
    forall t, c, id | (t, c) in REQUIRED && t in db && id in db[t] :: c in db[t][id].refs
  }

  /** Every row has an owning tenant, and linked rows have the same one. */
  ghost predicate OwnedBy(db: Db, owner: map<(Table, Id), Id>) {
    && (forall t, id | t in db && id in db[t] :: (t, id) in owner)
    && (forall id | Clients in db && id in db[Clients] :: owner[(Clients, id)] == id)
    && (forall fk, id | fk in FOREIGN_KEYS + SOURCE_CALLS && fk.table in db && id in db[fk.table] :: SameOwner(db, owner, fk, id))
  }

  ghost predicate SameOwner(db: Db, owner: map<(Table, Id), Id>, fk: ForeignKey, id: Id)
    requires fk.table in db && id in db[fk.table]
  {
    var row := db[fk.table][id];
    (fk.table, id) in owner &&
    (fk.column in row.refs && fk.target in db && row.refs[fk.column] in db[fk.target] ==>
       (fk.target, row.refs[fk.column]) in owner && owner[(fk.target, row.refs[fk.column])] == owner[(fk.table, id)])
  }

  lemma TenantColumnIsOwner(db: Db, owner: map<(Table, Id), Id>, t: Table, id: Id)
    requires KeysValid(db) && OwnedBy(db, owner)
    requires t in db && id in db[t] && ForeignKey(t, ClientId, Clients) in FOREIGN_KEYS && ClientId in db[t][id].refs
    ensures owner[(t, id)] == db[t][id].refs[ClientId]
  {
    var fk := ForeignKey(t, ClientId, Clients);
    assert RefOk(db, fk, db[t][id]) && SameOwner(db, owner, fk, id);
  }

  lemma ReferenceOwner(db: Db, owner: map<(Table, Id), Id>, fk: ForeignKey, id: Id)
    requires KeysValid(db) && OwnedBy(db, owner) && fk in FOREIGN_KEYS
    requires fk.table in db && id in db[fk.table] && fk.column in db[fk.table][id].refs
    ensures fk.target in db && db[fk.table][id].refs[fk.column] in db[fk.target]
    ensures owner[(fk.target, db[fk.table][id].refs[fk.column])] == owner[(fk.table, id)]
  {
    assert RefOk(db, fk, db[fk.table][id]) && SameOwner(db, owner, fk, id);
  }

  /** With owners, the doomed rows are exactly the rows owned by the tenant. */
  lemma DoomedIffOwned(db: Db, owner: map<(Table, Id), Id>, cid: Id, t: Table, id: Id)
    requires KeysValid(db) && RequiredPresent(db) && OwnedBy(db, owner) && t in db && id in db[t]
    ensures Doomed(db, t, cid, id, db[t][id]) <==> owner[(t, id)] == cid
  {
    match t {
      case Clients =>
      case TranscriptTurns => ChildDoomedIffOwned(db, owner, cid, ForeignKey(t, SessionId, CallSessions), id);
      case AgentConfigRevisions => ChildDoomedIffOwned(db, owner, cid, ForeignKey(t, AgentId, Agents), id);
      case CallAnalyses => AnalysisDoomedIffOwned(db, owner, cid, id);
      case LeadProfileFacts => DerivedDoomedIffOwned(db, owner, cid, t, id);
      case LeadInterestHistory => DerivedDoomedIffOwned(db, owner, cid, t, id);
      case _ => DirectlyOwned(db, owner, cid, t, id);
    }
  }

  /** Tables whose rows are deleted by their own tenant column. */
  predicate Direct(t: Table) {
    t in {LeadCustomFields, ScheduledCalls, CallSessions, Leads, Agents, ClientConfigRevisions}
  }

  lemma DirectTables(t: Table)
    requires Direct(t) || t == CallAnalyses
    ensures (t, ClientId) in REQUIRED && ForeignKey(t, ClientId, Clients) in FOREIGN_KEYS
    ensures Direct(t) ==> UPGRADE[DeleteAt(t)].where == IsTenant
  {}

  lemma DirectlyOwned(db: Db, owner: map<(Table, Id), Id>, cid: Id, t: Table, id: Id)
    requires KeysValid(db) && RequiredPresent(db) && OwnedBy(db, owner) && t in db && id in db[t]
    requires Direct(t) || t == CallAnalyses
    ensures Holds(db, IsTenant, cid, id, db[t][id]) <==> owner[(t, id)] == cid
    ensures Direct(t) ==> (Doomed(db, t, cid, id, db[t][id]) <==> owner[(t, id)] == cid)
  {
    DirectTables(t);
    TenantColumnIsOwner(db, owner, t, id);
  }

  lemma ChildDoomedIffOwned(db: Db, owner: map<(Table, Id), Id>, cid: Id, fk: ForeignKey, id: Id)
    requires KeysValid(db) && RequiredPresent(db) && OwnedBy(db, owner) && fk.table in db && id in db[fk.table]
    requires fk == ForeignKey(TranscriptTurns, SessionId, CallSessions) || fk == ForeignKey(AgentConfigRevisions, AgentId, Agents)
    ensures Doomed(db, fk.table, cid, id, db[fk.table][id]) <==> owner[(fk.table, id)] == cid
  {
    assert (fk.table, fk.column) in REQUIRED;
    ParentOwner(db, owner, cid, fk, id);
  }

  lemma HoldsOr(db: Db, left: Condition, right: Condition, cid: Id, id: Id, row: Row)
    ensures Holds(db, Or(left, right), cid, id, row) <==> Holds(db, left, cid, id, row) || Holds(db, right, cid, id, row)
  {}

  lemma AnalysisDoomedIffOwned(db: Db, owner: map<(Table, Id), Id>, cid: Id, id: Id)
    requires KeysValid(db) && RequiredPresent(db) && OwnedBy(db, owner) && CallAnalyses in db && id in db[CallAnalyses]
    ensures Doomed(db, CallAnalyses, cid, id, db[CallAnalyses][id]) <==> owner[(CallAnalyses, id)] == cid
  {
    var row := db[CallAnalyses][id];
    assert UPGRADE[DeleteAt(CallAnalyses)].where == Or(IsTenant, RefersTo(SessionId, CallSessions));
    HoldsOr(db, IsTenant, RefersTo(SessionId, CallSessions), cid, id, row);
    DirectlyOwned(db, owner, cid, CallAnalyses, id);
    if SessionId in row.refs {
      ParentOwner(db, owner, cid, ForeignKey(CallAnalyses, SessionId, CallSessions), id);
    }
  }

  lemma ParentOwner(db: Db, owner: map<(Table, Id), Id>, cid: Id, fk: ForeignKey, id: Id)
    requires KeysValid(db) && RequiredPresent(db) && OwnedBy(db, owner) && fk in FOREIGN_KEYS
    requires fk.table in db && id in db[fk.table] && fk.column in db[fk.table][id].refs
    requires fk.target in {CallSessions, Leads, Agents}
    ensures Holds(db, RefersTo(fk.column, fk.target), cid, id, db[fk.table][id]) <==> owner[(fk.table, id)] == cid
  {
    ReferenceOwner(db, owner, fk, id);
    assert (fk.target, ClientId) in REQUIRED;
    TenantColumnIsOwner(db, owner, fk.target, db[fk.table][id].refs[fk.column]);
  }

  /** A row whose source call is one of the tenant's belongs to the tenant; a source call that is gone says nothing. */
  lemma SourceOwner(db: Db, owner: map<(Table, Id), Id>, cid: Id, t: Table, id: Id)
    requires KeysValid(db) && RequiredPresent(db) && OwnedBy(db, owner) && t in db && id in db[t]
    requires t in {LeadProfileFacts, LeadInterestHistory}
    ensures Holds(db, RefersTo(SourceCallId, CallSessions), cid, id, db[t][id]) ==> owner[(t, id)] == cid
  {
    var row := db[t][id];
    if Holds(db, RefersTo(SourceCallId, CallSessions), cid, id, row) {
      assert SameOwner(db, owner, ForeignKey(t, SourceCallId, CallSessions), id);
      TenantColumnIsOwner(db, owner, CallSessions, row.refs[SourceCallId]);
    }
  }

  lemma DerivedDoomedIffOwned(db: Db, owner: map<(Table, Id), Id>, cid: Id, t: Table, id: Id)
    requires KeysValid(db) && RequiredPresent(db) && OwnedBy(db, owner) && t in db && id in db[t]
    requires t in {LeadProfileFacts, LeadInterestHistory}
    ensures Doomed(db, t, cid, id, db[t][id]) <==> owner[(t, id)] == cid
  {
    var row := db[t][id];
    HoldsOr(db, RefersTo(LeadId, Leads), RefersTo(SourceCallId, CallSessions), cid, id, row);
    assert (t, LeadId) in REQUIRED;
    ParentOwner(db, owner, cid, ForeignKey(t, LeadId, Leads), id);
    SourceOwner(db, owner, cid, t, id);
  }

  lemma OwnersIsolate(db: Db, owner: map<(Table, Id), Id>, cid: Id)
    requires KeysValid(db) && RequiredPresent(db) && OwnedBy(db, owner)
    ensures Isolated(db, cid)
  {
    forall fk, id | fk in FOREIGN_KEYS && fk.table in db && id in db[fk.table]
      ensures IsolatedRow(db, cid, fk, id, db[fk.table][id])
    {
      var row := db[fk.table][id];
      DoomedIffOwned(db, owner, cid, fk.table, id);
      if fk.column in row.refs {
        ReferenceOwner(db, owner, fk, id);
        DoomedIffOwned(db, owner, cid, fk.target, row.refs[fk.column]);
      }
    }
  }

  /** The rows of every other tenant, as they were. */
  function OthersOnly(db: Db, owner: map<(Table, Id), Id>, cid: Id): Db
    requires forall t, id | t in db && id in db[t] :: (t, id) in owner
  {
    map t | t in db :: map id | id in db[t] && owner[(t, id)] != cid :: db[t][id]
  }

  /**
   When linked rows belong to one tenant, the migration keeps every foreign key after each statement,
   removes exactly the rows of the tenant, and leaves every other tenant's rows as they were.
   */
  lemma TenantIsRemovedExactly(db: Db, owner: map<(Table, Id), Id>, cid: Id)
    requires Runnable(db) && KeysValid(db) && RequiredPresent(db) && OwnedBy(db, owner)
    ensures forall k: nat | k <= |UPGRADE| :: ValidAfter(db, cid, k)
    ensures ExecuteAll(db, UPGRADE, cid) == Some(OthersOnly(db, owner, cid))
  {
    OwnersIsolate(db, owner, cid);
    KeysValidThroughoutIff(db, cid);
    UpgradeDeletesTheDoomed(db, cid);
    forall t | t in db ensures Survivors(db, cid)[t] == OthersOnly(db, owner, cid)[t] {
      forall id | id in db[t] ensures Doomed(db, t, cid, id, db[t][id]) <==> owner[(t, id)] == cid {
        DoomedIffOwned(db, owner, cid, t, id);
      }
    }
    assert Survivors(db, cid) == OthersOnly(db, owner, cid);
  }
}
