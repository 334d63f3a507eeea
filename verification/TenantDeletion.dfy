/**
 Revision 20261003_0020: fourteen statements that remove one tenant, over tables with foreign keys.
 */
module TenantDeletion {
  import opened Prelude

  type Id = string

  datatype Table =
    | TranscriptTurns | CallAnalyses | LeadProfileFacts | LeadInterestHistory | LeadCustomFields
    | ScheduledCalls | CallSessions | Leads | Agents | AgentConfigRevisions | Clients | ClientConfigRevisions

  datatype Column =
    | ClientId | SessionId | LeadId | SourceCallId | AgentId
    | ActiveRevisionId | AgentConfigRevisionId | ClientConfigRevisionId | ActiveConfigRevisionId

  /** A row's references (absent means NULL) and everything else it holds. */
  datatype Row = Row(refs: map<Column, Id>, data: string)

  type Rows = map<Id, Row>

  type Db = map<Table, Rows>

  datatype ForeignKey = ForeignKey(table: Table, column: Column, target: Table)

  const FOREIGN_KEYS: set<ForeignKey> := {
    ForeignKey(Agents, ClientId, Clients),
    ForeignKey(Leads, ClientId, Clients),
    ForeignKey(CallSessions, ClientId, Clients),
    ForeignKey(CallSessions, LeadId, Leads),
    ForeignKey(CallSessions, AgentId, Agents),
    ForeignKey(TranscriptTurns, SessionId, CallSessions),
    ForeignKey(CallAnalyses, SessionId, CallSessions),
    ForeignKey(CallAnalyses, LeadId, Leads),
    ForeignKey(CallAnalyses, ClientId, Clients),
    ForeignKey(LeadProfileFacts, LeadId, Leads),
    ForeignKey(LeadInterestHistory, LeadId, Leads),
    ForeignKey(LeadCustomFields, LeadId, Leads),
    ForeignKey(LeadCustomFields, ClientId, Clients),
    ForeignKey(ScheduledCalls, ClientId, Clients),
    ForeignKey(ScheduledCalls, LeadId, Leads),
    ForeignKey(ScheduledCalls, AgentId, Agents),
    ForeignKey(AgentConfigRevisions, AgentId, Agents),
    ForeignKey(Agents, ActiveRevisionId, AgentConfigRevisions),
    ForeignKey(CallSessions, AgentConfigRevisionId, AgentConfigRevisions),
    ForeignKey(ClientConfigRevisions, ClientId, Clients),
    ForeignKey(Clients, ActiveConfigRevisionId, ClientConfigRevisions),
    ForeignKey(CallSessions, ClientConfigRevisionId, ClientConfigRevisions)
  }

  /** Columns without a constraint that hold the id of the call a row comes from; the call may be gone. */
  const SOURCE_CALLS: set<ForeignKey> := {
    ForeignKey(LeadProfileFacts, SourceCallId, CallSessions),
    ForeignKey(LeadInterestHistory, SourceCallId, CallSessions)
  }

  predicate RefOk(db: Db, fk: ForeignKey, row: Row) {
    fk.column in row.refs ==> fk.target in db && row.refs[fk.column] in db[fk.target]
  }

  predicate KeysValid(db: Db) {
    forall fk, id | fk in FOREIGN_KEYS && fk.table in db && id in db[fk.table] :: RefOk(db, fk, db[fk.table][id])
  }

  // ---------- Statements ----------

  /** WHERE clauses; every one of them is about the same tenant. */
  datatype Condition =
    | IdIsTenant
    | IsTenant                                // client_id = :cid
    | RefersTo(column: Column, parent: Table) // column IN (SELECT id FROM parent WHERE client_id = :cid)
    | Or(left: Condition, right: Condition)

  datatype Statement =
    | Delete(table: Table, where: Condition)
    | SetNull(table: Table, column: Column, where: Condition)

  const OF_LEAD_OR_CALL := Or(RefersTo(LeadId, Leads), RefersTo(SourceCallId, CallSessions))

  const UPGRADE: seq<Statement> := [
    Delete(TranscriptTurns, RefersTo(SessionId, CallSessions)),
    Delete(CallAnalyses, Or(IsTenant, RefersTo(SessionId, CallSessions))),
    Delete(LeadProfileFacts, OF_LEAD_OR_CALL),
    Delete(LeadInterestHistory, OF_LEAD_OR_CALL),
    Delete(LeadCustomFields, IsTenant),
    Delete(ScheduledCalls, IsTenant),
    Delete(CallSessions, IsTenant),
    Delete(Leads, IsTenant),
    SetNull(Agents, ActiveRevisionId, IsTenant),
    Delete(AgentConfigRevisions, RefersTo(AgentId, Agents)),
    Delete(Agents, IsTenant),
    SetNull(Clients, ActiveConfigRevisionId, IdIsTenant),
    Delete(ClientConfigRevisions, IsTenant),
    Delete(Clients, IdIsTenant)
  ]

  predicate OfTenant(row: Row, cid: Id) {
    ClientId in row.refs && row.refs[ClientId] == cid
  }

  predicate Holds(db: Db, where: Condition, cid: Id, id: Id, row: Row) {
    match where
    case IdIsTenant => id == cid
    case IsTenant => OfTenant(row, cid)
    case RefersTo(column, parent) =>
      column in row.refs && parent in db && row.refs[column] in db[parent] && OfTenant(db[parent][row.refs[column]], cid)
    case Or(left, right) => Holds(db, left, cid, id, row) || Holds(db, right, cid, id, row)
  }

  /** Tables a clause selects from; a statement naming an absent one is an SQL error. */
  function Parents(where: Condition): set<Table> {
    match where
    case IdIsTenant => {}
    case IsTenant => {}
    case RefersTo(_, parent) => {parent}
    case Or(left, right) => Parents(left) + Parents(right)
  }

  function Nulled(row: Row, column: Column): Row {
    row.(refs := row.refs - {column})
  }

  /** One statement: skipped when its table is absent, None when a table it selects from is absent. */
  function Execute(db: Db, s: Statement, cid: Id): Option<Db> {
    if s.table !in db then Some(db)
    else if !(Parents(s.where) <= db.Keys) then None
    else
      var rows := db[s.table];
      Some(db[s.table :=
        match s
        case Delete(_, where) => map id | id in rows && !Holds(db, where, cid, id, rows[id]) :: rows[id]
        case SetNull(_, column, where) =>
          map id | id in rows :: if Holds(db, where, cid, id, rows[id]) then Nulled(rows[id], column) else rows[id]])
  }

  function ExecuteAll(db: Db, statements: seq<Statement>, cid: Id): Option<Db> {
    if statements == [] then Some(db)
    else
      var before := ExecuteAll(db, statements[..|statements| - 1], cid);
      if before.None? then None else Execute(before.value, statements[|statements| - 1], cid)
  }

  /** `after` is `before` without its reference in `column` if `hit`, and the same row otherwise. */
  ghost predicate LosesIf(before: Row, after: Row, column: Column, hit: bool) {
    && after.data == before.data
    && (forall c :: c in after.refs <==> c in before.refs && !(hit && c == column))
    && forall c | c in after.refs :: after.refs[c] == before.refs[c]
  }

  lemma LosesIfNulled(before: Row, after: Row, column: Column, hit: bool)
    ensures LosesIf(before, after, column, hit) <==> after == if hit then Nulled(before, column) else before
  {
    if LosesIf(before, after, column, hit) {
      assert after.refs == if hit then before.refs - {column} else before.refs;
    }
  }

  function NulledIf(row: Row, column: Column, hit: bool): (after: Row)
    ensures LosesIf(row, after, column, hit)
  {
    LosesIfNulled(row, if hit then Nulled(row, column) else row, column, hit);
    if hit then Nulled(row, column) else row
  }

  /** The rows `after` are the table's rows, and exactly those that meet the clause lose the column. */
  ghost predicate HitsLose(before: Db, after: Rows, table: Table, column: Column, where: Condition, cid: Id) {
    && table in before && after.Keys == before[table].Keys
    && forall id | id in after ::
         LosesIf(before[table][id], after[id], column, Holds(before, where, cid, id, before[table][id]))
  }

  function NulledRows(db: Db, table: Table, column: Column, where: Condition, cid: Id): (after: Rows)
    requires table in db
    ensures HitsLose(db, after, table, column, where, cid)
  {
    map id | id in db[table] :: NulledIf(db[table][id], column, Holds(db, where, cid, id, db[table][id]))
  }

  /** The migration on a database that it updates in place. */
  class Database {
    var tables: Db

    constructor (tables: Db)
      ensures this.tables == tables
    {
      this.tables := tables;
    }

    /** Exactly the rows of the table that meet the clause go; an absent table is skipped, an absent parent an error. */
    method DeleteFrom(table: Table, where: Condition, cid: Id) returns (ok: bool)
      modifies this
      ensures !ok <==> table in old(tables) && !(Parents(where) <= old(tables).Keys)
      ensures tables.Keys == old(tables).Keys
      ensures forall t | t in tables && (t != table || !ok) :: tables[t] == old(tables)[t]
      ensures ok && table in tables ==> forall id ::
                id in tables[table] <==> id in old(tables)[table] && !Holds(old(tables), where, cid, id, old(tables)[table][id])
      ensures ok && table in tables ==> forall id | id in tables[table] :: tables[table][id] == old(tables)[table][id]
    {
      ok := table !in tables || Parents(where) <= tables.Keys;
      if ok && table in tables {
        var rows := tables[table];
        tables := tables[table := map id | id in rows && !Holds(tables, where, cid, id, rows[id]) :: rows[id]];
      }
    }

    /** Exactly the rows that meet the clause lose the column and nothing else; no row comes or goes. */
    method SetToNull(table: Table, column: Column, where: Condition, cid: Id) returns (ok: bool)
      modifies this
      ensures !ok <==> table in old(tables) && !(Parents(where) <= old(tables).Keys)
      ensures tables.Keys == old(tables).Keys
      ensures forall t | t in tables && (t != table || !ok) :: tables[t] == old(tables)[t]
      ensures ok && table in tables ==> HitsLose(old(tables), tables[table], table, column, where, cid)
    {
      ok := table !in tables || Parents(where) <= tables.Keys;
      if ok && table in tables {
        tables := tables[table := NulledRows(tables, table, column, where, cid)];
      }
    }

    method Run(s: Statement, cid: Id) returns (ok: bool)
      modifies this
      ensures ok == Execute(old(tables), s, cid).Some?
      ensures tables == if ok then Execute(old(tables), s, cid).value else old(tables)
    {
      ghost var before := tables;
      match s {
        case Delete(table, where) =>
          ok := DeleteFrom(table, where, cid);
          if ok && table in before {
            assert tables[table] == Execute(before, s, cid).value[table];
          }
        case SetNull(table, column, where) =>
          ok := SetToNull(table, column, where, cid);
          if ok && table in before {
            forall id | id in before[table] ensures tables[table][id] == Execute(before, s, cid).value[table][id] {
              LosesIfNulled(before[table][id], tables[table][id], column, Holds(before, where, cid, id, before[table][id]));
            }
            assert tables[table] == Execute(before, s, cid).value[table];
          }
      }
      assert ok ==> tables == Execute(before, s, cid).value;
    }

    /** Runs the statements in order; an SQL error stops it. */
    method Upgrade(cid: Id) returns (ok: bool)
      modifies this
      ensures ok == ExecuteAll(old(tables), UPGRADE, cid).Some?
      ensures ok ==> tables == ExecuteAll(old(tables), UPGRADE, cid).value
    {
      ghost var before := tables;
      for k := 0 to |UPGRADE|
        invariant ExecuteAll(before, UPGRADE[..k], cid) == Some(tables)
      {
        assert UPGRADE[..k + 1][..k] == UPGRADE[..k];
        ok := Run(UPGRADE[k], cid);
        if !ok {
          StopsAt(before, k, cid);
          return;
        }
      }
      assert UPGRADE[..|UPGRADE|] == UPGRADE;
      ok := true;
    }
  }

  lemma {:induction false} StopsAt(db: Db, k: nat, cid: Id)
    requires k < |UPGRADE| && ExecuteAll(db, UPGRADE[..k + 1], cid).None?
    ensures ExecuteAll(db, UPGRADE, cid).None?
    decreases |UPGRADE| - k
  {
    if k + 1 < |UPGRADE| {
      assert UPGRADE[..k + 2][..k + 1] == UPGRADE[..k + 1];
      StopsAt(db, k + 1, cid);
    } else {
      assert UPGRADE[..k + 1] == UPGRADE;
    }
  }

  // ---------- The state after k statements, said at once ----------

  /** Position of the statement that deletes from a table, and its clause. */
  function DeleteAt(t: Table): (k: nat)
    ensures k < |UPGRADE| && UPGRADE[k].Delete? && UPGRADE[k].table == t
  {
    match t
    case TranscriptTurns => 0
    case CallAnalyses => 1
    case LeadProfileFacts => 2
    case LeadInterestHistory => 3
    case LeadCustomFields => 4
    case ScheduledCalls => 5
    case CallSessions => 6
    case Leads => 7
    case AgentConfigRevisions => 9
    case Agents => 10
    case ClientConfigRevisions => 12
    case Clients => 13
  }

  /** The referring column that is nulled in a table, and when. */
  function NullAt(t: Table): (k: Option<nat>)
    ensures k.Some? ==> k.value < |UPGRADE| && UPGRADE[k.value].SetNull? && UPGRADE[k.value].table == t
  {
    match t
    case Agents => Some(8)
    case Clients => Some(11)
    case _ => None
  }

  /** A row that the migration removes, judged on the database as it was before the first statement. */
  predicate Doomed(db: Db, t: Table, cid: Id, id: Id, row: Row) {
    Holds(db, UPGRADE[DeleteAt(t)].where, cid, id, row)
  }

  function StageRow(db: Db, t: Table, cid: Id, k: nat, id: Id, row: Row): Row {
    if NullAt(t).Some? && NullAt(t).value < k && Doomed(db, t, cid, id, row)
    then Nulled(row, UPGRADE[NullAt(t).value].column) else row
  }

  predicate Stays(db: Db, t: Table, cid: Id, k: nat, id: Id, row: Row) {
    DeleteAt(t) < k ==> !Doomed(db, t, cid, id, row)
  }

  function StageRows(db: Db, t: Table, cid: Id, k: nat): Rows
    requires t in db
  {
    map id | id in db[t] && Stays(db, t, cid, k, id, db[t][id]) :: StageRow(db, t, cid, k, id, db[t][id])
  }

  function Stage(db: Db, cid: Id, k: nat): Db {
    map t | t in db :: StageRows(db, t, cid, k)
  }

  /** Every table a clause needs is there. */
  predicate Runnable(db: Db) {
    && (TranscriptTurns in db || CallAnalyses in db || LeadProfileFacts in db || LeadInterestHistory in db ==> CallSessions in db)
    && (LeadProfileFacts in db || LeadInterestHistory in db ==> Leads in db)
    && (AgentConfigRevisions in db ==> Agents in db)
  }
}
