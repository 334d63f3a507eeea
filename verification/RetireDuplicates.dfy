/**
 Revision 20260727_0011: of the calls in progress for one lead keep the newest and retire the others, so
 that a unique index on calls in progress can be created.
 */
module RetireDuplicates {
  import opened Prelude

  type Id = string

  datatype Call = Call(leadId: Id, status: string, scheduledAt: int, createdAt: int, notes: Option<string>)

  type Calls = map<Id, Call>

  const NOTE := "auto-resolved by migration 20260727_0011: duplicate in_progress row"

  predicate InProgress(call: Call) {
    call.status == "in_progress"
  }

  /** Order of text ids, character by character. */
  predicate Before(a: string, b: string) {
    if b == [] then false
    else if a == [] then true
    else a[0] < b[0] || (a[0] == b[0] && Before(a[1..], b[1..]))
  }

  /** Whether one call comes first when sorted by scheduled_at, created_at and id, all descending. */
  predicate Newer(calls: Calls, a: Id, b: Id)
    requires a in calls && b in calls
  {
    || calls[b].scheduledAt < calls[a].scheduledAt
    || (calls[b].scheduledAt == calls[a].scheduledAt &&
          (|| calls[b].createdAt < calls[a].createdAt
           || (calls[b].createdAt == calls[a].createdAt && Before(b, a))))
  }

  /** Calls in progress for the same lead that are newer. */
  function Ahead(calls: Calls, id: Id): set<Id>
    requires id in calls
  {
    set o | o in calls && InProgress(calls[o]) && calls[o].leadId == calls[id].leadId && Newer(calls, o, id)
  }

  /** ROW_NUMBER() over the calls in progress, partitioned by lead. */
  function RowNumber(calls: Calls, id: Id): nat
    requires id in calls
  {
    |Ahead(calls, id)| + 1
  }

  predicate Ranked(calls: Calls, id: Id) {
    id in calls && InProgress(calls[id]) && RowNumber(calls, id) > 1
  }

  function Retired(call: Call): Call {
    call.(status := "failed", notes := Some((if call.notes.Some? then call.notes.value + " | " else "") + NOTE))
  }

  function AllRetired(calls: Calls): Calls {
    map id | id in calls :: if Ranked(calls, id) then Retired(calls[id]) else calls[id]
  }

  /** The unique index on lead_id where status = 'in_progress' can be built. */
  predicate Indexable(calls: Calls) {
    forall a, b | a in calls && b in calls && InProgress(calls[a]) && InProgress(calls[b]) && calls[a].leadId == calls[b].leadId
      :: a == b
  }

  // ---------- The order is strict and total ----------

  lemma {:induction false} BeforeTotal(a: string, b: string)
    ensures (Before(a, b) || Before(b, a)) <==> a != b
    ensures !(Before(a, b) && Before(b, a))
  {
    if a != [] && b != [] {
      BeforeTotal(a[1..], b[1..]);
      assert a == [a[0]] + a[1..] && b == [b[0]] + b[1..];
    }
  }

  lemma {:induction false} BeforeTransitive(a: string, b: string, c: string)
    requires Before(a, b) && Before(b, c)
    ensures Before(a, c)
  {
    if a != [] && a[0] == b[0] == c[0] {
      BeforeTransitive(a[1..], b[1..], c[1..]);
    }
  }

  lemma NewerTotal(calls: Calls, a: Id, b: Id)
    requires a in calls && b in calls
    ensures (Newer(calls, a, b) || Newer(calls, b, a)) <==> a != b
    ensures !(Newer(calls, a, b) && Newer(calls, b, a))
  {
    BeforeTotal(a, b);
  }

  lemma NewerTransitive(calls: Calls, a: Id, b: Id, c: Id)
    requires a in calls && b in calls && c in calls && Newer(calls, a, b) && Newer(calls, b, c)
    ensures Newer(calls, a, c)
  {
    if Before(b, a) && Before(c, b) {
      BeforeTransitive(c, b, a);
    }
  }

  // ---------- What is kept ----------

  function Active(calls: Calls, lead: Id): set<Id> {
    set id | id in calls && InProgress(calls[id]) && calls[id].leadId == lead
  }

  predicate Newest(calls: Calls, ids: set<Id>, id: Id)
    requires ids <= calls.Keys
  {
    id in ids && forall o | o in ids && o != id :: Newer(calls, id, o)
  }

  lemma {:induction false} NewestExists(calls: Calls, ids: set<Id>) returns (newest: Id)
    requires ids <= calls.Keys && ids != {}
    ensures Newest(calls, ids, newest)
    decreases |ids|
  {
    var id :| id in ids;
    if ids == {id} {
      newest := id;
    } else {
      var rest := NewestExists(calls, ids - {id});
      NewerTotal(calls, id, rest);
      if Newer(calls, id, rest) {
        newest := id;
        forall o | o in ids && o != id ensures Newer(calls, id, o) {
          if o != rest { NewerTransitive(calls, id, rest, o); }
        }
      } else {
        newest := rest;
      }
    }
  }

  /** A call in progress is ranked first exactly when it is the newest of its lead. */
  lemma FirstIffNewest(calls: Calls, lead: Id, id: Id)
    requires id in Active(calls, lead)
    ensures RowNumber(calls, id) == 1 <==> Newest(calls, Active(calls, lead), id)
  {
    if Newest(calls, Active(calls, lead), id) {
      forall o | o in Active(calls, lead) && o != id ensures o !in Ahead(calls, id) {
        NewerTotal(calls, o, id);
      }
      NewerTotal(calls, id, id);
      assert Ahead(calls, id) == {};
    } else {
      var o :| o in Active(calls, lead) && o != id && !Newer(calls, id, o);
      NewerTotal(calls, id, o);
      assert o in Ahead(calls, id);
    }
  }

  /** After the update a lead that had calls in progress has exactly one: the newest it had. */
  lemma OneNewestIsKept(calls: Calls, lead: Id) returns (kept: Id)
    requires Active(calls, lead) != {}
    ensures Newest(calls, Active(calls, lead), kept)
    ensures Active(AllRetired(calls), lead) == {kept}
    ensures AllRetired(calls)[kept] == calls[kept]
  {
    kept := NewestExists(calls, Active(calls, lead));
    forall id | id in Active(calls, lead) ensures id in Active(AllRetired(calls), lead) <==> id == kept {
      FirstIffNewest(calls, lead, id);
      NewerTotal(calls, id, kept);
    }
  }

  /** Only duplicate calls in progress change, and each of those keeps all but its status and notes. */
  lemma OthersUnchanged(calls: Calls, id: Id)
    requires id in calls
    ensures id in AllRetired(calls)
    ensures AllRetired(calls)[id] != calls[id] <==>
            InProgress(calls[id]) && !Newest(calls, Active(calls, calls[id].leadId), id)
    ensures AllRetired(calls)[id] == calls[id].(status := AllRetired(calls)[id].status, notes := AllRetired(calls)[id].notes)
  {
    if InProgress(calls[id]) {
      FirstIffNewest(calls, calls[id].leadId, id);
    }
  }

  /** The order of ids, said by the first position at which they differ. */
  lemma {:induction false} BeforeMeans(a: string, b: string)
    ensures Before(a, b) <==> exists k :: 0 <= k <= |a| && k < |b| && a[..k] == b[..k] && (k == |a| || a[k] < b[k])
  {
    if a != [] && b != [] && a[0] == b[0] {
      BeforeMeans(a[1..], b[1..]);
      if k :| 0 <= k <= |a| - 1 && k < |b| - 1 && a[1..][..k] == b[1..][..k] && (k == |a| - 1 || a[1..][k] < b[1..][k]) {
        assert a[..k + 1] == [a[0]] + a[1..][..k] && b[..k + 1] == [b[0]] + b[1..][..k];
      }
      if k :| 0 <= k <= |a| && k < |b| && a[..k] == b[..k] && (k == |a| || a[k] < b[k]) {
        assert k > 0;
        assert a[1..][..k - 1] == a[..k][1..] && b[1..][..k - 1] == b[..k][1..];
      }
    } else if b != [] {
      assert a[..0] == b[..0];
      if k :| 0 <= k <= |a| && k < |b| && a[..k] == b[..k] && (k == |a| || a[k] < b[k]) {
        assert k > 0 ==> a[..k][0] == b[..k][0];
      }
    }
  }

  /**
   The call that stays in progress for a lead was scheduled after every other one; of those scheduled at the
   same time it was created last, and of those created at the same time its id is the greatest.
   */
  lemma KeptIsLatest(calls: Calls, kept: Id, o: Id)
    requires kept in AllRetired(calls) && AllRetired(calls)[kept].status == "in_progress"
    requires o in calls && o != kept && calls[o].status == "in_progress" && calls[o].leadId == AllRetired(calls)[kept].leadId
    ensures kept in calls && AllRetired(calls)[kept] == calls[kept]
    ensures || calls[o].scheduledAt < calls[kept].scheduledAt
            || (calls[o].scheduledAt == calls[kept].scheduledAt && calls[o].createdAt < calls[kept].createdAt)
            || (calls[o].scheduledAt == calls[kept].scheduledAt && calls[o].createdAt == calls[kept].createdAt
                && exists k :: 0 <= k <= |o| && k < |kept| && o[..k] == kept[..k] && (k == |o| || o[k] < kept[k]))
  {
    var lead := calls[o].leadId;
    assert kept in Active(AllRetired(calls), lead) && o in Active(calls, lead);
    var newest := OneNewestIsKept(calls, lead);
    assert kept == newest;
    BeforeMeans(o, kept);
  }

  /** A retired call has failed, and its notes are what they were with the reason at the end. */
  lemma RetiredRecord(calls: Calls, id: Id)
    requires id in calls && id in AllRetired(calls) && AllRetired(calls)[id] != calls[id]
    ensures calls[id].status == "in_progress" && AllRetired(calls)[id].status == "failed"
    ensures AllRetired(calls)[id].notes ==
            if calls[id].notes == None then Some("auto-resolved by migration 20260727_0011: duplicate in_progress row")
            else Some(calls[id].notes.value + (" | " + "auto-resolved by migration 20260727_0011: duplicate in_progress row"))
    ensures AllRetired(calls)[id].leadId == calls[id].leadId && AllRetired(calls)[id].scheduledAt == calls[id].scheduledAt
            && AllRetired(calls)[id].createdAt == calls[id].createdAt
  {
    assert "" + NOTE == NOTE;
    if calls[id].notes.Some? {
      assert calls[id].notes.value + " | " + NOTE == calls[id].notes.value + (" | " + NOTE);
    }
  }

  /** The index can then be built. */
  lemma IndexCanBeBuilt(calls: Calls)
    ensures Indexable(AllRetired(calls))
  {
    var after := AllRetired(calls);
    forall a, b | a in after && b in after && InProgress(after[a]) && InProgress(after[b]) && after[a].leadId == after[b].leadId
      ensures a == b
    {
      var lead := after[a].leadId;
      assert a in Active(calls, lead) && a in Active(after, lead) && b in Active(after, lead);
      var kept := OneNewestIsKept(calls, lead);
    }
  }

  /** A second run retires nothing. */
  lemma SecondRunRetiresNothing(calls: Calls)
    requires Indexable(calls)
    ensures AllRetired(calls) == calls
  {
    forall id | Ranked(calls, id) ensures false {
      var o :| o in Ahead(calls, id);
      NewerTotal(calls, id, id);
    }
  }

  // ---------- How many are retired ----------

  function RetiredIds(calls: Calls): set<Id> {
    set id | id in calls && Ranked(calls, id)
  }

  function ActiveLeads(calls: Calls): set<Id> {
    set id | id in calls && InProgress(calls[id]) :: calls[id].leadId
  }

  /** Sum over the given leads of the number of their calls in progress less one. */
  ghost function Surplus(calls: Calls, leads: set<Id>): int {
    if leads == {} then 0
    else
      var lead :| lead in leads;
      |Active(calls, lead)| - 1 + Surplus(calls, leads - {lead})
  }

  function RetiredOf(calls: Calls, leads: set<Id>): set<Id> {
    set id | id in calls && Ranked(calls, id) && calls[id].leadId in leads
  }

  lemma {:induction false} RetiredIsSurplus(calls: Calls, leads: set<Id>)
    requires leads <= ActiveLeads(calls)
    ensures |RetiredOf(calls, leads)| == Surplus(calls, leads)
    decreases |leads|
  {
    if leads == {} {
      assert RetiredOf(calls, leads) == {};
    } else {
      var lead :| lead in leads && Surplus(calls, leads) == |Active(calls, lead)| - 1 + Surplus(calls, leads - {lead});
      RetiredIsSurplus(calls, leads - {lead});
      RetiredOfOne(calls, lead);
      assert RetiredOf(calls, leads) == RetiredOf(calls, leads - {lead}) + RetiredOf(calls, {lead});
    }
  }

  lemma RetiredOfOne(calls: Calls, lead: Id)
    requires lead in ActiveLeads(calls)
    ensures |RetiredOf(calls, {lead})| == |Active(calls, lead)| - 1
  {
    var one :| one in calls && InProgress(calls[one]) && calls[one].leadId == lead;
    assert one in Active(calls, lead);
    var kept := NewestExists(calls, Active(calls, lead));
    forall id | id in Active(calls, lead) ensures Ranked(calls, id) <==> id != kept {
      FirstIffNewest(calls, lead, id);
      NewerTotal(calls, id, kept);
    }
    assert RetiredOf(calls, {lead}) == Active(calls, lead) - {kept};
  }

  /** The number of retired calls is the sum, over leads with calls in progress, of their number less one. */
  lemma RetiredCountIsSurplus(calls: Calls)
    ensures |RetiredIds(calls)| == Surplus(calls, ActiveLeads(calls))
  {
    RetiredIsSurplus(calls, ActiveLeads(calls));
    assert RetiredIds(calls) == RetiredOf(calls, ActiveLeads(calls));
  }

  // ---------- The migration on a table that it updates in place ----------

  lemma OneFewer(ahead: set<Id>, rest: set<Id>, o: Id)
    requires o in rest
    ensures |ahead - (rest - {o})| == |ahead - rest| + if o in ahead then 1 else 0
  {
    assert ahead - (rest - {o}) == (ahead - rest) + if o in ahead then {o} else {};
  }

  class ScheduledCalls {
    var calls: Calls
    var indexed: bool

    constructor (calls: Calls)
      ensures this.calls == calls && !indexed
    {
      this.calls, this.indexed := calls, false;
    }

    method SelectDuplicates() returns (ids: set<Id>)
      ensures ids == RetiredIds(calls)
    {
      ids := {};
      var rest := calls.Keys;
      while rest != {}
        invariant rest <= calls.Keys
        invariant ids == RetiredIds(calls) - rest
      {
        var id :| id in rest;
        if InProgress(calls[id]) {
          var rowNumber := CountAhead(id);
          if rowNumber > 1 {
            ids := ids + {id};
          }
        }
        rest := rest - {id};
      }
    }

    method CountAhead(id: Id) returns (rowNumber: nat)
      requires id in calls
      ensures rowNumber == RowNumber(calls, id)
    {
      rowNumber := 1;
      var rest := calls.Keys;
      while rest != {}
        invariant rest <= calls.Keys
        invariant rowNumber == |Ahead(calls, id) - rest| + 1
      {
        var o :| o in rest;
        OneFewer(Ahead(calls, id), rest, o);
        if InProgress(calls[o]) && calls[o].leadId == calls[id].leadId && Newer(calls, o, id) {
          rowNumber := rowNumber + 1;
        }
        rest := rest - {o};
      }
      assert Ahead(calls, id) - rest == Ahead(calls, id);
    }

    /** Retires the duplicates and builds the index; the result is the number of rows retired. */
    method Upgrade() returns (retired: nat)
      modifies this
      ensures calls == AllRetired(old(calls)) && indexed && Indexable(calls)
      ensures retired == Surplus(old(calls), ActiveLeads(old(calls)))
    {
      var ids := SelectDuplicates();
      retired := |ids|;
      ghost var before := calls;
      var rest := ids;
      while rest != {}
        invariant rest <= ids && calls.Keys == before.Keys
        invariant forall id | id in calls ::
                    calls[id] == if id in ids && id !in rest then Retired(before[id]) else before[id]
      {
        var id :| id in rest;
        var call := calls[id].(status := "failed");
        call := call.(notes := Some((if call.notes.Some? then call.notes.value + " | " else "") + NOTE));
        calls := calls[id := call];
        rest := rest - {id};
      }
      assert calls == AllRetired(before);
      IndexCanBeBuilt(before);
      RetiredCountIsSurplus(before);
      indexed := Indexable(calls);
    }
  }
}
