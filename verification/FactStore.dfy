/**
 The profile facts of leads: rows that are appended and superseded, never overwritten, except by the
 profile pipeline, which deletes them.
 */
module FactStore {
  import opened Prelude

  datatype Fact = Fact(leadId: string, key: string, value: string, source: Option<string>, supersededAt: Option<int>)

  /** One write, as the three writers issue it. */
  datatype Write =
    | Supersede(key: string, value: string)                            // singular facts and corrections
    | AddOnce(key: string, value: string)                              // list-type facts
    | PipelineAdd(key: string, value: string)
    | PipelineUpdate(target: Option<string>, key: string, value: string)
    | PipelineRemove(target: Option<string>)

  predicate Active(fact: Fact, leadId: string, key: string) {
    fact.leadId == leadId && fact.key == key && fact.supersededAt.None?
  }

  /** Result of selecting at most one active row: more than one is an error. */
  datatype Lookup = Missing | One(index: nat) | Multiple

  function Find(rows: seq<Fact>, leadId: string, key: string): (found: Lookup)
    ensures found.One? ==> found.index < |rows| && Active(rows[found.index], leadId, key)
  {
    if rows == [] then Missing
    else
      var n := |rows| - 1;
      var rest := Find(rows[..n], leadId, key);
      if !Active(rows[n], leadId, key) then rest
      else if rest.Missing? then One(n) else Multiple
  }

  /** The rows after one write, or None when the lookup raised because several rows are active. */
  function Put(rows: seq<Fact>, leadId: string, write: Write, source: Option<string>, now: int): Option<seq<Fact>> {
    match write
    case Supersede(key, value) =>
      var added := [Fact(leadId, key, value, source, None)];
      (match Find(rows, leadId, key)
       case Multiple => None
       case Missing => Some(rows + added)
       case One(i) =>
         if rows[i].value == value then Some(rows)
         else Some(rows[i := rows[i].(supersededAt := Some(now))] + added))
    case AddOnce(key, value) =>
      (match Find(rows, leadId, key)
       case Multiple => None
       case Missing => Some(rows + [Fact(leadId, key, value, source, None)])
       case One(_) => Some(rows))
    case PipelineAdd(key, value) => Some(rows + [Fact(leadId, key, value, source, None)])
    case PipelineUpdate(target, key, value) =>
      var kept := Deleted(rows, leadId, target);
      if kept.None? then None else Some(kept.value + [Fact(leadId, key, value, source, None)])
    case PipelineRemove(target) => Deleted(rows, leadId, target)
  }

  /** The rows without the active row whose key is `target`; unknown targets delete nothing. */
  function Deleted(rows: seq<Fact>, leadId: string, target: Option<string>): Option<seq<Fact>> {
    if !Truthy(target) then Some(rows)
    else match Find(rows, leadId, target.value)
         case Multiple => None
         case Missing => Some(rows)
         case One(i) => Some(rows[..i] + rows[i + 1..])
  }

  /** The row at this position is the lead's, has this key and is not superseded. */
  predicate ActiveAt(rows: seq<Fact>, i: int, leadId: string, key: string) {
    0 <= i < |rows| && rows[i].leadId == leadId && rows[i].key == key && rows[i].supersededAt == None
  }

  lemma {:induction false} FindSeesAll(rows: seq<Fact>, leadId: string, key: string)
    ensures Find(rows, leadId, key).Missing? <==> forall i :: !ActiveAt(rows, i, leadId, key)
    ensures Find(rows, leadId, key).One? ==>
              ActiveAt(rows, Find(rows, leadId, key).index, leadId, key)
              && forall i | ActiveAt(rows, i, leadId, key) :: i == Find(rows, leadId, key).index
    ensures Find(rows, leadId, key).Multiple? ==>
              exists i, j :: i < j && ActiveAt(rows, i, leadId, key) && ActiveAt(rows, j, leadId, key)
  {
    if rows != [] {
      var n := |rows| - 1;
      var rest := Find(rows[..n], leadId, key);
      FindSeesAll(rows[..n], leadId, key);
      assert forall i | i != n :: ActiveAt(rows, i, leadId, key) <==> ActiveAt(rows[..n], i, leadId, key);
      assert Active(rows[n], leadId, key) <==> ActiveAt(rows, n, leadId, key);
      if rest.One? && Active(rows[n], leadId, key) {
        assert ActiveAt(rows, rest.index, leadId, key) && ActiveAt(rows, n, leadId, key);
      } else if rest.Multiple? {
        var i, j :| i < j && ActiveAt(rows[..n], i, leadId, key) && ActiveAt(rows[..n], j, leadId, key);
        assert ActiveAt(rows, i, leadId, key) && ActiveAt(rows, j, leadId, key);
      }
    }
  }

  /**
   A superseding write in terms of rows: nothing happens if the active row holds the value; otherwise that
   row, if there is one, is superseded now, a new active row with the value and its source comes last, and
   every other row is as it was. It raises exactly when two rows are active.
   */
  lemma SupersedingRows(rows: seq<Fact>, leadId: string, key: string, value: string, source: Option<string>, now: int)
    ensures var after := Put(rows, leadId, Supersede(key, value), source, now);
            && (after.None? <==> exists i, j :: i < j && ActiveAt(rows, i, leadId, key) && ActiveAt(rows, j, leadId, key))
            && (after.Some? && (exists i :: ActiveAt(rows, i, leadId, key) && rows[i].value == value) ==> after.value == rows)
            && (after.Some? && (forall i | ActiveAt(rows, i, leadId, key) :: rows[i].value != value) ==>
                  && |after.value| == |rows| + 1 && after.value[|rows|] == Fact(leadId, key, value, source, None)
                  && forall i | 0 <= i < |rows| ::
                       after.value[i] == if ActiveAt(rows, i, leadId, key) then rows[i].(supersededAt := Some(now)) else rows[i])
  {
    FindSeesAll(rows, leadId, key);
  }

  /** The other writers in terms of rows: what is added, and which single row goes. */
  lemma AddingRows(rows: seq<Fact>, leadId: string, key: string, value: string, target: string, source: Option<string>, now: int)
    ensures Put(rows, leadId, PipelineAdd(key, value), source, now) == Some(rows + [Fact(leadId, key, value, source, None)])
    ensures (forall i :: !ActiveAt(rows, i, leadId, key)) ==>
              Put(rows, leadId, AddOnce(key, value), source, now) == Some(rows + [Fact(leadId, key, value, source, None)])
    ensures (exists i :: ActiveAt(rows, i, leadId, key)) && Put(rows, leadId, AddOnce(key, value), source, now).Some? ==>
              Put(rows, leadId, AddOnce(key, value), source, now) == Some(rows)
    ensures (forall i :: !ActiveAt(rows, i, leadId, target)) || target == "" ==>
              Put(rows, leadId, PipelineRemove(Some(target)), source, now) == Some(rows)
    ensures forall i | ActiveAt(rows, i, leadId, target) && target != "" ::
              Put(rows, leadId, PipelineRemove(Some(target)), source, now) in {None, Some(rows[..i] + rows[i + 1..])}
    ensures var kept := Put(rows, leadId, PipelineRemove(Some(target)), source, now);
            Put(rows, leadId, PipelineUpdate(Some(target), key, value), source, now) ==
              if kept.None? then None else Some(kept.value + [Fact(leadId, key, value, source, None)])
    ensures Put(rows, leadId, PipelineUpdate(None, key, value), source, now)
         == Some(rows + [Fact(leadId, key, value, source, None)])
  {
    FindSeesAll(rows, leadId, key);
    FindSeesAll(rows, leadId, target);
  }

  /** A write addressed to a lead, with its provenance and time. */
  datatype Entry = Entry(leadId: string, write: Write, source: Option<string>, at: int)

  function PutAll(rows: seq<Fact>, log: seq<Entry>): Option<seq<Fact>> {
    if log == [] then Some(rows)
    else
      var n := |log| - 1;
      var before := PutAll(rows, log[..n]);
      if before.None? then None else Put(before.value, log[n].leadId, log[n].write, log[n].source, log[n].at)
  }

  lemma {:induction false} PutAllAppend(rows: seq<Fact>, log: seq<Entry>, more: seq<Entry>)
    ensures PutAll(rows, log + more) ==
            if PutAll(rows, log).None? then None else PutAll(PutAll(rows, log).value, more)
  {
    if more == [] {
      assert log + more == log;
    } else {
      var n := |more| - 1;
      assert (log + more)[..|log| + n] == log + more[..n];
      PutAllAppend(rows, log, more[..n]);
    }
  }

  lemma PutAllStep(rows: seq<Fact>, log: seq<Entry>, i: nat)
    requires i < |log| && PutAll(rows, log[..i]).Some?
    ensures PutAll(rows, log[..i + 1])
         == Put(PutAll(rows, log[..i]).value, log[i].leadId, log[i].write, log[i].source, log[i].at)
  {
    assert log[..i + 1][..i] == log[..i];
  }

  lemma PrefixFails(rows: seq<Fact>, log: seq<Entry>, i: nat)
    requires i <= |log| && PutAll(rows, log[..i]).None?
    ensures PutAll(rows, log).None?
  {
    PutAllAppend(rows, log[..i], log[i..]);
    assert log[..i] + log[i..] == log;
  }

  // ---------- The rows of one lead and key ----------

  function Own(rows: seq<Fact>, leadId: string, key: string): seq<Fact> {
    if rows == [] then []
    else
      var n := |rows| - 1;
      Own(rows[..n], leadId, key) + if rows[n].leadId == leadId && rows[n].key == key then [rows[n]] else []
  }

  lemma {:induction false} OwnAppend(rows: seq<Fact>, more: seq<Fact>, leadId: string, key: string)
    ensures Own(rows + more, leadId, key) == Own(rows, leadId, key) + Own(more, leadId, key)
  {
    if more == [] {
      assert rows + more == rows;
    } else {
      var n := |more| - 1;
      assert (rows + more)[..|rows| + n] == rows + more[..n];
      OwnAppend(rows, more[..n], leadId, key);
    }
  }

  lemma OwnOne(fact: Fact, leadId: string, key: string)
    ensures Own([fact], leadId, key) == if fact.leadId == leadId && fact.key == key then [fact] else []
  {
    assert [fact][..0] == [];
  }

  lemma OwnSplit(rows: seq<Fact>, i: nat, leadId: string, key: string)
    requires i < |rows|
    ensures Own(rows, leadId, key)
         == Own(rows[..i], leadId, key) + Own([rows[i]], leadId, key) + Own(rows[i + 1..], leadId, key)
  {
    assert rows == rows[..i] + [rows[i]] + rows[i + 1..];
    OwnAppend(rows[..i] + [rows[i]], rows[i + 1..], leadId, key);
    OwnAppend(rows[..i], [rows[i]], leadId, key);
  }

  function ActiveCount(own: seq<Fact>): nat {
    if own == [] then 0
    else ActiveCount(own[..|own| - 1]) + if own[|own| - 1].supersededAt.None? then 1 else 0
  }

  lemma {:induction false} FindCounts(rows: seq<Fact>, leadId: string, key: string)
    ensures Find(rows, leadId, key).Missing? <==> ActiveCount(Own(rows, leadId, key)) == 0
    ensures Find(rows, leadId, key).One? <==> ActiveCount(Own(rows, leadId, key)) == 1
  {
    if rows != [] {
      var n := |rows| - 1;
      FindCounts(rows[..n], leadId, key);
      var rest := Own(rows[..n], leadId, key);
      if rows[n].leadId == leadId && rows[n].key == key {
        assert Own(rows, leadId, key) == rest + [rows[n]];
        assert Own(rows, leadId, key)[..|rest|] == rest;
      } else {
        assert Own(rows, leadId, key) == rest;
      }
    }
  }

  /** What a write makes of the rows of one lead and key, stated on those rows alone. */
  function OwnAfter(own: seq<Fact>, leadId: string, key: string, e: Entry): seq<Fact> {
    if e.leadId != leadId then own
    else match e.write
      case Supersede(k, value) =>
        if k != key then own
        else if ActiveCount(own) == 0 then own + [Fact(leadId, key, value, e.source, None)]
        else if own[|own| - 1].value == value then own
        else own[|own| - 1 := own[|own| - 1].(supersededAt := Some(e.at))] + [Fact(leadId, key, value, e.source, None)]
      case AddOnce(k, value) =>
        if k == key && ActiveCount(own) == 0 then own + [Fact(leadId, key, value, e.source, None)] else own
      case _ => own
  }

  /** All rows but the last are superseded; the last one, if any, is active. */
  ghost predicate Chain(own: seq<Fact>) {
    forall i | 0 <= i < |own| :: own[i].supersededAt.None? <==> i == |own| - 1
  }

  lemma {:induction false} NoneActive(own: seq<Fact>)
    requires forall i | 0 <= i < |own| :: own[i].supersededAt.Some?
    ensures ActiveCount(own) == 0
  {
    if own != [] {
      NoneActive(own[..|own| - 1]);
    }
  }

  lemma ChainCount(own: seq<Fact>)
    requires Chain(own)
    ensures ActiveCount(own) == if own == [] then 0 else 1
  {
    if own != [] {
      NoneActive(own[..|own| - 1]);
    }
  }

  /** In a chain the active row that a lookup finds is the last of the key's rows. */
  lemma ActiveIsLast(rows: seq<Fact>, i: nat, leadId: string, key: string)
    requires i < |rows| && Active(rows[i], leadId, key) && Chain(Own(rows, leadId, key))
    ensures Own(rows[i + 1..], leadId, key) == []
    ensures Own(rows, leadId, key) == Own(rows[..i], leadId, key) + [rows[i]]
  {
    OwnSplit(rows, i, leadId, key);
    OwnOne(rows[i], leadId, key);
    var own, before := Own(rows, leadId, key), Own(rows[..i], leadId, key);
    assert own[|before|] == rows[i];
  }

  /** A write does not touch the rows of another lead or key, unless the pipeline targets the key. */
  predicate Touches(write: Write, key: string) {
    match write
    case Supersede(k, _) => k == key
    case AddOnce(k, _) => k == key
    case PipelineAdd(k, _) => k == key
    case PipelineUpdate(target, k, _) => k == key || (Truthy(target) && target.value == key)
    case PipelineRemove(target) => Truthy(target) && target.value == key
  }

  lemma UpdateElsewhere(rows: seq<Fact>, i: nat, fact: Fact, leadId: string, key: string)
    requires i < |rows| && Own([rows[i]], leadId, key) == [] && Own([fact], leadId, key) == []
    ensures Own(rows[i := fact], leadId, key) == Own(rows, leadId, key)
  {
    OwnSplit(rows, i, leadId, key);
    OwnSplit(rows[i := fact], i, leadId, key);
    assert rows[i := fact][..i] == rows[..i] && rows[i := fact][i + 1..] == rows[i + 1..];
  }

  lemma DeleteElsewhere(rows: seq<Fact>, i: nat, leadId: string, key: string)
    requires i < |rows| && Own([rows[i]], leadId, key) == []
    ensures Own(rows[..i] + rows[i + 1..], leadId, key) == Own(rows, leadId, key)
  {
    OwnSplit(rows, i, leadId, key);
    OwnAppend(rows[..i], rows[i + 1..], leadId, key);
  }

  lemma PutElsewhere(rows: seq<Fact>, e: Entry, leadId: string, key: string)
    requires Put(rows, e.leadId, e.write, e.source, e.at).Some?
    requires e.leadId != leadId || !Touches(e.write, key)
    ensures Own(Put(rows, e.leadId, e.write, e.source, e.at).value, leadId, key) == Own(rows, leadId, key)
  {
    var after := Put(rows, e.leadId, e.write, e.source, e.at).value;
    match e.write {
      case Supersede(k, value) =>
        var added := Fact(e.leadId, k, value, e.source, None);
        OwnOne(added, leadId, key);
        var found := Find(rows, e.leadId, k);
        if found.One? && rows[found.index].value != value {
          var row := rows[found.index];
          OwnOne(row, leadId, key);
          OwnOne(row.(supersededAt := Some(e.at)), leadId, key);
          UpdateElsewhere(rows, found.index, row.(supersededAt := Some(e.at)), leadId, key);
          OwnAppend(rows[found.index := row.(supersededAt := Some(e.at))], [added], leadId, key);
        } else if found.Missing? {
          OwnAppend(rows, [added], leadId, key);
        }
      case AddOnce(k, value) =>
        OwnOne(Fact(e.leadId, k, value, e.source, None), leadId, key);
        OwnAppend(rows, [Fact(e.leadId, k, value, e.source, None)], leadId, key);
      case PipelineAdd(k, value) =>
        OwnOne(Fact(e.leadId, k, value, e.source, None), leadId, key);
        OwnAppend(rows, [Fact(e.leadId, k, value, e.source, None)], leadId, key);
      case PipelineUpdate(target, k, value) =>
        var kept := Deleted(rows, e.leadId, target).value;
        DeletedElsewhere(rows, e.leadId, target, leadId, key);
        OwnOne(Fact(e.leadId, k, value, e.source, None), leadId, key);
        OwnAppend(kept, [Fact(e.leadId, k, value, e.source, None)], leadId, key);
      case PipelineRemove(target) =>
        DeletedElsewhere(rows, e.leadId, target, leadId, key);
    }
  }

  lemma DeletedElsewhere(rows: seq<Fact>, at: string, target: Option<string>, leadId: string, key: string)
    requires Deleted(rows, at, target).Some?
    requires at != leadId || !(Truthy(target) && target.value == key)
    ensures Own(Deleted(rows, at, target).value, leadId, key) == Own(rows, leadId, key)
  {
    if Truthy(target) && Find(rows, at, target.value).One? {
      var i := Find(rows, at, target.value).index;
      OwnOne(rows[i], leadId, key);
      DeleteElsewhere(rows, i, leadId, key);
    }
  }

  predicate FromPipeline(write: Write) {
    write.PipelineAdd? || write.PipelineUpdate? || write.PipelineRemove?
  }

  lemma SupersedeActive(rows: seq<Fact>, i: nat, e: Entry, leadId: string, key: string, value: string)
    requires i < |rows| && Active(rows[i], leadId, key) && Chain(Own(rows, leadId, key))
    ensures var own := Own(rows, leadId, key);
            var added := Fact(leadId, key, value, e.source, None);
            && own != []
            && Own(rows[i := rows[i].(supersededAt := Some(e.at))] + [added], leadId, key)
               == own[|own| - 1 := own[|own| - 1].(supersededAt := Some(e.at))] + [added]
  {
    var added := Fact(leadId, key, value, e.source, None);
    ChangeLast(rows, i, rows[i].(supersededAt := Some(e.at)), leadId, key);
    ActiveIsLast(rows, i, leadId, key);
    OwnOne(added, leadId, key);
    OwnAppend(rows[i := rows[i].(supersededAt := Some(e.at))], [added], leadId, key);
  }

  /** Changing the active row of a chain changes the last of the key's rows. */
  lemma ChangeLast(rows: seq<Fact>, i: nat, row: Fact, leadId: string, key: string)
    requires i < |rows| && Active(rows[i], leadId, key) && Chain(Own(rows, leadId, key))
    requires row.leadId == leadId && row.key == key
    ensures Own(rows, leadId, key) != []
    ensures Own(rows[i := row], leadId, key) == Own(rows, leadId, key)[|Own(rows, leadId, key)| - 1 := row]
  {
    ActiveIsLast(rows, i, leadId, key);
    OwnOne(row, leadId, key);
    OwnSplit(rows[i := row], i, leadId, key);
    assert rows[i := row][..i] == rows[..i] && rows[i := row][i + 1..] == rows[i + 1..];
  }

  /** On a chain, the supersede-style writers never fail and do to the key's rows what OwnAfter says. */
  lemma PutOnChain(rows: seq<Fact>, e: Entry, leadId: string, key: string)
    requires Chain(Own(rows, leadId, key))
    requires e.leadId == leadId && Touches(e.write, key) && !FromPipeline(e.write)
    ensures Put(rows, e.leadId, e.write, e.source, e.at).Some?
    ensures Own(Put(rows, e.leadId, e.write, e.source, e.at).value, leadId, key)
         == OwnAfter(Own(rows, leadId, key), leadId, key, e)
  {
    ChainCount(Own(rows, leadId, key));
    FindCounts(rows, leadId, key);
    var added := Fact(leadId, key, e.write.value, e.source, None);
    var found := Find(rows, leadId, key);
    if found.Missing? {
      OwnOne(added, leadId, key);
      OwnAppend(rows, [added], leadId, key);
    } else {
      ActiveIsLast(rows, found.index, leadId, key);
      SupersedeActive(rows, found.index, e, leadId, key, e.write.value);
    }
  }

  // ---------- The rows are the write log ----------

  function Values(own: seq<Fact>): (values: seq<string>)
    ensures |values| == |own|
  {
    seq(|own|, i requires 0 <= i < |own| => own[i].value)
  }

  /** The values a key should have had, from the log alone: a repeat of the current value is no change. */
  function History(log: seq<Entry>, leadId: string, key: string): seq<string> {
    if log == [] then []
    else
      var n := |log| - 1;
      var h := History(log[..n], leadId, key);
      if log[n].leadId != leadId || !Touches(log[n].write, key) then h
      else match log[n].write
        case Supersede(_, value) => if h != [] && h[|h| - 1] == value then h else h + [value]
        case AddOnce(_, value) => if h == [] then [value] else h
        case _ => h
  }

  predicate PipelineAvoids(log: seq<Entry>, leadId: string, key: string) {
    forall i | 0 <= i < |log| :: log[i].leadId == leadId && FromPipeline(log[i].write) ==> !Touches(log[i].write, key)
  }

  /**
   For every key the pipeline stays away from: at most one row is active and it is the last, and the
   key's rows in order of insertion are exactly the history of the write log.
   */
  lemma {:induction false} RowsAreHistory(log: seq<Entry>, leadId: string, key: string)
    requires PutAll([], log).Some? && PipelineAvoids(log, leadId, key)
    ensures Chain(Own(PutAll([], log).value, leadId, key))
    ensures Values(Own(PutAll([], log).value, leadId, key)) == History(log, leadId, key)
  {
    if log != [] {
      var n := |log| - 1;
      assert PipelineAvoids(log[..n], leadId, key) by {
        forall i | 0 <= i < n && log[..n][i].leadId == leadId && FromPipeline(log[..n][i].write)
          ensures !Touches(log[..n][i].write, key)
        { assert log[..n][i] == log[i]; }
      }
      RowsAreHistory(log[..n], leadId, key);
      var rows := PutAll([], log[..n]).value;
      if log[n].leadId == leadId && Touches(log[n].write, key) {
        PutOnChain(rows, log[n], leadId, key);
        ChainCount(Own(rows, leadId, key));
        OwnAfterIsHistory(Own(rows, leadId, key), log, leadId, key);
      } else {
        PutElsewhere(rows, log[n], leadId, key);
      }
    }
  }

  lemma OwnAfterIsHistory(own: seq<Fact>, log: seq<Entry>, leadId: string, key: string)
    requires log != [] && Chain(own) && Values(own) == History(log[..|log| - 1], leadId, key)
    requires log[|log| - 1].leadId == leadId && Touches(log[|log| - 1].write, key) && !FromPipeline(log[|log| - 1].write)
    ensures Chain(OwnAfter(own, leadId, key, log[|log| - 1]))
    ensures Values(OwnAfter(own, leadId, key, log[|log| - 1])) == History(log, leadId, key)
  {
    ChainCount(own);
    var e := log[|log| - 1];
    if own != [] {
      assert Values(own)[|own| - 1] == own[|own| - 1].value;
    }
  }

  /** Without the pipeline no write ever fails: the writers cannot make a second active row. */
  lemma {:induction false} WritersNeverFail(log: seq<Entry>)
    requires forall i | 0 <= i < |log| :: !FromPipeline(log[i].write)
    ensures PutAll([], log).Some?
  {
    if log != [] {
      var n := |log| - 1;
      WritersNeverFail(log[..n]);
      RowsAreHistory(log[..n], log[n].leadId, log[n].write.key);
      PutOnChain(PutAll([], log[..n]).value, log[n], log[n].leadId, log[n].write.key);
    }
  }

  // ---------- The log with consecutive repeats collapsed ----------

  /** The values written to a key, oldest first. */
  function Written(log: seq<Entry>, leadId: string, key: string): seq<string> {
    if log == [] then []
    else
      Written(log[..|log| - 1], leadId, key) +
      (var e := log[|log| - 1];
       if e.leadId == leadId && !FromPipeline(e.write) && e.write.key == key then [e.write.value] else [])
  }

  /** Drops every value that equals the one right before it. */
  function Collapse(values: seq<string>): seq<string> {
    if |values| < 2 then values
    else if values[0] == values[1] then Collapse(values[1..])
    else [values[0]] + Collapse(values[1..])
  }

  lemma {:induction false} CollapseAppend(values: seq<string>, last: string)
    ensures Collapse(values + [last]) ==
            if values != [] && values[|values| - 1] == last then Collapse(values) else Collapse(values) + [last]
    ensures values != [] ==> Collapse(values) != [] && Collapse(values)[|Collapse(values)| - 1] == values[|values| - 1]
  {
    if |values| < 2 {
      if |values| == 1 {
        assert (values + [last])[1..] == [last];
      }
    } else {
      CollapseAppend(values[1..], last);
      assert (values + [last])[1..] == values[1..] + [last];
      assert (values + [last])[0] == values[0] && (values + [last])[1] == values[1];
    }
  }

  /** Writes that a list-type writer issues for one key all carry the same value. */
  predicate OneListValue(log: seq<Entry>, leadId: string, key: string) {
    forall i, j | 0 <= i < |log| && 0 <= j < |log| ::
      (log[i].leadId == leadId && log[i].write.AddOnce? && log[i].write.key == key
       && log[j].leadId == leadId && !FromPipeline(log[j].write) && log[j].write.key == key)
      ==> log[i].write.value == log[j].write.value
  }

  /**
   When a key is written either by the superseding writers only, or always with one value, its history
   is the list of written values with consecutive repeats collapsed; the last one written is current.
   */
  lemma {:induction false} HistoryIsCollapsedLog(log: seq<Entry>, leadId: string, key: string)
    requires PipelineAvoids(log, leadId, key) && OneListValue(log, leadId, key)
    ensures History(log, leadId, key) == Collapse(Written(log, leadId, key))
    ensures Written(log, leadId, key) != [] ==>
              && History(log, leadId, key) != []
              && History(log, leadId, key)[|History(log, leadId, key)| - 1]
                 == Written(log, leadId, key)[|Written(log, leadId, key)| - 1]
  {
    if log != [] {
      var n := |log| - 1;
      var before := log[..n];
      PrefixHypotheses(log, leadId, key);
      HistoryIsCollapsedLog(before, leadId, key);
      var e := log[n];
      if e.leadId == leadId && Touches(e.write, key) {
        assert !FromPipeline(e.write);
        CollapseAppend(Written(before, leadId, key), e.write.value);
        if e.write.AddOnce? && Written(before, leadId, key) != [] {
          var j := LastWritten(before, leadId, key);
          assert log[j] == before[j];
          assert Written(before, leadId, key)[|Written(before, leadId, key)| - 1] == e.write.value;
        }
        assert Written(log, leadId, key) == Written(before, leadId, key) + [e.write.value];
      } else {
        assert Written(log, leadId, key) == Written(before, leadId, key);
      }
    }
  }

  lemma PrefixHypotheses(log: seq<Entry>, leadId: string, key: string)
    requires log != [] && PipelineAvoids(log, leadId, key) && OneListValue(log, leadId, key)
    ensures PipelineAvoids(log[..|log| - 1], leadId, key) && OneListValue(log[..|log| - 1], leadId, key)
  {
    var n := |log| - 1;
    forall i | 0 <= i < n && log[..n][i].leadId == leadId && FromPipeline(log[..n][i].write)
      ensures !Touches(log[..n][i].write, key)
    { assert log[..n][i] == log[i]; }
  }

  lemma {:induction false} LastWritten(log: seq<Entry>, leadId: string, key: string) returns (i: nat)
    requires Written(log, leadId, key) != []
    ensures i < |log| && log[i].leadId == leadId && !FromPipeline(log[i].write) && log[i].write.key == key
    ensures log[i].write.value == Written(log, leadId, key)[|Written(log, leadId, key)| - 1]
  {
    var n := |log| - 1;
    var e := log[n];
    if e.leadId == leadId && !FromPipeline(e.write) && e.write.key == key {
      i := n;
    } else {
      i := LastWritten(log[..n], leadId, key);
    }
  }

  // ---------- The profile pipeline ----------

  predicate InProfile(key: string) {
    "profile:" <= key
  }

  /** The pipeline writes keys of its own namespace, and its targets were checked to be such keys. */
  predicate StaysInProfile(write: Write) {
    match write
    case PipelineAdd(key, _) => InProfile(key)
    case PipelineUpdate(target, key, _) => InProfile(key) && (Truthy(target) ==> InProfile(target.value))
    case PipelineRemove(target) => Truthy(target) ==> InProfile(target.value)
    case _ => true
  }

  /**
   With all three writers at work, every key outside the profile namespace holds its write history:
   one active row with the last value, preceded by the superseded earlier ones.
   */
  lemma RowsAreHistoryOutsideProfile(log: seq<Entry>, leadId: string, key: string)
    requires PutAll([], log).Some? && !InProfile(key)
    requires forall i | 0 <= i < |log| :: StaysInProfile(log[i].write)
    ensures Chain(Own(PutAll([], log).value, leadId, key))
    ensures Values(Own(PutAll([], log).value, leadId, key)) == History(log, leadId, key)
  {
    RowsAreHistory(log, leadId, key);
  }

  /** The pipeline row a write deletes, if it names one. */
  predicate Targets(write: Write, key: string) {
    (write.PipelineUpdate? || write.PipelineRemove?) && Truthy(write.target) && write.target.value == key
  }

  /**
   The writer itself does not check the namespace of a target: it changes the rows of a key outside the
   namespace exactly when it is given that key as its target and the key has an active row.
   */
  lemma PipelineChangesKeyIff(rows: seq<Fact>, e: Entry, leadId: string, key: string)
    requires FromPipeline(e.write) && !InProfile(key)
    requires !e.write.PipelineRemove? ==> InProfile(e.write.key)
    requires Put(rows, e.leadId, e.write, e.source, e.at).Some?
    ensures Own(Put(rows, e.leadId, e.write, e.source, e.at).value, leadId, key) != Own(rows, leadId, key)
       <==> e.leadId == leadId && Targets(e.write, key) && Find(rows, leadId, key).One?
  {
    if e.leadId == leadId && Targets(e.write, key) {
      var found := Find(rows, leadId, key);
      if found.One? {
        var i := found.index;
        OwnSplit(rows, i, leadId, key);
        OwnOne(rows[i], leadId, key);
        OwnAppend(rows[..i], rows[i + 1..], leadId, key);
        if e.write.PipelineUpdate? {
          var added := Fact(leadId, e.write.key, e.write.value, e.source, None);
          OwnOne(added, leadId, key);
          OwnAppend(rows[..i] + rows[i + 1..], [added], leadId, key);
        }
      } else if e.write.PipelineUpdate? {
        var added := Fact(leadId, e.write.key, e.write.value, e.source, None);
        OwnOne(added, leadId, key);
        OwnAppend(rows, [added], leadId, key);
      }
    } else {
      PutElsewhere(rows, e, leadId, key);
    }
  }

  /** Whether a write looks the key up. */
  predicate LooksUp(write: Write, key: string) {
    match write
    case Supersede(k, _) => k == key
    case AddOnce(k, _) => k == key
    case PipelineAdd(_, _) => false
    case PipelineUpdate(_, _, _) => Targets(write, key)
    case PipelineRemove(_) => Targets(write, key)
  }

  lemma {:induction false} ActiveCountAppend(own: seq<Fact>, more: seq<Fact>)
    ensures ActiveCount(own + more) == ActiveCount(own) + ActiveCount(more)
  {
    if more == [] {
      assert own + more == own;
    } else {
      assert (own + more)[..|own + more| - 1] == own + more[..|more| - 1];
      ActiveCountAppend(own, more[..|more| - 1]);
    }
  }

  predicate Reads(e: Entry, leadId: string, key: string) {
    e.leadId == leadId && LooksUp(e.write, key)
  }

  predicate Duplicated(rows: seq<Fact>, leadId: string, key: string) {
    ActiveCount(Own(rows, leadId, key)) >= 2
  }

  /** A key with two active rows fails every write that looks it up, and no other write repairs it. */
  lemma DuplicateStepFailsOrStays(rows: seq<Fact>, e: Entry, leadId: string, key: string)
    requires Duplicated(rows, leadId, key)
    ensures var after := Put(rows, e.leadId, e.write, e.source, e.at);
            && (Reads(e, leadId, key) ==> after.None?)
            && (after.Some? ==> Duplicated(after.value, leadId, key))
  {
    FindCounts(rows, leadId, key);
    var after := Put(rows, e.leadId, e.write, e.source, e.at);
    if after.Some? {
      if e.leadId != leadId || !Touches(e.write, key) {
        PutElsewhere(rows, e, leadId, key);
      } else {
        var kept := if e.write.PipelineUpdate? then Deleted(rows, leadId, e.write.target).value else rows;
        if e.write.PipelineUpdate? {
          DeletedElsewhere(rows, leadId, e.write.target, leadId, key);
        }
        var added := Fact(leadId, key, e.write.value, e.source, None);
        OwnAppend(kept, [added], leadId, key);
        ActiveCountAppend(Own(kept, leadId, key), Own([added], leadId, key));
      }
    }
  }

  /** Duplicates are permanent: no sequence of writes that goes through leaves fewer than two active rows. */
  lemma {:induction false} DuplicatesArePermanent(rows: seq<Fact>, log: seq<Entry>, leadId: string, key: string)
    requires Duplicated(rows, leadId, key) && PutAll(rows, log).Some?
    ensures Duplicated(PutAll(rows, log).value, leadId, key)
    ensures forall i | 0 <= i < |log| :: !Reads(log[i], leadId, key)
  {
    if log != [] {
      var before, last := log[..|log| - 1], log[|log| - 1];
      DuplicatesArePermanent(rows, before, leadId, key);
      DuplicateStepFailsOrStays(PutAll(rows, before).value, last, leadId, key);
      forall i | 0 <= i < |log| - 1 ensures !Reads(log[i], leadId, key) { assert before[i] == log[i]; }
    }
  }

  /** A pipeline write that adds a row to a key without deleting the row that is active under it. */
  predicate Collides(rows: seq<Fact>, e: Entry, leadId: string, key: string) {
    && e.leadId == leadId
    && (e.write.PipelineAdd? || e.write.PipelineUpdate?) && e.write.key == key
    && !Targets(e.write, key) && Find(rows, leadId, key).One?
  }

  function Actives(rows: seq<Fact>, leadId: string, key: string): nat {
    ActiveCount(Own(rows, leadId, key))
  }

  lemma AddedCounts(rows: seq<Fact>, fact: Fact, leadId: string, key: string)
    ensures Actives(rows + [fact], leadId, key) == Actives(rows, leadId, key) + if Active(fact, leadId, key) then 1 else 0
  {
    OwnAppend(rows, [fact], leadId, key);
    OwnOne(fact, leadId, key);
    ActiveCountAppend(Own(rows, leadId, key), Own([fact], leadId, key));
  }

  lemma SplitCounts(rows: seq<Fact>, i: nat, leadId: string, key: string)
    requires i < |rows|
    ensures Actives(rows, leadId, key)
         == Actives(rows[..i], leadId, key) + (if Active(rows[i], leadId, key) then 1 else 0) + Actives(rows[i + 1..], leadId, key)
  {
    OwnSplit(rows, i, leadId, key);
    OwnOne(rows[i], leadId, key);
    ActiveCountAppend(Own(rows[..i], leadId, key) + Own([rows[i]], leadId, key), Own(rows[i + 1..], leadId, key));
    ActiveCountAppend(Own(rows[..i], leadId, key), Own([rows[i]], leadId, key));
  }

  lemma DeletedCounts(rows: seq<Fact>, leadId: string, target: Option<string>, key: string)
    requires Deleted(rows, leadId, target).Some?
    ensures Actives(Deleted(rows, leadId, target).value, leadId, key)
         == Actives(rows, leadId, key)
            - if target == Some(key) && Truthy(target) && Find(rows, leadId, key).One? then 1 else 0
  {
    if Truthy(target) && Find(rows, leadId, target.value).One? {
      var i := Find(rows, leadId, target.value).index;
      SplitCounts(rows, i, leadId, key);
      OwnAppend(rows[..i], rows[i + 1..], leadId, key);
      ActiveCountAppend(Own(rows[..i], leadId, key), Own(rows[i + 1..], leadId, key));
    }
  }

  lemma SupersededCounts(rows: seq<Fact>, i: nat, now: int, leadId: string, key: string)
    requires i < |rows| && Active(rows[i], leadId, key)
    ensures Actives(rows[i := rows[i].(supersededAt := Some(now))], leadId, key) == Actives(rows, leadId, key) - 1
  {
    var updated := rows[i := rows[i].(supersededAt := Some(now))];
    SplitCounts(rows, i, leadId, key);
    SplitCounts(updated, i, leadId, key);
    assert updated[..i] == rows[..i] && updated[i + 1..] == rows[i + 1..];
  }

  /** A write that goes through gives a key its second active row exactly when it collides with the first. */
  lemma DuplicatedExactlyWhen(rows: seq<Fact>, e: Entry, leadId: string, key: string)
    requires !Duplicated(rows, leadId, key) && Put(rows, e.leadId, e.write, e.source, e.at).Some?
    ensures Duplicated(Put(rows, e.leadId, e.write, e.source, e.at).value, leadId, key) <==> Collides(rows, e, leadId, key)
  {
    FindCounts(rows, leadId, key);
    if e.leadId != leadId || !Touches(e.write, key) {
      PutElsewhere(rows, e, leadId, key);
    } else if FromPipeline(e.write) {
      PipelineDuplicates(rows, e, leadId, key);
    } else {
      var added := Fact(leadId, key, e.write.value, e.source, None);
      var found := Find(rows, leadId, key);
      if found.One? && e.write.Supersede? {
        SupersededCounts(rows, found.index, e.at, leadId, key);
        AddedCounts(rows[found.index := rows[found.index].(supersededAt := Some(e.at))], added, leadId, key);
      } else {
        AddedCounts(rows, added, leadId, key);
      }
    }
  }

  lemma PipelineDuplicates(rows: seq<Fact>, e: Entry, leadId: string, key: string)
    requires !Duplicated(rows, leadId, key) && Put(rows, e.leadId, e.write, e.source, e.at).Some?
    requires e.leadId == leadId && FromPipeline(e.write)
    ensures Duplicated(Put(rows, e.leadId, e.write, e.source, e.at).value, leadId, key) <==> Collides(rows, e, leadId, key)
  {
    FindCounts(rows, leadId, key);
    match e.write {
      case PipelineAdd(k, value) =>
        AddedCounts(rows, Fact(leadId, k, value, e.source, None), leadId, key);
      case PipelineUpdate(target, k, value) =>
        DeletedCounts(rows, leadId, target, key);
        AddedCounts(Deleted(rows, leadId, target).value, Fact(leadId, k, value, e.source, None), leadId, key);
      case PipelineRemove(target) =>
        DeletedCounts(rows, leadId, target, key);
    }
  }

  /** The write at position i collides with what the earlier writes left. */
  ghost predicate CollidesAt(rows: seq<Fact>, log: seq<Entry>, i: nat, leadId: string, key: string) {
    i < |log| && PutAll(rows, log[..i]).Some? && Collides(PutAll(rows, log[..i]).value, log[i], leadId, key)
  }

  ghost predicate NoCollision(rows: seq<Fact>, log: seq<Entry>, leadId: string, key: string) {
    forall i :: !CollidesAt(rows, log, i, leadId, key)
  }

  lemma NoCollisionPrefix(rows: seq<Fact>, log: seq<Entry>, leadId: string, key: string)
    requires log != []
    ensures NoCollision(rows, log, leadId, key) <==>
            NoCollision(rows, log[..|log| - 1], leadId, key) && !CollidesAt(rows, log, |log| - 1, leadId, key)
  {
    var before := log[..|log| - 1];
    forall i: nat ensures CollidesAt(rows, log, i, leadId, key) <==>
                          CollidesAt(rows, before, i, leadId, key) || (i == |log| - 1 && CollidesAt(rows, log, i, leadId, key))
    {
      if i < |log| - 1 { assert before[..i] == log[..i]; }
    }
  }

  /**
   After a sequence of writes that goes through, a key that had at most one active row still has at most
   one if and only if no pipeline write added to it while a row was active that it did not itself replace.
   */
  lemma {:induction false} OneActiveRowIff(rows: seq<Fact>, log: seq<Entry>, leadId: string, key: string)
    requires !Duplicated(rows, leadId, key) && PutAll(rows, log).Some?
    ensures !Duplicated(PutAll(rows, log).value, leadId, key) <==> NoCollision(rows, log, leadId, key)
  {
    if log != [] {
      var n := |log| - 1;
      var before := PutAll(rows, log[..n]).value;
      OneActiveRowIff(rows, log[..n], leadId, key);
      NoCollisionPrefix(rows, log, leadId, key);
      if Duplicated(before, leadId, key) {
        DuplicateStepFailsOrStays(before, log[n], leadId, key);
      } else {
        DuplicatedExactlyWhen(before, log[n], leadId, key);
      }
    }
  }

  /** Adding the same profile fact twice makes such a duplicate. */
  lemma {:induction false} AddingTwiceDuplicates(rows: seq<Fact>, leadId: string, key: string, a: string, b: string,
                              source: Option<string>, now: int)
    ensures var log := [Entry(leadId, PipelineAdd(key, a), source, now), Entry(leadId, PipelineAdd(key, b), source, now)];
            PutAll(rows, log).Some? && Duplicated(PutAll(rows, log).value, leadId, key)
  {
    var first, second := Entry(leadId, PipelineAdd(key, a), source, now), Entry(leadId, PipelineAdd(key, b), source, now);
    var added := [Fact(leadId, key, a, source, None), Fact(leadId, key, b, source, None)];
    PutAllAppend(rows, [first], [second]);
    assert [first] + [second] == [first, second];
    assert [first][..0] == [] && [second][..0] == [];
    assert PutAll(rows, [first, second]) == Some(rows + [added[0]] + [added[1]]);
    assert rows + [added[0]] + [added[1]] == rows + added;
    OwnAppend(rows, added, leadId, key);
    assert added[..1] == [added[0]] && added[..1][..0] == [];
    assert Own(added, leadId, key) == added;
    ActiveCountAppend(Own(rows, leadId, key), added);
  }
}
