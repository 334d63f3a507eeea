/**
 The check between the model's proposals for a lead's profile and the writer that carries them out.
 */
module ProfileValidation {
  import opened Prelude
  import opened FactStore
  import opened Summarizer

  /** Keys of the active facts that a run reads for its lead, all of the profile namespace. */
  function CurrentKeys(facts: seq<Fact>, leadId: string): (current: set<string>)
    ensures forall key | key in current :: InProfile(key)
  {
    set i | 0 <= i < |facts| && Active(facts[i], leadId, facts[i].key) && InProfile(facts[i].key) :: facts[i].key
  }

  predicate Known(u: ProfileUpdate, current: set<string>) {
    u.target.Some? && u.target.value in current
  }

  /** What becomes of the proposals: unknown targets are dropped from updates and discard removals. */
  function Validated(updates: seq<ProfileUpdate>, current: set<string>): seq<ProfileUpdate> {
    if updates == [] then []
    else
      var u := updates[|updates| - 1];
      Validated(updates[..|updates| - 1], current) +
      if u.operation == "add" then [u]
      else if current == {} then []
      else if u.operation == "update" then if Known(u, current) then [u] else [u.(operation := "add", target := None)]
      else if u.operation == "remove" && Known(u, current) then [u]
      else []
  }

  method ValidateUpdates(updates: seq<ProfileUpdate>, current: set<string>) returns (validated: seq<ProfileUpdate>)
    ensures validated == Validated(updates, current)
  {
    validated := [];
    if current == {} {
      for i := 0 to |updates|
        invariant validated == Validated(updates[..i], current)
      {
        assert updates[..i + 1][..i] == updates[..i];
        if updates[i].operation == "add" {
          validated := validated + [updates[i]];
        }
      }
      assert updates[..|updates|] == updates;
      return;
    }
    for i := 0 to |updates|
      invariant validated == Validated(updates[..i], current)
    {
      assert updates[..i + 1][..i] == updates[..i];
      var u := updates[i];
      if u.operation == "add" {
        validated := validated + [u];
      } else if u.operation == "update" {
        validated := validated + [if Known(u, current) then u else u.(operation := "add", target := None)];
      } else if u.operation == "remove" && Known(u, current) {
        validated := validated + [u];
      }
    }
    assert updates[..|updates|] == updates;
  }

  lemma {:induction false} ValidatedAppend(a: seq<ProfileUpdate>, b: seq<ProfileUpdate>, current: set<string>)
    ensures Validated(a + b, current) == Validated(a, current) + Validated(b, current)
  {
    if b == [] {
      assert a + b == a;
    } else {
      var n := |b| - 1;
      assert (a + b)[..|a + b| - 1] == a + b[..n];
      ValidatedAppend(a, b[..n], current);
    }
  }

  /**
   Each proposal fares on its own, and the order stays: additions pass, an update passes if its target is
   current and otherwise becomes an addition, a removal passes only if its target is current; while the
   lead has no facts, only additions pass.
   */
  lemma EachFaresAlone(before: seq<ProfileUpdate>, u: ProfileUpdate, after: seq<ProfileUpdate>, current: set<string>)
    requires u.operation in {"add", "update", "remove"}
    ensures Validated(before + [u] + after, current) == Validated(before, current) + Validated([u], current) + Validated(after, current)
    ensures u.operation == "add" ==> Validated([u], current) == [u]
    ensures u.operation != "add" && current == {} ==> Validated([u], current) == []
    ensures u.operation != "add" && u.target.Some? && u.target.value in current ==> Validated([u], current) == [u]
    ensures u.operation == "remove" && (u.target == None || u.target.value !in current) ==> Validated([u], current) == []
    ensures u.operation == "update" && current != {} && (u.target == None || u.target.value !in current) ==>
              Validated([u], current) == [ProfileUpdate("add", u.category, u.fact, u.slug, u.value, None)]
  {
    ValidatedAppend(before + [u], after, current);
    ValidatedAppend(before, [u], current);
    assert [u][..0] == [];
  }

  /** A proposal that can be carried out as it stands. */
  predicate Sound(u: ProfileUpdate, current: set<string>) {
    u.operation == "add" || (u.operation in {"update", "remove"} && Known(u, current))
  }

  predicate AllSound(updates: seq<ProfileUpdate>, current: set<string>) {
    forall i | 0 <= i < |updates| :: Sound(updates[i], current)
  }

  lemma {:induction false} ValidatedIsSound(updates: seq<ProfileUpdate>, current: set<string>)
    ensures AllSound(Validated(updates, current), current) && |Validated(updates, current)| <= |updates|
  {
    if updates != [] {
      ValidatedIsSound(updates[..|updates| - 1], current);
    }
  }

  /** Validation changes something exactly when a proposal is not sound; what it lets through it lets through again. */
  lemma {:induction false} UnchangedIffSound(updates: seq<ProfileUpdate>, current: set<string>)
    ensures Validated(updates, current) == updates <==> AllSound(updates, current)
  {
    ValidatedIsSound(updates, current);
    if AllSound(updates, current) && updates != [] {
      var before := updates[..|updates| - 1];
      assert Sound(updates[|updates| - 1], current);
      forall i | 0 <= i < |before| ensures Sound(before[i], current) { assert Sound(updates[i], current); }
      UnchangedIffSound(before, current);
    }
  }

  /** The proposals that two later filters let through: they go by evidence and text alone, and alter nothing. */
  function Selected(updates: seq<ProfileUpdate>, allowed: set<ProfileUpdate>): seq<ProfileUpdate> {
    if updates == [] then []
    else
      var u := updates[|updates| - 1];
      Selected(updates[..|updates| - 1], allowed) + if u in allowed then [u] else []
  }

  lemma {:induction false} SelectedIsSound(updates: seq<ProfileUpdate>, allowed: set<ProfileUpdate>, current: set<string>)
    requires AllSound(updates, current)
    ensures AllSound(Selected(updates, allowed), current)
  {
    if updates != [] {
      var before := updates[..|updates| - 1];
      forall i | 0 <= i < |before| ensures Sound(before[i], current) { assert Sound(updates[i], current); }
      SelectedIsSound(before, allowed, current);
      assert Sound(updates[|updates| - 1], current);
    }
  }

  /** Updates that came through validation against the given keys. */
  ghost predicate Passed(updates: seq<ProfileUpdate>, current: set<string>) {
    exists proposed, allowed :: updates == Selected(Validated(proposed, current), allowed)
  }

  lemma {:induction false} SoundWritesStay(updates: seq<ProfileUpdate>, current: set<string>)
    requires AllSound(updates, current) && forall key | key in current :: InProfile(key)
    ensures forall w | w in PipelineWrites(updates) :: StaysInProfile(w)
  {
    if updates != [] {
      var before, u := updates[..|updates| - 1], updates[|updates| - 1];
      forall i | 0 <= i < |before| ensures Sound(before[i], current) { assert Sound(updates[i], current); }
      SoundWritesStay(before, current);
      assert Sound(u, current);
      assert "profile:" + u.category + ":" + u.slug == "profile:" + (u.category + ":" + u.slug);
    }
  }

  /** Validation keeps the writer inside the profile namespace, although the writer itself checks nothing. */
  lemma PassedWritesStay(updates: seq<ProfileUpdate>, current: set<string>)
    requires Passed(updates, current) && forall key | key in current :: InProfile(key)
    ensures forall w | w in PipelineWrites(updates) :: StaysInProfile(w)
  {
    var proposed, allowed :| updates == Selected(Validated(proposed, current), allowed);
    ValidatedIsSound(proposed, current);
    SelectedIsSound(Validated(proposed, current), allowed, current);
    SoundWritesStay(updates, current);
  }
}
