/**
 Post-call deliveries of one transcript, in any order and with repeats, to a completed session.
 */
module PostCall {
  import opened Prelude
  import opened CallState
  import opened CallRuns

  datatype Entry = Entry(role: string, text: string)

  /** What a session's transcript says, without times and row identity. */
  function Entries(turns: seq<Turn>, id: Id): seq<Entry> {
    var own := TurnsOf(turns, id);
    seq(|own|, i requires 0 <= i < |own| => Entry(own[i].role, own[i].content))
  }

  /** The entries a list of messages contributes. */
  function Kept(messages: seq<Message>): seq<Entry> {
    if messages == [] then []
    else
      var m := messages[|messages| - 1];
      Kept(messages[..|messages| - 1]) +
      if Truthy(m.text) then [Entry(if m.role.Some? then m.role.value else "unknown", m.text.value)] else []
  }

  /** One delivery as a function of what is stored: messages beyond the stored count are added. */
  function Absorb(stored: seq<Entry>, messages: seq<Message>): seq<Entry> {
    if |stored| < |messages| then stored + Kept(messages[|stored|..]) else stored
  }

  /** Deliveries of the prefixes of `transcript` with the given lengths, one after the other. */
  function Replay(stored: seq<Entry>, transcript: seq<Message>, lengths: seq<nat>): seq<Entry>
    requires forall i | 0 <= i < |lengths| :: lengths[i] <= |transcript|
  {
    if lengths == [] then stored
    else
      var last := |lengths| - 1;
      Absorb(Replay(stored, transcript, lengths[..last]), transcript[..lengths[last]])
  }

  function Longest(atLeast: nat, lengths: seq<nat>): nat {
    if lengths == [] then atLeast
    else
      var rest := Longest(atLeast, lengths[..|lengths| - 1]);
      if rest < lengths[|lengths| - 1] then lengths[|lengths| - 1] else rest
  }

  lemma {:induction false} LongestInRange(atLeast: nat, lengths: seq<nat>, bound: nat)
    requires atLeast <= bound && forall i | 0 <= i < |lengths| :: lengths[i] <= bound
    ensures Longest(atLeast, lengths) <= bound
  {
    if lengths != [] {
      LongestInRange(atLeast, lengths[..|lengths| - 1], bound);
    }
  }

  // ---------- The store does what Absorb says ----------

  lemma {:induction false} TurnsOfAppend(turns: seq<Turn>, more: seq<Turn>, id: Id)
    ensures TurnsOf(turns + more, id) == TurnsOf(turns, id) + TurnsOf(more, id)
  {
    if more == [] {
      assert turns + more == turns;
    } else {
      var n := |more| - 1;
      assert (turns + more)[..|turns| + n] == turns + more[..n];
      TurnsOfAppend(turns, more[..n], id);
    }
  }

  lemma TurnsOfSnoc(turns: seq<Turn>, last: Turn, id: Id)
    ensures TurnsOf(turns + [last], id) == if last.sessionId == id then TurnsOf(turns, id) + [last] else TurnsOf(turns, id)
  {
    assert (turns + [last])[..|turns|] == turns;
  }

  lemma {:induction false} StoredBelong(id: Id, messages: seq<Message>, now: int, other: Id)
    ensures TurnsOf(Stored(id, messages, now), other) == if other == id then Stored(id, messages, now) else []
  {
    if messages != [] {
      var n := |messages| - 1;
      var m, before := messages[n], Stored(id, messages[..n], now);
      StoredBelong(id, messages[..n], now, other);
      if Truthy(m.text) {
        TurnsOfSnoc(before, Turn(id, if m.role.Some? then m.role.value else "unknown", m.text.value, now), other);
      } else {
        assert before + [] == before;
      }
    }
  }

  lemma {:induction false} StoredTurns(id: Id, messages: seq<Message>, now: int)
    ensures |Stored(id, messages, now)| == |Kept(messages)|
    ensures forall k | 0 <= k < |Kept(messages)| ::
              Kept(messages)[k] == Entry(Stored(id, messages, now)[k].role, Stored(id, messages, now)[k].content)
  {
    if messages != [] {
      StoredTurns(id, messages[..|messages| - 1], now);
    }
  }

  lemma {:induction false} StoredAppend(id: Id, a: seq<Message>, b: seq<Message>, now: int)
    ensures Stored(id, a + b, now) == Stored(id, a, now) + Stored(id, b, now)
  {
    if b == [] {
      assert a + b == a;
    } else {
      var n := |b| - 1;
      assert (a + b)[..|a + b| - 1] == a + b[..n];
      StoredAppend(id, a, b[..n], now);
    }
  }

  /** Messages are stored one by one, in order: a text under its role, or "unknown"; nothing without a text. */
  lemma EachIsStored(id: Id, before: seq<Message>, m: Message, after: seq<Message>, now: int)
    ensures Stored(id, before + [m] + after, now) == Stored(id, before, now) + Stored(id, [m], now) + Stored(id, after, now)
    ensures m.text == None || m.text == Some("") ==> Stored(id, [m], now) == []
    ensures m.text.Some? && m.text.value != "" && m.role.Some? ==> Stored(id, [m], now) == [Turn(id, m.role.value, m.text.value, now)]
    ensures m.text.Some? && m.text.value != "" && m.role == None ==> Stored(id, [m], now) == [Turn(id, "unknown", m.text.value, now)]
  {
    StoredAppend(id, before + [m], after, now);
    StoredAppend(id, before, [m], now);
    assert [m][..0] == [];
  }

  /** A delivery to a completed session changes that session's transcript as Absorb says, and no other. */
  lemma DeliveryAbsorbs(s: State, id: Id, messages: seq<Message>, other: Id)
    requires id in s.sessions && s.sessions[id].status.Completed?
    ensures var t := Delivered(s, id, messages);
            && t.sessions == s.sessions && t.leads == s.leads
            && Entries(t.turns, id) == Absorb(Entries(s.turns, id), messages)
            && (other != id ==> TurnsOf(t.turns, other) == TurnsOf(s.turns, other))
  {
    var have := |TurnsOf(s.turns, id)|;
    if have < |messages| {
      StoringAbsorbs(s.turns, id, messages[have..], s.now, other);
    }
  }

  lemma StoringAbsorbs(turns: seq<Turn>, id: Id, messages: seq<Message>, now: int, other: Id)
    ensures Entries(turns + Stored(id, messages, now), id) == Entries(turns, id) + Kept(messages)
    ensures other != id ==> TurnsOf(turns + Stored(id, messages, now), other) == TurnsOf(turns, other)
  {
    var extra := Stored(id, messages, now);
    TurnsOfAppend(turns, extra, id);
    TurnsOfAppend(turns, extra, other);
    StoredBelong(id, messages, now, id);
    StoredBelong(id, messages, now, other);
    StoredTurns(id, messages, now);
  }

  function Deliveries(id: Id, transcript: seq<Message>, lengths: seq<nat>): (ops: seq<Op>)
    requires forall i | 0 <= i < |lengths| :: lengths[i] <= |transcript|
    ensures |ops| == |lengths|
  {
    if lengths == [] then []
    else Deliveries(id, transcript, lengths[..|lengths| - 1]) + [Deliver(id, transcript[..lengths[|lengths| - 1]])]
  }

  lemma OneMoreDelivery(s: State, before: seq<Op>, id: Id, messages: seq<Message>)
    requires id in s.sessions && s.sessions[id].status.Completed?
    requires ValidRun(s, before) && After(s, before).sessions == s.sessions
    ensures ValidRun(s, before + [Deliver(id, messages)])
    ensures var t := After(s, before + [Deliver(id, messages)]);
            t.sessions == s.sessions && Entries(t.turns, id) == Absorb(Entries(After(s, before).turns, id), messages)
  {
    var t := After(s, before);
    OneStep(t, Deliver(id, messages));
    RunsCompose(s, before, [Deliver(id, messages)]);
    DeliveryAbsorbs(t, id, messages, id);
  }

  lemma {:induction false} DeliveriesReplay(s: State, id: Id, transcript: seq<Message>, lengths: seq<nat>)
    requires id in s.sessions && s.sessions[id].status.Completed?
    requires forall i | 0 <= i < |lengths| :: lengths[i] <= |transcript|
    ensures ValidRun(s, Deliveries(id, transcript, lengths))
    ensures After(s, Deliveries(id, transcript, lengths)).sessions == s.sessions
    ensures Entries(After(s, Deliveries(id, transcript, lengths)).turns, id) == Replay(Entries(s.turns, id), transcript, lengths)
  {
    if lengths != [] {
      var last := |lengths| - 1;
      DeliveriesReplay(s, id, transcript, lengths[..last]);
      OneMoreDelivery(s, Deliveries(id, transcript, lengths[..last]), id, transcript[..lengths[last]]);
    }
  }

  // ---------- When deliveries converge ----------

  /** No message without text stands before one with text. */
  predicate NoTextAfterGap(messages: seq<Message>) {
    forall i, j | 0 <= i < j < |messages| :: !Truthy(messages[i].text) ==> !Truthy(messages[j].text)
  }

  lemma {:induction false} KeptSplits(messages: seq<Message>, k: nat)
    requires k <= |messages|
    ensures Kept(messages) == Kept(messages[..k]) + Kept(messages[k..])
  {
    if k == |messages| {
      assert messages[..k] == messages && messages[k..] == [];
    } else {
      var n := |messages| - 1;
      KeptSplits(messages[..n], k);
      assert messages[..n][..k] == messages[..k];
      assert messages[..n][k..] == messages[k..][..n - k];
    }
  }

  predicate HasText(messages: seq<Message>, i: int) {
    0 <= i < |messages| && Truthy(messages[i].text)
  }

  lemma HasTextSnoc(messages: seq<Message>, i: int)
    requires messages != []
    ensures HasText(messages, i) <==>
            HasText(messages[..|messages| - 1], i) || (i == |messages| - 1 && Truthy(messages[i].text))
  {}

  lemma {:induction false} KeptCount(messages: seq<Message>)
    ensures |Kept(messages)| <= |messages|
    ensures |Kept(messages)| == |messages| <==> forall i | 0 <= i < |messages| :: HasText(messages, i)
    ensures Kept(messages) == [] <==> forall i | 0 <= i < |messages| :: !HasText(messages, i)
  {
    if messages != [] {
      var n := |messages| - 1;
      KeptCount(messages[..n]);
      forall i ensures HasText(messages, i) <==> HasText(messages[..n], i) || (i == n && Truthy(messages[n].text)) {
        HasTextSnoc(messages, i);
      }
      assert HasText(messages, n) <==> Truthy(messages[n].text);
    }
  }

  lemma {:induction false} KeptLength(messages: seq<Message>)
    ensures |Kept(messages)| <= |messages|
    ensures |Kept(messages)| == |messages| <==> forall i | 0 <= i < |messages| :: Truthy(messages[i].text)
    ensures Kept(messages) == [] <==> forall i | 0 <= i < |messages| :: !Truthy(messages[i].text)
  {
    KeptCount(messages);
    forall i | 0 <= i < |messages| ensures HasText(messages, i) <==> Truthy(messages[i].text) {}
  }

  /** Without gaps, what is kept of a prefix is a run of texts, followed only by empty messages. */
  lemma KeptWithoutGaps(messages: seq<Message>, k: nat)
    requires NoTextAfterGap(messages) && k <= |messages|
    ensures var n := |Kept(messages[..k])|;
            n <= k && (n < k ==> forall i | n <= i < |messages| :: !Truthy(messages[i].text))
  {
    var n := |Kept(messages[..k])|;
    KeptLength(messages[..k]);
    if n < k {
      var gap :| 0 <= gap < k && !Truthy(messages[..k][gap].text);
      if i :| n <= i < |messages| && Truthy(messages[i].text) {
        assert !Truthy(messages[gap].text);
        AllTextsKept(messages, i + 1, k);
        assert false;
      }
    }
  }

  lemma AllTextsKept(messages: seq<Message>, m: nat, k: nat)
    requires m <= k <= |messages| && forall i | 0 <= i < m :: Truthy(messages[i].text)
    ensures |Kept(messages[..k])| >= m
  {
    KeptSplits(messages[..k], m);
    assert messages[..k][..m] == messages[..m];
    KeptLength(messages[..m]);
  }

  lemma AbsorbWithoutGaps(messages: seq<Message>, k: nat, m: nat)
    requires NoTextAfterGap(messages) && k <= |messages| && m <= |messages|
    ensures Absorb(Kept(messages[..k]), messages[..m]) == Kept(messages[..if k < m then m else k])
  {
    var stored := Kept(messages[..k]);
    var n := |stored|;
    KeptWithoutGaps(messages, k);
    if n < m {
      var extra := messages[..m][n..];
      if n == k {
        KeptSplits(messages[..m], k);
        assert messages[..m][..k] == messages[..k];
      } else {
        NothingKept(messages, n, m);
        assert extra == messages[n..m];
        if k < m {
          NothingKept(messages, k, m);
          KeptSplits(messages[..m], k);
          assert messages[..m][..k] == messages[..k] && messages[..m][k..] == messages[k..m];
        }
      }
    }
  }

  lemma NothingKept(messages: seq<Message>, from: nat, to: nat)
    requires from <= to <= |messages| && forall i | from <= i < to :: !Truthy(messages[i].text)
    ensures Kept(messages[from..to]) == []
  {
    KeptLength(messages[from..to]);
  }

  /** Without gaps, any deliveries of prefixes leave exactly the longest prefix seen. */
  lemma {:induction false} ReplayConverges(transcript: seq<Message>, k: nat, lengths: seq<nat>)
    requires NoTextAfterGap(transcript) && k <= |transcript|
    requires forall i | 0 <= i < |lengths| :: lengths[i] <= |transcript|
    ensures Longest(k, lengths) <= |transcript|
    ensures Replay(Kept(transcript[..k]), transcript, lengths) == Kept(transcript[..Longest(k, lengths)])
  {
    LongestInRange(k, lengths, |transcript|);
    if lengths != [] {
      var last := |lengths| - 1;
      ReplayConverges(transcript, k, lengths[..last]);
      AbsorbWithoutGaps(transcript, Longest(k, lengths[..last]), lengths[last]);
    }
  }

  lemma {:induction false} DeliveredTwice(transcript: seq<Message>)
    ensures Longest(0, [|transcript|, |transcript|]) == |transcript|
    ensures Replay([], transcript, [|transcript|, |transcript|]) == Absorb(Kept(transcript), transcript)
  {
    var n: nat := |transcript|;
    var once: seq<nat> := [n];
    assert [n, n][..1] == once && once[..0] == [];
    assert transcript[..n] == transcript && transcript[0..] == transcript;
    assert Absorb([], transcript) == Kept(transcript);
    assert Replay([], transcript, once) == Kept(transcript);
    assert Longest(0, once) == n;
  }

  /** With a gap, delivering the whole transcript a second time stores some message twice. */
  lemma GapDuplicates(transcript: seq<Message>)
    requires !NoTextAfterGap(transcript)
    ensures Absorb(Kept(transcript), transcript) != Kept(transcript)
  {
    var n := |Kept(transcript)|;
    var i, j :| 0 <= i < j < |transcript| && !Truthy(transcript[i].text) && Truthy(transcript[j].text);
    KeptIsShorter(transcript, i);
    KeptSplits(transcript, n);
    if n <= j {
      KeptIsNotEmpty(transcript[n..], j - n);
    } else {
      KeptIsShorter(transcript[..n], i);
    }
  }

  lemma KeptIsShorter(messages: seq<Message>, i: nat)
    requires i < |messages| && !Truthy(messages[i].text)
    ensures |Kept(messages)| < |messages|
  {
    KeptLength(messages);
  }

  lemma KeptIsNotEmpty(messages: seq<Message>, i: nat)
    requires i < |messages| && Truthy(messages[i].text)
    ensures |Kept(messages)| > 0
  {
    KeptLength(messages);
  }

  ghost predicate LeavesLongestPrefix(transcript: seq<Message>, lengths: seq<nat>) {
    (forall i | 0 <= i < |lengths| :: lengths[i] <= |transcript|) ==>
      && Longest(0, lengths) <= |transcript|
      && Replay([], transcript, lengths) == Kept(transcript[..Longest(0, lengths)])
  }

  /**
   Deliveries of prefixes of a transcript, in any order and with repeats, always leave exactly the
   longest prefix seen if and only if no message without text stands before one with text.
   */
  lemma ConvergesExactlyWithoutGaps(transcript: seq<Message>)
    ensures NoTextAfterGap(transcript) <==> forall lengths: seq<nat> :: LeavesLongestPrefix(transcript, lengths)
  {
    if NoTextAfterGap(transcript) {
      forall lengths: seq<nat> | forall i | 0 <= i < |lengths| :: lengths[i] <= |transcript|
        ensures LeavesLongestPrefix(transcript, lengths)
      {
        ReplayConverges(transcript, 0, lengths);
        assert transcript[..0] == [];
      }
    } else {
      GapDuplicates(transcript);
      DeliveredTwice(transcript);
      assert transcript[..|transcript|] == transcript;
      assert !LeavesLongestPrefix(transcript, [|transcript|, |transcript|]);
    }
  }

  /**
   In the store: a completed session holding a prefix of a transcript without gaps ends, after any
   deliveries of prefixes of it, with exactly the longest prefix it has seen.
   */
  lemma {:induction false} DeliveriesConverge(s: State, id: Id, transcript: seq<Message>, k: nat, lengths: seq<nat>)
    requires id in s.sessions && s.sessions[id].status.Completed?
    requires NoTextAfterGap(transcript) && k <= |transcript| && Entries(s.turns, id) == Kept(transcript[..k])
    requires forall i | 0 <= i < |lengths| :: lengths[i] <= |transcript|
    ensures ValidRun(s, Deliveries(id, transcript, lengths))
    ensures Longest(k, lengths) <= |transcript|
    ensures Entries(After(s, Deliveries(id, transcript, lengths)).turns, id) == Kept(transcript[..Longest(k, lengths)])
  {
    DeliveriesReplay(s, id, transcript, lengths);
    ReplayConverges(transcript, k, lengths);
  }
}
