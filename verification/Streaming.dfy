/**
 The streaming client: text is passed on as it arrives, tool-call fragments are regrouped by index and
 emitted when the stream has ended.
 */
module Streaming {
  import opened Prelude

  datatype Fragment = Fragment(index: int, id: Option<string>, name: Option<string>, arguments: Option<string>)

  datatype Choice = Choice(content: Option<string>, toolCalls: seq<Fragment>, finishReason: Option<string>)

  type Chunk = seq<Choice>

  datatype Event =
    | ContentDelta(text: string)
    | ToolCallDelta(id: string, name: string, arguments: string)
    | StreamDone(finishReason: string)

  // ---------- What a stream says ----------

  /** The choices of all chunks, one after the other. */
  function Choices(chunks: seq<Chunk>): seq<Choice> {
    if chunks == [] then [] else Choices(chunks[..|chunks| - 1]) + chunks[|chunks| - 1]
  }

  function Texts(choices: seq<Choice>): seq<Event> {
    if choices == [] then []
    else
      var last := choices[|choices| - 1];
      Texts(choices[..|choices| - 1]) + if last.content.Some? then [ContentDelta(last.content.value)] else []
  }

  function Fragments(choices: seq<Choice>): seq<Fragment> {
    if choices == [] then [] else Fragments(choices[..|choices| - 1]) + choices[|choices| - 1].toolCalls
  }

  /** The last finish reason given, "stop" if there is none. */
  function FinishReason(choices: seq<Choice>): string {
    if choices == [] then "stop"
    else if Truthy(choices[|choices| - 1].finishReason) then choices[|choices| - 1].finishReason.value
    else FinishReason(choices[..|choices| - 1])
  }

  /** Indices in order of first appearance. */
  function Indices(fragments: seq<Fragment>): seq<int> {
    if fragments == [] then []
    else
      var before := Indices(fragments[..|fragments| - 1]);
      var index := fragments[|fragments| - 1].index;
      if index in before then before else before + [index]
  }

  function OrEmpty(s: Option<string>): string {
    if s.Some? then s.value else ""
  }

  /** The call with the given index: every part is the concatenation of that index's fragments. */
  function Joined(fragments: seq<Fragment>, index: int): (call: Event)
    ensures call.ToolCallDelta?
  {
    if fragments == [] then ToolCallDelta("", "", "")
    else
      var before := Joined(fragments[..|fragments| - 1], index);
      var last := fragments[|fragments| - 1];
      if last.index != index then before
      else ToolCallDelta(before.id + OrEmpty(last.id), before.name + OrEmpty(last.name),
                         before.arguments + OrEmpty(last.arguments))
  }

  function Calls(fragments: seq<Fragment>): (calls: seq<Event>)
    ensures |calls| == |Indices(fragments)|
  {
    seq(|Indices(fragments)|, i requires 0 <= i < |Indices(fragments)| => Joined(fragments, Indices(fragments)[i]))
  }

  /** Everything emitted for a stream that ends cleanly. */
  function Events(choices: seq<Choice>): seq<Event> {
    Texts(choices)
    + (if FinishReason(choices) == "tool_calls" then Calls(Fragments(choices)) else [])
    + [StreamDone(FinishReason(choices))]
  }

  // ---------- A stream read from the front ----------

  function Flat<T>(parts: seq<seq<T>>): seq<T> {
    if parts == [] then [] else parts[0] + Flat(parts[1..])
  }

  function Concat(parts: seq<string>): string {
    if parts == [] then "" else parts[0] + Concat(parts[1..])
  }

  /** The contents that are present. */
  function Contents(choices: seq<Choice>): seq<string> {
    if choices == [] then []
    else (if choices[0].content.Some? then [choices[0].content.value] else []) + Contents(choices[1..])
  }

  function Sent(choices: seq<Choice>): seq<Fragment> {
    if choices == [] then [] else choices[0].toolCalls + Sent(choices[1..])
  }

  datatype Column = Ids | Names | Arguments

  /** What a fragment adds to a column of its call. */
  function Part(f: Fragment, column: Column): string {
    match column
    case Ids => if f.id.Some? then f.id.value else ""
    case Names => if f.name.Some? then f.name.value else ""
    case Arguments => if f.arguments.Some? then f.arguments.value else ""
  }

  /** The parts sent for one index, in the order of the stream. */
  function Parts(fragments: seq<Fragment>, index: int, column: Column): seq<string> {
    if fragments == [] then []
    else (if fragments[0].index == index then [Part(fragments[0], column)] else []) + Parts(fragments[1..], index, column)
  }

  /** `reason` is the last finish reason that is present and not empty, or "stop". */
  ghost predicate LastReason(choices: seq<Choice>, reason: string) {
    || (reason == "stop" && forall i | 0 <= i < |choices| :: choices[i].finishReason in {None, Some("")})
    || exists k :: 0 <= k < |choices| && choices[k].finishReason == Some(reason) && reason != ""
                   && forall i | k < i < |choices| :: choices[i].finishReason in {None, Some("")}
  }

  /** The first events are the contents in order. */
  ghost predicate StartsWithContents(events: seq<Event>, contents: seq<string>) {
    |contents| <= |events| && forall i | 0 <= i < |contents| :: events[i] == ContentDelta(contents[i])
  }

  /** The id, name and arguments of the call are the parts sent for its index, joined in that order. */
  predicate IsCall(call: Event, fragments: seq<Fragment>, index: int) {
    && call.ToolCallDelta?
    && call.id == Concat(Parts(fragments, index, Ids))
    && call.name == Concat(Parts(fragments, index, Names))
    && call.arguments == Concat(Parts(fragments, index, Arguments))
  }

  /**
   What a stream that ends cleanly amounts to: its contents; then, after `tool_calls`, for each index in
   order of appearance one call whose id, name and arguments are the parts sent for that index, joined in
   the order of the stream; then the end.
   */
  ghost predicate IsStream(events: seq<Event>, choices: seq<Choice>) {
    var n, fragments := |Contents(choices)|, Sent(choices);
    var order := Indices(fragments);
    && events != [] && events[|events| - 1].StreamDone? && LastReason(choices, events[|events| - 1].finishReason)
    && StartsWithContents(events, Contents(choices))
    && |events| == n + (if events[|events| - 1].finishReason == "tool_calls" then |order| else 0) + 1
    && forall j | 0 <= j < |events| - n - 1 ::
         IsCall(events[n + j], fragments, order[j])
  }

  lemma {:induction false} FlatSnoc<T>(parts: seq<seq<T>>, last: seq<T>)
    ensures Flat(parts + [last]) == Flat(parts) + last
  {
    if parts == [] {
      assert [last][1..] == [];
    } else {
      assert (parts + [last])[1..] == parts[1..] + [last];
      FlatSnoc(parts[1..], last);
    }
  }

  lemma {:induction false} ConcatAppend(a: seq<string>, b: seq<string>)
    ensures Concat(a + b) == Concat(a) + Concat(b)
  {
    if a == [] {
      assert a + b == b;
    } else {
      assert (a + b)[1..] == a[1..] + b;
      ConcatAppend(a[1..], b);
    }
  }

  lemma {:induction false} PartsSnoc(fragments: seq<Fragment>, last: Fragment, index: int, column: Column)
    ensures Parts(fragments + [last], index, column)
         == if last.index == index then Parts(fragments, index, column) + [Part(last, column)] else Parts(fragments, index, column)
  {
    if fragments == [] {
      assert fragments + [last] == [last] && [last][1..] == [];
    } else {
      assert (fragments + [last])[1..] == fragments[1..] + [last];
      PartsSnoc(fragments[1..], last, index, column);
    }
  }

  function InColumn(call: Event, column: Column): string
    requires call.ToolCallDelta?
  {
    match column
    case Ids => call.id
    case Names => call.name
    case Arguments => call.arguments
  }

  lemma ConcatSnoc(parts: seq<string>, last: string)
    ensures Concat(parts + [last]) == Concat(parts) + last
  {
    ConcatAppend(parts, [last]);
    assert [last][1..] == [] && Concat([last]) == last;
  }

  lemma {:induction false} JoinedColumn(fragments: seq<Fragment>, index: int, column: Column)
    ensures InColumn(Joined(fragments, index), column) == Concat(Parts(fragments, index, column))
  {
    if fragments != [] {
      var before, last := fragments[..|fragments| - 1], fragments[|fragments| - 1];
      JoinedColumn(before, index, column);
      PartsSnoc(before, last, index, column);
      ConcatSnoc(Parts(before, index, column), Part(last, column));
      assert fragments == before + [last];
    }
  }

  /** A call collected fragment by fragment is the concatenation of the parts in the order of the stream. */
  lemma {:induction false} JoinedIsConcatenation(fragments: seq<Fragment>, index: int)
    ensures IsCall(Joined(fragments, index), fragments, index)
  {
    JoinedColumn(fragments, index, Ids);
    JoinedColumn(fragments, index, Names);
    JoinedColumn(fragments, index, Arguments);
  }

  lemma {:induction false} ChoicesAreFlat(chunks: seq<Chunk>)
    ensures Choices(chunks) == Flat(chunks)
  {
    if chunks != [] {
      var n := |chunks| - 1;
      ChoicesAreFlat(chunks[..n]);
      FlatSnoc(chunks[..n], chunks[n]);
      assert chunks == chunks[..n] + [chunks[n]];
    }
  }

  lemma {:induction false} ContentsSnoc(choices: seq<Choice>, last: Choice)
    ensures Contents(choices + [last]) == Contents(choices) + if last.content.Some? then [last.content.value] else []
    ensures Sent(choices + [last]) == Sent(choices) + last.toolCalls
  {
    if choices == [] {
      assert choices + [last] == [last] && [last][1..] == [];
    } else {
      assert (choices + [last])[1..] == choices[1..] + [last];
      ContentsSnoc(choices[1..], last);
    }
  }

  lemma {:induction false} TextsAreContents(choices: seq<Choice>)
    ensures |Texts(choices)| == |Contents(choices)| && StartsWithContents(Texts(choices), Contents(choices))
    ensures Fragments(choices) == Sent(choices)
  {
    if choices != [] {
      var n := |choices| - 1;
      TextsAreContents(choices[..n]);
      ContentsSnoc(choices[..n], choices[n]);
      assert choices == choices[..n] + [choices[n]];
    }
  }

  lemma {:induction false} FinishReasonIsLast(choices: seq<Choice>)
    ensures LastReason(choices, FinishReason(choices))
  {
    if choices != [] {
      var n := |choices| - 1;
      if Truthy(choices[n].finishReason) {
        assert choices[n].finishReason == Some(FinishReason(choices));
      } else {
        FinishReasonIsLast(choices[..n]);
        EmptyReasonChangesNothing(choices, FinishReason(choices));
      }
    }
  }

  lemma EmptyReasonChangesNothing(choices: seq<Choice>, reason: string)
    requires choices != [] && !Truthy(choices[|choices| - 1].finishReason)
    requires LastReason(choices[..|choices| - 1], reason)
    ensures LastReason(choices, reason)
  {
    var before := choices[..|choices| - 1];
    assert choices[|choices| - 1].finishReason in {None, Some("")};
    if k :| 0 <= k < |before| && before[k].finishReason == Some(reason) && reason != ""
            && forall i | k < i < |before| :: before[i].finishReason in {None, Some("")} {
      assert choices[k].finishReason == Some(reason);
      forall i | k < i < |choices| ensures choices[i].finishReason in {None, Some("")} {
        if i < |before| { assert before[i] == choices[i]; }
      }
    } else {
      forall i | 0 <= i < |choices| ensures choices[i].finishReason in {None, Some("")} {
        if i < |before| { assert before[i] == choices[i]; }
      }
    }
  }

  lemma CallsAreConcatenations(fragments: seq<Fragment>)
    ensures forall j | 0 <= j < |Calls(fragments)| :: IsCall(Calls(fragments)[j], fragments, Indices(fragments)[j])
  {
    forall j | 0 <= j < |Calls(fragments)| ensures IsCall(Calls(fragments)[j], fragments, Indices(fragments)[j]) {
      JoinedIsConcatenation(fragments, Indices(fragments)[j]);
    }
  }

  lemma StreamFrom(events: seq<Event>, texts: seq<Event>, calls: seq<Event>, reason: string, choices: seq<Choice>)
    requires |texts| == |Contents(choices)| && StartsWithContents(texts, Contents(choices)) && LastReason(choices, reason)
    requires |calls| == |Indices(Sent(choices))|
    requires forall j | 0 <= j < |calls| :: IsCall(calls[j], Sent(choices), Indices(Sent(choices))[j])
    requires events == texts + (if reason == "tool_calls" then calls else []) + [StreamDone(reason)]
    ensures IsStream(events, choices)
  {
    var n := |texts|;
    assert events[|events| - 1] == StreamDone(reason);
    forall j | 0 <= j < |events| - n - 1 ensures IsCall(events[n + j], Sent(choices), Indices(Sent(choices))[j]) {
      assert events[n + j] == calls[j];
    }
  }

  /** The emitted events are the stream, read from the front. */
  lemma EventsAreStream(chunks: seq<Chunk>)
    ensures IsStream(Events(Choices(chunks)), Flat(chunks))
  {
    var choices := Flat(chunks);
    ChoicesAreFlat(chunks);
    TextsAreContents(choices);
    FinishReasonIsLast(choices);
    CallsAreConcatenations(Sent(choices));
    StreamFrom(Events(choices), Texts(choices), Calls(Fragments(choices)), FinishReason(choices), choices);
  }

  // ---------- The client ----------

  /** What the client holds while it reads: text already emitted, and calls by index in order of insertion. */
  datatype Progress = Progress(events: seq<Event>, order: seq<int>, calls: map<int, Event>, finishReason: string)

  ghost predicate Collected(order: seq<int>, calls: map<int, Event>, fragments: seq<Fragment>) {
    && order == Indices(fragments)
    && calls.Keys == (set i | i in order)
    && forall i | i in order :: calls[i] == Joined(fragments, i)
  }

  ghost predicate ReadSoFar(p: Progress, choices: seq<Choice>) {
    && p.events == Texts(choices)
    && p.finishReason == FinishReason(choices)
    && Collected(p.order, p.calls, Fragments(choices))
  }

  /** Accumulates one fragment. */
  method Accumulate(order: seq<int>, calls: map<int, Event>, f: Fragment, ghost seen: seq<Fragment>)
    returns (order': seq<int>, calls': map<int, Event>)
    requires Collected(order, calls, seen)
    ensures Collected(order', calls', seen + [f])
  {
    assert (seen + [f])[..|seen|] == seen;
    order', calls' := order, calls;
    if f.index !in calls' {
      JoinedUnseen(seen, f.index);
      order', calls' := order' + [f.index], calls'[f.index := ToolCallDelta("", "", "")];
    }
    var call := calls'[f.index];
    if Truthy(f.id) {
      call := call.(id := call.id + f.id.value);
    }
    if Truthy(f.name) {
      call := call.(name := call.name + f.name.value);
    }
    if Truthy(f.arguments) {
      call := call.(arguments := call.arguments + f.arguments.value);
    }
    calls' := calls'[f.index := call];
  }

  lemma {:induction false} JoinedUnseen(fragments: seq<Fragment>, index: int)
    requires index !in Indices(fragments)
    ensures Joined(fragments, index) == ToolCallDelta("", "", "")
  {
    if fragments != [] {
      JoinedUnseen(fragments[..|fragments| - 1], index);
    }
  }

  /** One choice of a chunk: its text is emitted, its fragments are accumulated. */
  method ReadChoice(p: Progress, choice: Choice, ghost seen: seq<Choice>) returns (p': Progress)
    requires ReadSoFar(p, seen)
    ensures ReadSoFar(p', seen + [choice])
  {
    assert (seen + [choice])[..|seen|] == seen;
    p' := p;
    if choice.content.Some? {
      p' := p'.(events := p'.events + [ContentDelta(choice.content.value)]);
    }
    var order, calls := p'.order, p'.calls;
    ghost var before := Fragments(seen);
    assert before + choice.toolCalls[..0] == before;
    for k := 0 to |choice.toolCalls|
      invariant Collected(order, calls, before + choice.toolCalls[..k])
    {
      assert before + choice.toolCalls[..k + 1] == before + choice.toolCalls[..k] + [choice.toolCalls[k]];
      order, calls := Accumulate(order, calls, choice.toolCalls[k], before + choice.toolCalls[..k]);
    }
    assert choice.toolCalls[..|choice.toolCalls|] == choice.toolCalls;
    p' := p'.(order := order, calls := calls);
    if Truthy(choice.finishReason) {
      p' := p'.(finishReason := choice.finishReason.value);
    }
  }

  method ReadChunks(chunks: seq<Chunk>) returns (p: Progress)
    ensures ReadSoFar(p, Choices(chunks))
  {
    p := Progress([], [], map[], "stop");
    for c := 0 to |chunks|
      invariant ReadSoFar(p, Choices(chunks[..c]))
    {
      var chunk := chunks[c];
      ghost var before := Choices(chunks[..c]);
      assert before + chunk[..0] == before;
      for k := 0 to |chunk|
        invariant ReadSoFar(p, before + chunk[..k])
      {
        assert before + chunk[..k + 1] == before + chunk[..k] + [chunk[k]];
        p := ReadChoice(p, chunk[k], before + chunk[..k]);
      }
      assert chunk[..|chunk|] == chunk && chunks[..c + 1][..c] == chunks[..c];
    }
    assert chunks[..|chunks|] == chunks;
  }

  /**
   Streams the events of the given chunks. `broken` says that the API failed after them: then only the
   texts received so far have been emitted and the caller sees an error.
   */
  method StreamEvents(chunks: seq<Chunk>, broken: bool) returns (events: seq<Event>, ok: bool)
    ensures ok == !broken
    ensures events == if broken then Texts(Choices(chunks)) else Events(Choices(chunks))
    ensures !broken ==> IsStream(events, Flat(chunks))
    ensures broken ==> |events| == |Contents(Flat(chunks))| && StartsWithContents(events, Contents(Flat(chunks)))
  {
    var p := ReadChunks(chunks);
    EventsAreStream(chunks);
    BrokenStream(chunks);
    events, ok := p.events, !broken;
    if !broken {
      if p.finishReason == "tool_calls" {
        events := EmitCalls(p, Fragments(Choices(chunks)));
      }
      events := events + [StreamDone(p.finishReason)];
    }
  }

  lemma BrokenStream(chunks: seq<Chunk>)
    ensures |Texts(Choices(chunks))| == |Contents(Flat(chunks))|
    ensures StartsWithContents(Texts(Choices(chunks)), Contents(Flat(chunks)))
  {
    ChoicesAreFlat(chunks);
    TextsAreContents(Flat(chunks));
  }

  /** The collected calls, in order of insertion, after what has been emitted. */
  method EmitCalls(p: Progress, ghost fragments: seq<Fragment>) returns (events: seq<Event>)
    requires Collected(p.order, p.calls, fragments)
    ensures events == p.events + Calls(fragments)
  {
    events := p.events;
    ghost var calls := Calls(fragments);
    for i := 0 to |p.order|
      invariant events == p.events + calls[..i]
    {
      assert calls[..i + 1] == calls[..i] + [calls[i]];
      events := events + [p.calls[p.order[i]]];
    }
    assert calls[..|p.order|] == calls;
  }

  // ---------- Regrouping ----------

  /** The fragments of one index, in order. */
  function Projection(fragments: seq<Fragment>, index: int): seq<Fragment> {
    if fragments == [] then []
    else
      Projection(fragments[..|fragments| - 1], index) +
      if fragments[|fragments| - 1].index == index then [fragments[|fragments| - 1]] else []
  }

  lemma {:induction false} JoinedOfProjection(fragments: seq<Fragment>, index: int)
    ensures Joined(fragments, index) == Joined(Projection(fragments, index), index)
    ensures index in Indices(fragments) <==> Projection(fragments, index) != []
  {
    if fragments != [] {
      var n := |fragments| - 1;
      JoinedOfProjection(fragments[..n], index);
      if fragments[n].index == index {
        var p := Projection(fragments[..n], index);
        assert (p + [fragments[n]])[..|p|] == p;
      } else {
        assert Projection(fragments, index) == Projection(fragments[..n], index);
      }
    }
  }

  /**
   How the fragments of different indices interleave changes no call: streams that agree on every
   index's own fragments have the same indices, with the same id, name and arguments for each.
   */
  lemma InterleavingIsIrrelevant(a: seq<Fragment>, b: seq<Fragment>, index: int)
    requires Projection(a, index) == Projection(b, index)
    ensures Joined(a, index) == Joined(b, index)
    ensures index in Indices(a) <==> index in Indices(b)
  {
    JoinedOfProjection(a, index);
    JoinedOfProjection(b, index);
  }

  lemma {:induction false} ProjectionAppend(a: seq<Fragment>, b: seq<Fragment>, index: int)
    ensures Projection(a + b, index) == Projection(a, index) + Projection(b, index)
  {
    if b == [] {
      assert a + b == a;
    } else {
      assert (a + b)[..|a + b| - 1] == a + b[..|b| - 1];
      ProjectionAppend(a, b[..|b| - 1], index);
    }
  }

  /** Swapping neighbours of different indices is such a change of interleaving. */
  lemma SwapKeepsCalls(before: seq<Fragment>, f: Fragment, g: Fragment, after: seq<Fragment>, index: int)
    requires f.index != g.index
    ensures Joined(before + [f, g] + after, index) == Joined(before + [g, f] + after, index)
  {
    ProjectionAppend(before + [f, g], after, index);
    ProjectionAppend(before + [g, f], after, index);
    ProjectionAppend(before, [f, g], index);
    ProjectionAppend(before, [g, f], index);
    assert [f, g][..1] == [f] && [g, f][..1] == [g] && [f][..0] == [] && [g][..0] == [];
    assert Projection([f, g], index) == Projection([g, f], index);
    InterleavingIsIrrelevant(before + [f, g] + after, before + [g, f] + after, index);
  }

  /** Position of the first fragment of an index. */
  function FirstAt(fragments: seq<Fragment>, index: int): nat {
    if fragments == [] || fragments[0].index == index then 0 else 1 + FirstAt(fragments[1..], index)
  }

  lemma {:induction false} FirstAtPrefix(fragments: seq<Fragment>, k: nat, index: int)
    requires k <= |fragments|
    ensures FirstAt(fragments[..k], index) == if FirstAt(fragments, index) < k then FirstAt(fragments, index) else k
  {
    if k > 0 && fragments[0].index != index {
      assert fragments[..k][1..] == fragments[1..][..k - 1];
      FirstAtPrefix(fragments[1..], k - 1, index);
    }
  }

  lemma {:induction false} FirstAtBounds(fragments: seq<Fragment>, index: int)
    ensures FirstAt(fragments, index) <= |fragments|
    ensures FirstAt(fragments, index) < |fragments| ==> fragments[FirstAt(fragments, index)].index == index
    ensures forall i | 0 <= i < FirstAt(fragments, index) :: fragments[i].index != index
  {
    if fragments != [] && fragments[0].index != index {
      FirstAtBounds(fragments[1..], index);
      forall i | 0 <= i < FirstAt(fragments, index) ensures fragments[i].index != index {
        if i > 0 { assert fragments[i] == fragments[1..][i - 1]; }
      }
    }
  }

  /** Calls are emitted once per index that occurs, in the order in which the indices first occur. */
  lemma {:induction false} IndicesInOrderOfAppearance(fragments: seq<Fragment>)
    ensures forall index :: index in Indices(fragments) <==> FirstAt(fragments, index) < |fragments|
    ensures forall i, j | 0 <= i < j < |Indices(fragments)| ::
              FirstAt(fragments, Indices(fragments)[i]) < FirstAt(fragments, Indices(fragments)[j])
  {
    if fragments != [] {
      var n := |fragments| - 1;
      var last := fragments[n].index;
      IndicesInOrderOfAppearance(fragments[..n]);
      forall index ensures FirstAt(fragments[..n], index) == if FirstAt(fragments, index) < n then FirstAt(fragments, index) else n
      ensures index == last ==> FirstAt(fragments, index) <= n
      ensures index != last && FirstAt(fragments, index) >= n ==> FirstAt(fragments, index) == |fragments|
      {
        FirstAtPrefix(fragments, n, index);
        FirstAtBounds(fragments, index);
      }
      var before := Indices(fragments[..n]);
      forall i, j | 0 <= i < j < |Indices(fragments)|
        ensures FirstAt(fragments, Indices(fragments)[i]) < FirstAt(fragments, Indices(fragments)[j])
      {
        assert before[i] in before;
        if j < |before| { assert before[j] in before; }
      }
    }
  }
}
