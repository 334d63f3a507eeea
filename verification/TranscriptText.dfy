/**
 The transcript printer of the summarizer and the transcript parser of the demo seeder: what parsing a
 printed transcript gives, for all turns.

 The printer labels each turn and joins the turns by line feeds; the parser trims lines and keeps those
 with a label. A turn comes back by its first line, followed by whatever its other lines parse to, so the
 exact condition for a round trip is about line breaks inside contents.
 */
module TranscriptText {
  import opened Text

  datatype Turn = Turn(role: string, content: string)

  const AGENT_LABEL := "Agente:"
  const LEAD_LABEL := "Lead:"

  function Label(role: string): string {
    if role == "agent" then AGENT_LABEL else LEAD_LABEL
  }

  function Printed(turn: Turn): string {
    Label(turn.role) + " " + turn.content
  }

  function Joined(lines: seq<string>): string {
    if lines == [] then ""
    else if |lines| == 1 then lines[0]
    else lines[0] + "\n" + Joined(lines[1..])
  }

  function PrintedAll(turns: seq<Turn>): (lines: seq<string>)
    ensures |lines| == |turns|
  {
    seq(|turns|, i requires 0 <= i < |turns| => Printed(turns[i]))
  }

  /** The printed transcript. */
  method FormatTranscript(turns: seq<Turn>) returns (text: string)
    ensures text == Joined(PrintedAll(turns))
  {
    var lines := [];
    for i := 0 to |turns|
      invariant lines == PrintedAll(turns)[..i]
    {
      var roleLabel := if turns[i].role == "agent" then AGENT_LABEL else LEAD_LABEL;
      lines := lines + [roleLabel + " " + turns[i].content];
    }
    assert PrintedAll(turns)[..|turns|] == PrintedAll(turns);
    text := Joined(lines);
  }

  /** What one raw line contributes: a labelled line is a turn, any other line is nothing. */
  function FromLine(raw: string): seq<Turn> {
    var line := Strip(raw);
    if AGENT_LABEL <= line then [Turn("agent", Strip(line[|AGENT_LABEL|..]))]
    else if LEAD_LABEL <= line then [Turn("user", Strip(line[|LEAD_LABEL|..]))]
    else []
  }

  function Parsed(text: string): seq<Turn> {
    Gather(SplitLines(text), FromLine)
  }

  /** The parsed transcript. */
  method ParseTranscript(text: string) returns (turns: seq<Turn>)
    ensures turns == Parsed(text)
  {
    turns := [];
    var lines := SplitLines(text);
    for i := 0 to |lines|
      invariant turns + Gather(lines[i..], FromLine) == Gather(lines, FromLine)
    {
      GatherCons(lines[i], lines[i + 1..], FromLine);
      assert lines[i..] == [lines[i]] + lines[i + 1..];
      var found := ParseLine(lines[i]);
      turns := turns + found;
    }
  }

  /** One raw line: blank lines are skipped, unlabelled ones ignored. */
  method ParseLine(raw: string) returns (found: seq<Turn>)
    ensures found == FromLine(raw)
  {
    var line := Strip(raw);
    found := [];
    if line == "" { return; }
    if AGENT_LABEL <= line {
      found := [Turn("agent", Strip(line[|AGENT_LABEL|..]))];
    } else if LEAD_LABEL <= line {
      found := [Turn("user", Strip(line[|LEAD_LABEL|..]))];
    }
  }

  lemma BlankLineIsNothing(line: string)
    requires Blank(line)
    ensures FromLine(line) == []
  {
    StripRightBlank(line);
  }

  /** A printed turn is "Agente: " or "Lead: " and its content; printed turns are joined by single line feeds. */
  lemma PrintedForm(turns: seq<Turn>, turn: Turn)
    ensures Printed(turn) == (if turn.role == "agent" then "Agente: " else "Lead: ") + turn.content
    ensures Joined(PrintedAll([])) == "" && Joined(PrintedAll([turn])) == Printed(turn)
    ensures turns != [] ==> Joined(PrintedAll(turns + [turn])) == Joined(PrintedAll(turns)) + ("\n" + Printed(turn))
  {
    assert "Agente:" + " " == "Agente: " && "Lead:" + " " == "Lead: ";
    assert PrintedAll([turn]) == [Printed(turn)];
    assert PrintedAll(turns + [turn]) == PrintedAll(turns) + [Printed(turn)];
    JoinedSnoc(PrintedAll(turns), Printed(turn));
  }

  lemma {:induction false} JoinedSnoc(lines: seq<string>, last: string)
    ensures lines != [] ==> Joined(lines + [last]) == Joined(lines) + ("\n" + last)
  {
    if |lines| == 1 {
      assert (lines + [last])[1..] == [last];
    } else if lines != [] {
      assert (lines + [last])[1..] == lines[1..] + [last];
      JoinedSnoc(lines[1..], last);
    }
  }

  // ---------- One printed turn ----------

  function NormalRole(role: string): string {
    if role == "agent" then "agent" else "user"
  }

  lemma StripAfterLabel(mark: string, x: string)
    requires mark == AGENT_LABEL || mark == LEAD_LABEL
    ensures mark <= Strip(mark + " " + x)
    ensures Strip(Strip(mark + " " + x)[|mark|..]) == Strip(x)
  {
    StripRightAppend(mark + " ", x);
    assert (mark + " ")[..|mark|] == mark;
    assert StripRight(mark + " ") == mark;
    assert mark + " " + x == (mark + " ") + x;
    var right := StripRight(mark + " " + x);
    assert !IsSpace(right[0]);
    if StripRight(x) == "" {
      assert right == mark && right[|mark|..] == "";
    } else {
      assert right[|mark|..] == " " + StripRight(x);
      StripRightAppend(" ", StripRight(x));
      StripRightTwice(x);
      assert (" " + StripRight(x))[1..] == StripRight(x);
    }
  }

  lemma PrintedLineParses(role: string, x: string)
    ensures FromLine(Label(role) + " " + x) == [Turn(NormalRole(role), Strip(x))]
  {
    StripAfterLabel(Label(role), x);
    var line := Strip(Label(role) + " " + x);
    if role != "agent" {
      assert line[0] == 'L';
      assert !(AGENT_LABEL <= line);
    }
  }

  /** The part of a content after its first line break. */
  function Continuation(content: string): string {
    if LineEnd(content) < |content| then content[LineEnd(content) + 1..] else ""
  }

  /** What one turn comes back as. */
  function RereadTurn(turn: Turn): seq<Turn> {
    [Turn(NormalRole(turn.role), Strip(turn.content[..LineEnd(turn.content)]))] + Parsed(Continuation(turn.content))
  }

  /** A printed turn parses to its first line under its label, followed by whatever its other lines parse to. */
  lemma PrintedTurnParses(turn: Turn)
    ensures Parsed(Printed(turn)) == RereadTurn(turn)
  {
    var prefix := Label(turn.role) + " ";
    LabelHasNoBreak(turn.role);
    BlankLineIsNothing("");
    PrintedLineParses(turn.role, turn.content[..LineEnd(turn.content)]);
    if LineEnd(turn.content) < |turn.content| {
      GatherPrefixed(prefix, turn.content, FromLine);
    } else {
      LineEndAppend(prefix, turn.content);
      GatherOneLine(prefix + turn.content, FromLine);
      EmptyParses();
      assert turn.content[..LineEnd(turn.content)] == turn.content;
    }
  }

  lemma EmptyParses()
    ensures Parsed("") == []
  {
    assert SplitLines("") == [];
  }

  lemma LabelHasNoBreak(role: string)
    ensures LineEnd(Label(role) + " ") == |Label(role) + " "|
  {
    var prefix := Label(role) + " ";
    assert forall i | 0 <= i < |prefix| :: !IsBreak(prefix[i]);
  }

  // ---------- A whole transcript ----------

  /** What a list of turns comes back as, turn by turn. */
  function Reread(turns: seq<Turn>): seq<Turn> {
    if turns == [] then [] else RereadTurn(turns[0]) + Reread(turns[1..])
  }

  lemma {:induction false} FormattedParses(turns: seq<Turn>)
    ensures Parsed(Joined(PrintedAll(turns))) == Reread(turns)
  {
    var lines := PrintedAll(turns);
    if turns == [] {
    } else {
      assert lines[1..] == PrintedAll(turns[1..]);
      PrintedTurnParses(turns[0]);
      FormattedParses(turns[1..]);
      if |turns| == 1 {
        assert Reread(turns[1..]) == [];
      } else {
        BlankLineIsNothing("");
        GatherJoin(lines[0], Joined(lines[1..]), FromLine);
        assert lines[0] + "\n" + Joined(lines[1..]) == lines[0] + ("\n" + Joined(lines[1..]));
      }
    }
  }

  function NormalTurn(turn: Turn): Turn {
    Turn(NormalRole(turn.role), Strip(turn.content))
  }

  /** The turns with trimmed contents and every role but `agent` read as `user`. */
  function Normalised(turns: seq<Turn>): seq<Turn> {
    if turns == [] then [] else [NormalTurn(turns[0])] + Normalised(turns[1..])
  }

  lemma BlankParsesToNothing(text: string)
    requires Blank(text)
    ensures Parsed(text) == []
  {
    forall line | Blank(line) ensures FromLine(line) == [] {
      BlankLineIsNothing(line);
    }
    GatherBlank(text, FromLine);
  }

  /** Trimming the first line gives the trimmed content exactly when nothing but whitespace follows it. */
  lemma FirstLineIsContentIff(content: string)
    ensures Strip(content[..LineEnd(content)]) == Strip(content) <==> Blank(Continuation(content))
  {
    var k := LineEnd(content);
    var first, rest := content[..k], content[k..];
    assert content == first + rest;
    if k < |content| {
      assert rest == [content[k]] + Continuation(content);
      BlankCons(content[k], Continuation(content));
      if Blank(rest) {
        StripRightAppend(first, rest);
        StripRightBlank(rest);
      } else {
        BreakInside(first, rest);
      }
    } else {
      assert first == content && Continuation(content) == "";
    }
  }

  lemma NoBreakInside(line: string)
    requires forall i | 0 <= i < |line| :: !IsBreak(line[i])
    ensures forall i | 0 <= i < |Strip(line)| :: !IsBreak(Strip(line)[i])
  {
    StripRightIsPrefix(line);
    StripLeftIsSuffix(StripRight(line));
  }

  /** With text after the break, the trimmed whole has more than the trimmed first line. */
  lemma BreakInside(first: string, rest: string)
    requires rest != "" && IsBreak(rest[0]) && !Blank(rest)
    requires forall i | 0 <= i < |first| :: !IsBreak(first[i])
    ensures Strip(first + rest) != Strip(first)
  {
    StripRightAppend(first, rest);
    StripRightBlank(rest);
    StripRightIsPrefix(rest);
    var whole := first + StripRight(rest);
    assert StripRight(rest)[0] == rest[0] && whole[|first|] == rest[0];
    StripLeftIsSuffix(whole);
    var cut := |whole| - |StripLeft(whole)|;
    NoBreakInside(first);
    if cut <= |first| {
      assert StripLeft(whole)[|first| - cut] == rest[0];
    } else {
      assert Blank(first) by {
        forall i | 0 <= i < |first| ensures IsSpace(first[i]) { assert whole[..cut][i] == first[i]; }
      }
      StripRightBlank(first);
      assert Strip(first) == "";
      StripLeftNonBlank(whole, rest);
    }
  }

  lemma StripLeftNonBlank(whole: string, rest: string)
    requires |StripRight(rest)| <= |whole| && whole[|whole| - |StripRight(rest)|..] == StripRight(rest)
    requires StripRight(rest) != ""
    ensures StripLeft(whole) != ""
  {
    StripRightKeepsLast(rest);
    StripLeftIsSuffix(whole);
    var last := |whole| - 1;
    assert whole[last] == StripRight(rest)[|StripRight(rest)| - 1];
    assert Blank(whole[..|whole| - |StripLeft(whole)|]);
    assert whole[..|whole|] == whole;
    assert !Blank(whole);
  }

  /**
   Parsing a printed transcript gives back its normalised turns if and only if no turn has text after its
   first line break.
   */
  lemma {:induction false} RoundTripIff(turns: seq<Turn>)
    ensures Parsed(Joined(PrintedAll(turns))) == Normalised(turns) <==>
            forall i | 0 <= i < |turns| :: Blank(Continuation(turns[i].content))
  {
    FormattedParses(turns);
    RereadIff(turns);
  }

  /** A turn comes back normalised, or its first line already differs. */
  lemma RereadTurnIs(turn: Turn)
    ensures Blank(Continuation(turn.content)) ==> RereadTurn(turn) == [NormalTurn(turn)]
    ensures RereadTurn(turn)[0] == NormalTurn(turn) <==> Blank(Continuation(turn.content))
  {
    FirstLineIsContentIff(turn.content);
    if Blank(Continuation(turn.content)) {
      BlankParsesToNothing(Continuation(turn.content));
    }
  }

  lemma {:induction false} RereadIff(turns: seq<Turn>)
    ensures Reread(turns) == Normalised(turns) <==> forall i | 0 <= i < |turns| :: Blank(Continuation(turns[i].content))
  {
    if turns != [] {
      var rest := turns[1..];
      RereadIff(rest);
      RereadTurnIs(turns[0]);
      CleanCons(turns);
      if Blank(Continuation(turns[0].content)) {
        SameHead(NormalTurn(turns[0]), Reread(rest), Normalised(rest));
      } else {
        OtherHead(RereadTurn(turns[0]), Reread(rest), NormalTurn(turns[0]), Normalised(rest));
      }
    }
  }

  lemma CleanCons(turns: seq<Turn>)
    requires turns != []
    ensures (forall i | 0 <= i < |turns| :: Blank(Continuation(turns[i].content)))
            <==> Blank(Continuation(turns[0].content))
                 && forall i | 0 <= i < |turns[1..]| :: Blank(Continuation(turns[1..][i].content))
  {
    if Blank(Continuation(turns[0].content)) && forall i | 0 <= i < |turns[1..]| :: Blank(Continuation(turns[1..][i].content)) {
      forall i | 0 <= i < |turns| ensures Blank(Continuation(turns[i].content)) {
        if i > 0 { assert turns[i] == turns[1..][i - 1]; }
      }
    }
  }

  lemma SameHead(head: Turn, a: seq<Turn>, b: seq<Turn>)
    ensures [head] + a == [head] + b <==> a == b
  {
    assert ([head] + a)[1..] == a && ([head] + b)[1..] == b;
  }

  lemma OtherHead(first: seq<Turn>, a: seq<Turn>, head: Turn, b: seq<Turn>)
    requires first != [] && first[0] != head
    ensures first + a != [head] + b
  {
    assert (first + a)[0] == first[0] && ([head] + b)[0] == head;
  }

  /** The ten characters at which Python ends a line. */
  predicate EndsLine(c: char) {
    || c == '\n' || c == '\U{0B}' || c == '\U{0C}' || c == '\r' || c == '\U{1C}' || c == '\U{1D}' || c == '\U{1E}'
    || c == '\U{85}' || c == '\U{2028}' || c == '\U{2029}'
  }

  /** The characters it strips: those, and spaces of all kinds. */
  predicate Spacing(c: char) {
    || EndsLine(c) || c == '\t' || c == ' ' || c == '\U{1F}' || c == '\U{A0}' || c == '\U{1680}'
    || c == '\U{2000}' || c == '\U{2001}' || c == '\U{2002}' || c == '\U{2003}' || c == '\U{2004}' || c == '\U{2005}'
    || c == '\U{2006}' || c == '\U{2007}' || c == '\U{2008}' || c == '\U{2009}' || c == '\U{200A}'
    || c == '\U{202F}' || c == '\U{205F}' || c == '\U{3000}'
  }

  lemma BreaksAndSpaces(c: char)
    ensures IsBreak(c) <==> EndsLine(c)
    ensures IsSpace(c) <==> Spacing(c)
  {}

  /** Nothing but whitespace stands after a line break. */
  predicate NothingAfterBreak(content: string) {
    forall j, k | 0 <= j < k < |content| && EndsLine(content[j]) :: Spacing(content[k])
  }

  lemma ContinuationIsBlankIff(content: string)
    ensures Blank(Continuation(content)) <==> NothingAfterBreak(content)
  {
    if NothingAfterBreak(content) {
      NothingAfterFirstBreak(content);
    } else {
      var j, k :| 0 <= j < k < |content| && EndsLine(content[j]) && !Spacing(content[k]);
      BreaksAndSpaces(content[j]);
      BreaksAndSpaces(content[k]);
      TextAfterBreak(content, j, k);
    }
  }

  lemma TextAfterBreak(content: string, j: nat, k: nat)
    requires j < k < |content| && IsBreak(content[j]) && !IsSpace(content[k])
    ensures !Blank(Continuation(content))
  {
    assert LineEnd(content) <= j;
    assert Continuation(content)[k - LineEnd(content) - 1] == content[k];
  }

  lemma NothingAfterFirstBreak(content: string)
    requires NothingAfterBreak(content)
    ensures Blank(Continuation(content))
  {
    var n := LineEnd(content);
    if n < |content| {
      BreaksAndSpaces(content[n]);
      forall i | 0 <= i < |Continuation(content)| ensures IsSpace(Continuation(content)[i]) {
        assert Spacing(content[n + 1 + i]);
        BreaksAndSpaces(content[n + 1 + i]);
      }
    }
  }

  /** The same condition on the characters of the contents. */
  lemma RoundTripCharacters(turns: seq<Turn>)
    ensures Parsed(Joined(PrintedAll(turns))) == Normalised(turns) <==>
            forall i | 0 <= i < |turns| :: NothingAfterBreak(turns[i].content)
  {
    RoundTripIff(turns);
    forall i | 0 <= i < |turns| ensures Blank(Continuation(turns[i].content)) <==> NothingAfterBreak(turns[i].content) {
      ContinuationIsBlankIff(turns[i].content);
    }
  }

  /** Trimming drops whitespace at both ends, all of it and nothing else. */
  lemma TrimmedExactly(s: string) returns (from: nat, to: nat)
    ensures from <= to <= |s| && Strip(s) == s[from..to]
    ensures forall i | 0 <= i < from || to <= i < |s| :: Spacing(s[i])
    ensures from < to ==> !Spacing(s[from]) && !Spacing(s[to - 1])
  {
    var right := StripRight(s);
    StripRightIsPrefix(s);
    StripLeftIsSuffix(right);
    from, to := |right| - |Strip(s)|, |right|;
    forall i | 0 <= i < from || to <= i < |s| ensures Spacing(s[i]) {
      BreaksAndSpaces(s[i]);
      assert if i < from then IsSpace(right[..from][i]) else IsSpace(s[to..][i - to]);
    }
    if from < to {
      StripRightKeepsLast(s);
      BreaksAndSpaces(s[from]);
      BreaksAndSpaces(s[to - 1]);
      assert right[from] == Strip(s)[0];
    }
  }

  predicate Plain(turn: Turn) {
    (turn.role == "agent" || turn.role == "user") && LineEnd(turn.content) == |turn.content| && Strip(turn.content) == turn.content
  }

  /** Agent and user turns without line breaks or outer whitespace come back exactly. */
  lemma {:induction false} RoundTrip(turns: seq<Turn>)
    requires forall t | t in turns :: Plain(t)
    ensures Parsed(Joined(PrintedAll(turns))) == turns
  {
    forall i | 0 <= i < |turns| ensures Blank(Continuation(turns[i].content)) {
      assert Plain(turns[i]);
    }
    RoundTripIff(turns);
    NormalisedPlain(turns);
  }

  lemma {:induction false} NormalisedPlain(turns: seq<Turn>)
    requires forall t | t in turns :: Plain(t)
    ensures Normalised(turns) == turns
  {
    if turns != [] {
      NormalisedPlain(turns[1..]);
      assert turns[0] in turns && Plain(turns[0]);
      assert turns == [turns[0]] + turns[1..];
    }
  }
}
