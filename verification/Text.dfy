/**
 Whitespace, stripping and line splitting of strings, as Python does them.

 Lines end at any of ten characters, and a carriage return before a line feed counts with it as one break.
 Stripping removes those characters and spaces of all kinds. The laws say what stripping keeps, and that
 processing a text line by line distributes over texts joined by a line feed.
 */
module Text {
  /** Characters that end a line. */
  predicate IsBreak(c: char) {
    c == '\n' || c == '\r' || '\U{0B}' <= c <= '\U{0C}' || '\U{1C}' <= c <= '\U{1E}' || c == '\U{85}'
    || '\U{2028}' <= c <= '\U{2029}'
  }

  predicate IsSpace(c: char) {
    IsBreak(c) || c == '\t' || c == '\U{1F}' || c == ' ' || c == '\U{A0}' || c == '\U{1680}'
    || '\U{2000}' <= c <= '\U{200A}' || c == '\U{202F}' || c == '\U{205F}' || c == '\U{3000}'
  }

  function StripRight(s: string): string {
    if s != [] && IsSpace(s[|s| - 1]) then StripRight(s[..|s| - 1]) else s
  }

  function StripLeft(s: string): string {
    if s != [] && IsSpace(s[0]) then StripLeft(s[1..]) else s
  }

  function Strip(s: string): string {
    StripLeft(StripRight(s))
  }

  predicate Blank(s: string) {
    forall i | 0 <= i < |s| :: IsSpace(s[i])
  }

  /** Position of the first line break, or the length. */
  function LineEnd(s: string): (k: nat)
    ensures k <= |s|
    ensures k < |s| ==> IsBreak(s[k])
    ensures forall i | 0 <= i < k :: !IsBreak(s[i])
  {
    if s == [] || IsBreak(s[0]) then 0 else 1 + LineEnd(s[1..])
  }

  /** Whether the first break is a carriage return followed by a line feed. */
  predicate BreaksWithTwo(text: string) {
    var k := LineEnd(text);
    k + 1 < |text| && text[k] == '\r' && text[k + 1] == '\n'
  }

  /** Where the text goes on after its first break. */
  function NextLine(text: string): (k: nat)
    requires LineEnd(text) < |text|
    ensures LineEnd(text) < k <= |text|
  {
    LineEnd(text) + if BreaksWithTwo(text) then 2 else 1
  }

  /** The lines of a text. */
  function SplitLines(s: string): seq<string>
    decreases |s|
  {
    if s == "" then []
    else if LineEnd(s) == |s| then [s]
    else [s[..LineEnd(s)]] + SplitLines(s[NextLine(s)..])
  }

  // ---------- Laws of stripping ----------

  lemma {:induction false} StripRightBlank(s: string)
    ensures StripRight(s) == "" <==> Blank(s)
  {
    if s != [] && IsSpace(s[|s| - 1]) {
      StripRightBlank(s[..|s| - 1]);
      assert s == s[..|s| - 1] + [s[|s| - 1]];
    }
  }

  lemma {:induction false} StripRightAppend(a: string, b: string)
    ensures StripRight(a + b) == if StripRight(b) == "" then StripRight(a) else a + StripRight(b)
  {
    if b == [] {
      assert a + b == a;
    } else {
      var n := |b| - 1;
      assert (a + b)[..|a| + n] == a + b[..n];
      StripRightAppend(a, b[..n]);
    }
  }

  lemma {:induction false} StripRightTwice(s: string)
    ensures StripRight(StripRight(s)) == StripRight(s)
  {
    if s != [] && IsSpace(s[|s| - 1]) {
      StripRightTwice(s[..|s| - 1]);
    }
  }

  lemma {:induction false} StripRightIsPrefix(s: string)
    ensures StripRight(s) <= s
    ensures Blank(s[|StripRight(s)|..])
  {
    if s != [] && IsSpace(s[|s| - 1]) {
      StripRightIsPrefix(s[..|s| - 1]);
      assert s == s[..|s| - 1] + [s[|s| - 1]];
      var r := |StripRight(s)|;
      forall i | 0 <= i < |s| - r ensures IsSpace(s[r..][i]) {
        if i < |s| - 1 - r { assert s[..|s| - 1][r..][i] == s[r..][i]; }
      }
    }
  }

  lemma {:induction false} StripLeftIsSuffix(s: string)
    ensures |StripLeft(s)| <= |s| && StripLeft(s) == s[|s| - |StripLeft(s)|..]
    ensures Blank(s[..|s| - |StripLeft(s)|])
    ensures StripLeft(s) != "" ==> !IsSpace(StripLeft(s)[0])
  {
    if s != [] && IsSpace(s[0]) {
      StripLeftIsSuffix(s[1..]);
      var k := |s| - |StripLeft(s)|;
      assert s[..k] == [s[0]] + s[1..][..k - 1];
    }
  }

  lemma {:induction false} StripRightKeepsLast(s: string)
    requires StripRight(s) != ""
    ensures !IsSpace(StripRight(s)[|StripRight(s)| - 1])
  {
    if IsSpace(s[|s| - 1]) {
      StripRightKeepsLast(s[..|s| - 1]);
    }
  }

  // ---------- Processing a text line by line ----------

  /** The results of `f` on the lines of a text, one after the other. */
  function Gather<T>(lines: seq<string>, f: string -> seq<T>): seq<T> {
    if lines == [] then [] else f(lines[0]) + Gather(lines[1..], f)
  }

  lemma GatherCons<T>(line: string, rest: seq<string>, f: string -> seq<T>)
    ensures Gather([line] + rest, f) == f(line) + Gather(rest, f)
  {
    assert ([line] + rest)[1..] == rest;
  }

  lemma GatherSplit<T>(text: string, line: string, rest: string, f: string -> seq<T>)
    requires SplitLines(text) == [line] + SplitLines(rest)
    ensures Gather(SplitLines(text), f) == f(line) + Gather(SplitLines(rest), f)
  {
    GatherCons(line, SplitLines(rest), f);
  }

  lemma SplitAtBreak(text: string)
    requires LineEnd(text) < |text|
    ensures SplitLines(text) == [text[..LineEnd(text)]] + SplitLines(text[NextLine(text)..])
  {}

  lemma GatherAtBreak<T>(text: string, f: string -> seq<T>)
    requires LineEnd(text) < |text|
    ensures Gather(SplitLines(text), f) == f(text[..LineEnd(text)]) + Gather(SplitLines(text[NextLine(text)..]), f)
  {
    SplitAtBreak(text);
    GatherSplit(text, text[..LineEnd(text)], text[NextLine(text)..], f);
  }

  lemma GatherOneLine<T>(text: string, f: string -> seq<T>)
    requires LineEnd(text) == |text| && f("") == []
    ensures Gather(SplitLines(text), f) == f(text)
  {
    if text != "" {
      assert [text] + [] == [text];
      GatherCons(text, [], f);
    }
  }

  lemma GatherAfterBreak<T>(text: string, f: string -> seq<T>)
    requires text != "" && text[0] == '\n' && f("") == []
    ensures Gather(SplitLines(text), f) == Gather(SplitLines(text[1..]), f)
  {
    assert text[..0] == "";
    GatherAtBreak(text, f);
  }

  lemma DropTwice(text: string, k: nat)
    requires k + 2 <= |text|
    ensures text[k + 1..][1..] == text[k + 2..]
  {}

  /** Splitting off the first line; where the break consists of two characters, an empty line is ignored. */
  lemma GatherFirstLine<T>(text: string, f: string -> seq<T>)
    requires LineEnd(text) < |text| && f("") == []
    ensures Gather(SplitLines(text), f) == f(text[..LineEnd(text)]) + Gather(SplitLines(text[LineEnd(text) + 1..]), f)
  {
    GatherAtBreak(text, f);
    if BreaksWithTwo(text) {
      GatherAfterBreak(text[LineEnd(text) + 1..], f);
      DropTwice(text, LineEnd(text));
    }
  }

  lemma GatherCut<T>(text: string, first: string, rest: string, f: string -> seq<T>)
    requires LineEnd(text) < |text| && f("") == []
    requires text[..LineEnd(text)] == first && text[LineEnd(text) + 1..] == rest
    ensures Gather(SplitLines(text), f) == f(first) + Gather(SplitLines(rest), f)
  {
    GatherFirstLine(text, f);
  }

  lemma {:induction false} LineEndAppend(a: string, b: string)
    ensures LineEnd(a) < |a| ==> LineEnd(a + b) == LineEnd(a)
    ensures LineEnd(a) == |a| ==> LineEnd(a + b) == |a| + LineEnd(b)
  {
    if a == [] {
      assert a + b == b;
    } else if !IsBreak(a[0]) {
      assert (a + b)[1..] == a[1..] + b;
      LineEndAppend(a[1..], b);
    }
  }

  lemma FirstLineOfPrefixed(prefix: string, text: string)
    requires LineEnd(prefix) == |prefix| && LineEnd(text) < |text|
    ensures var k, whole := LineEnd(text), prefix + text;
            && LineEnd(whole) == |prefix| + k < |whole|
            && whole[..LineEnd(whole)] == prefix + text[..k] && whole[LineEnd(whole) + 1..] == text[k + 1..]
  {
    LineEndAppend(prefix, text);
  }

  lemma CutBeforeTail(a: string, tail: string, k: nat)
    requires k <= |a|
    ensures (a + tail)[..k] == a[..k] && (a + tail)[k..] == a[k..] + tail
  {}

  lemma FirstLineOfExtended(a: string, tail: string, k: nat)
    requires k == LineEnd(a) < |a|
    ensures LineEnd(a + tail) == k
    ensures (a + tail)[..k] == a[..k]
    ensures (a + tail)[k + 1..] == a[k + 1..] + tail
  {
    LineEndAppend(a, tail);
    CutBeforeTail(a, tail, k);
    CutBeforeTail(a, tail, k + 1);
  }

  /** A first part without line breaks stays on the first line. */
  lemma GatherPrefixed<T>(prefix: string, text: string, f: string -> seq<T>)
    requires LineEnd(prefix) == |prefix| && LineEnd(text) < |text| && f("") == []
    ensures var k := LineEnd(text);
            Gather(SplitLines(prefix + text), f) == f(prefix + text[..k]) + Gather(SplitLines(text[k + 1..]), f)
  {
    FirstLineOfPrefixed(prefix, text);
    GatherCut(prefix + text, prefix + text[..LineEnd(text)], text[LineEnd(text) + 1..], f);
  }

  lemma GatherJoinOneLine<T>(a: string, b: string, f: string -> seq<T>)
    requires LineEnd(a) == |a| && f("") == []
    ensures Gather(SplitLines(a + ("\n" + b)), f) == Gather(SplitLines(a), f) + Gather(SplitLines(b), f)
  {
    var tail := "\n" + b;
    assert tail[0] == '\n' && tail[1..] == b && a + tail[..0] == a;
    GatherPrefixed(a, tail, f);
    GatherOneLine(a, f);
  }

  lemma GatherLater<T>(a: string, tail: string, k: nat, f: string -> seq<T>)
    requires k == LineEnd(a) < |a| && f("") == []
    ensures Gather(SplitLines(a + tail), f) == f(a[..k]) + Gather(SplitLines(a[k + 1..] + tail), f)
  {
    FirstLineOfExtended(a, tail, k);
    GatherCut(a + tail, a[..k], a[k + 1..] + tail, f);
  }

  /** Two texts joined by a line feed are processed one after the other. */
  lemma {:induction false} GatherJoin<T>(a: string, b: string, f: string -> seq<T>)
    requires f("") == []
    ensures Gather(SplitLines(a + ("\n" + b)), f) == Gather(SplitLines(a), f) + Gather(SplitLines(b), f)
    decreases |a|
  {
    if LineEnd(a) == |a| {
      GatherJoinOneLine(a, b, f);
    } else {
      var k := LineEnd(a);
      GatherFirstLine(a, f);
      GatherLater(a, "\n" + b, k, f);
      GatherJoin(a[k + 1..], b, f);
      Regroup(f(a[..k]), Gather(SplitLines(a[k + 1..]), f), Gather(SplitLines(b), f), Gather(SplitLines(a), f),
              Gather(SplitLines(a[k + 1..] + ("\n" + b)), f), Gather(SplitLines(a + ("\n" + b)), f));
    }
  }

  lemma Regroup<T>(head: seq<T>, later: seq<T>, rest: seq<T>, first: seq<T>, both: seq<T>, whole: seq<T>)
    requires first == head + later && both == later + rest && whole == head + both
    ensures whole == first + rest
  {}

  lemma BlankCons(c: char, s: string)
    ensures Blank([c] + s) <==> IsSpace(c) && Blank(s)
  {
    if Blank([c] + s) {
      assert ([c] + s)[0] == c;
      forall i | 0 <= i < |s| ensures IsSpace(s[i]) { assert ([c] + s)[i + 1] == s[i]; }
    }
  }

  lemma {:induction false} GatherBlank<T>(text: string, f: string -> seq<T>)
    requires Blank(text) && forall line | Blank(line) :: f(line) == []
    ensures Gather(SplitLines(text), f) == []
    decreases |text|
  {
    var k := LineEnd(text);
    assert Blank("") && Blank(text[..k]);
    if k < |text| {
      GatherFirstLine(text, f);
      GatherBlank(text[k + 1..], f);
    } else {
      GatherOneLine(text, f);
    }
  }
}
