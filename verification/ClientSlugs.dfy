/**
 Identifiers of new clients: a slug of the display name, numbered until it is free.

 Slugs are made in steps over the characters of the name, for clients and for agents in different ones;
 both are shown to be the words of the name joined by hyphens. The allocation loop, the tables of clients
 and agents, and the rows a new client starts with follow.
 */
module ClientSlugs {
  import opened Prelude
  import Text

  predicate IsAlnum(c: char) {
    'a' <= c <= 'z' || '0' <= c <= '9'
  }

  /** Lower-case letters, digits and hyphens, with a letter or a digit at both ends. */
  predicate IsSlug(s: string) {
    && s != "" && IsAlnum(s[0]) && IsAlnum(s[|s| - 1])
    && forall c | c in s :: IsAlnum(c) || c == '-'
  }

  predicate NoDoubleHyphen(s: string) {
    forall i | 0 < i < |s| :: s[i] != '-' || s[i - 1] != '-'
  }

  /** What the validator of a given identifier lets through: its end anchor also matches before a final line feed. */
  predicate PassesValidator(s: string) {
    IsSlug(s) || (s != "" && s[|s| - 1] == '\n' && IsSlug(s[..|s| - 1]))
  }

  /** Number of leading characters that are (or are not) letters or digits. */
  function RunEnd(s: string, alnum: bool): (k: nat)
    ensures k <= |s|
    ensures forall i | 0 <= i < k :: IsAlnum(s[i]) == alnum
    ensures k < |s| ==> IsAlnum(s[k]) != alnum
  {
    if s == "" || IsAlnum(s[0]) != alnum then 0 else 1 + RunEnd(s[1..], alnum)
  }

  /** Every maximal run of other characters replaced by one hyphen. */
  function Dashed(s: string): string
    decreases |s|
  {
    if s == "" then ""
    else if IsAlnum(s[0]) then [s[0]] + Dashed(s[1..])
    else "-" + Dashed(s[RunEnd(s, false)..])
  }

  function DropLeadingDashes(s: string): string {
    if s != "" && s[0] == '-' then DropLeadingDashes(s[1..]) else s
  }

  function DropTrailingDashes(s: string): string {
    if s != "" && s[|s| - 1] == '-' then DropTrailingDashes(s[..|s| - 1]) else s
  }

  /** The slug of a display name that has already been put in lower case. */
  function Slugify(lowered: string): string {
    var slug := DropTrailingDashes(DropLeadingDashes(Dashed(Text.Strip(lowered))));
    if slug == "" then "client" else slug
  }

  // ---------- A slug is the words of the name, joined by hyphens ----------

  /** The maximal runs of letters and digits, in order. */
  function Words(s: string): seq<string>
    decreases |s|
  {
    if s == "" then []
    else if IsAlnum(s[0]) then [s[..RunEnd(s, true)]] + Words(s[RunEnd(s, true)..])
    else Words(s[1..])
  }

  function Joined(words: seq<string>): string {
    if words == [] then ""
    else if |words| == 1 then words[0]
    else words[0] + "-" + Joined(words[1..])
  }

  /** The words that name a client; a name without any counts as the word "client". */
  function NameWords(s: string): seq<string> {
    if Words(s) == [] then ["client"] else Words(s)
  }

  predicate IsWord(s: string) {
    s != "" && forall c | c in s :: IsAlnum(c)
  }

  predicate AllWords(words: seq<string>) {
    forall i | 0 <= i < |words| :: IsWord(words[i])
  }

  predicate NoLetters(s: string) {
    forall i | 0 <= i < |s| :: !IsAlnum(s[i])
  }

  lemma {:induction false} RunEndAppend(a: string, b: string, alnum: bool)
    ensures RunEnd(a + b, alnum) == if RunEnd(a, alnum) < |a| then RunEnd(a, alnum) else |a| + RunEnd(b, alnum)
  {
    if a == "" {
      assert a + b == b;
    } else if IsAlnum(a[0]) == alnum {
      assert (a + b)[1..] == a[1..] + b;
      RunEndAppend(a[1..], b, alnum);
    }
  }

  lemma {:induction false} WordsAreWords(s: string)
    ensures AllWords(Words(s))
    decreases |s|
  {
    if s != "" {
      WordsAreWords(s[if IsAlnum(s[0]) then RunEnd(s, true) else 1..]);
    }
  }

  lemma {:induction false} WordsSkipPrefix(a: string, b: string)
    requires NoLetters(a)
    ensures Words(a + b) == Words(b)
  {
    if a == "" {
      assert a + b == b;
    } else {
      assert (a + b)[1..] == a[1..] + b;
      WordsSkipPrefix(a[1..], b);
    }
  }

  lemma {:induction false} WordsSkipSuffix(a: string, b: string)
    requires NoLetters(b)
    ensures Words(a + b) == Words(a)
    decreases |a|
  {
    if a == "" {
      WordsSkipPrefix(b, "");
      assert a + b == b + "";
    } else if IsAlnum(a[0]) {
      var k := RunEnd(a, true);
      RunEndAppend(a, b, true);
      assert (a + b)[..k] == a[..k] && (a + b)[k..] == a[k..] + b;
      WordsSkipSuffix(a[k..], b);
    } else {
      assert (a + b)[1..] == a[1..] + b;
      WordsSkipSuffix(a[1..], b);
    }
  }

  lemma StrippingKeepsWords(s: string)
    ensures Words(Text.Strip(s)) == Words(s)
  {
    var right := Text.StripRight(s);
    var left := Text.StripLeft(right);
    Text.StripRightIsPrefix(s);
    Text.StripLeftIsSuffix(right);
    assert s == right + s[|right|..];
    WordsSkipSuffix(right, s[|right|..]);
    var k := |right| - |left|;
    assert right == right[..k] + left;
    WordsSkipPrefix(right[..k], left);
  }

  function Before(s: string): string {
    if s != "" && !IsAlnum(s[0]) then "-" else ""
  }

  function After(s: string): string {
    if Words(s) != [] && !IsAlnum(s[|s| - 1]) then "-" else ""
  }

  lemma {:induction false} DashedWordThen(word: string, rest: string)
    requires IsWord(word)
    ensures Dashed(word + rest) == word + Dashed(rest)
  {
    assert (word + rest)[1..] == word[1..] + rest;
    if |word| > 1 {
      DashedWordThen(word[1..], rest);
      assert word + Dashed(rest) == [word[0]] + (word[1..] + Dashed(rest));
    } else {
      assert word[1..] + rest == rest && [word[0]] == word;
    }
  }

  lemma AfterIsLocal(a: string, b: string)
    requires b != "" && Words(b) != [] && Words(a + b) != []
    ensures After(a + b) == After(b)
  {
    assert (a + b)[|a + b| - 1] == b[|b| - 1];
  }

  lemma {:induction false} NoWordsMeansNoLetters(s: string)
    ensures Words(s) == [] <==> NoLetters(s)
  {
    if s != "" && !IsAlnum(s[0]) {
      NoWordsMeansNoLetters(s[1..]);
      assert s == [s[0]] + s[1..];
    }
  }

  lemma WordsOfWordThen(word: string, rest: string)
    requires IsWord(word) && (rest == "" || !IsAlnum(rest[0]))
    ensures Words(word + rest) == [word] + Words(rest)
  {
    RunEndOfWord(word);
    RunEndAppend(word, rest, true);
    assert (word + rest)[..|word|] == word && (word + rest)[|word|..] == rest;
  }

  lemma JoinedCons(word: string, words: seq<string>)
    ensures Joined([word] + words) == if words == [] then word else word + "-" + Joined(words)
  {
    assert ([word] + words)[1..] == words;
  }

  lemma DashedAfterWord(word: string, rest: string)
    requires IsWord(word) && (rest == "" || !IsAlnum(rest[0]))
    requires Dashed(rest) == Before(rest) + Joined(Words(rest)) + After(rest)
    ensures Dashed(word + rest) == Joined(Words(word + rest)) + After(word + rest)
  {
    DashedWordThen(word, rest);
    WordsOfWordThen(word, rest);
    JoinedCons(word, Words(rest));
    if rest == "" {
      assert word + rest == word;
    } else {
      assert (word + rest)[|word + rest| - 1] == rest[|rest| - 1];
      if Words(rest) == [] {
        NoWordsMeansNoLetters(rest);
      } else {
        Reassociate(word, Joined(Words(rest)), After(rest));
      }
    }
  }

  lemma Reassociate(word: string, middle: string, last: string)
    ensures word + ("-" + middle + last) == word + "-" + middle + last
  {}

  /** Replacing runs leaves the words joined by hyphens, with one more hyphen at an end that is no letter or digit. */
  lemma {:induction false} DashedShape(s: string)
    ensures Dashed(s) == Before(s) + Joined(Words(s)) + After(s)
    decreases |s|
  {
    if s == "" {
    } else if IsAlnum(s[0]) {
      var k := RunEnd(s, true);
      assert s == s[..k] + s[k..];
      DashedShape(s[k..]);
      DashedAfterWord(s[..k], s[k..]);
    } else {
      var k := RunEnd(s, false);
      var rest := s[k..];
      assert s == s[..k] + rest;
      WordsSkipPrefix(s[..k], rest);
      DashedShape(rest);
      if Words(rest) != [] {
        AfterIsLocal(s[..k], rest);
      }
    }
  }

  lemma HyphenBetweenSlugs(word: string, tail: string)
    requires IsWord(word) && IsSlug(tail) && NoDoubleHyphen(tail)
    ensures IsSlug(word + "-" + tail) && NoDoubleHyphen(word + "-" + tail)
  {
    var s, n := word + "-" + tail, |word|;
    forall i | 0 < i < |s| ensures s[i] != '-' || s[i - 1] != '-' {
      if i < n {
        assert s[i] == word[i] && word[i] in word;
      } else if i == n {
        assert s[i - 1] == word[n - 1] && word[n - 1] in word;
      } else if i == n + 1 {
        assert s[i] == tail[0];
      } else {
        assert s[i] == tail[i - n - 1] && s[i - 1] == tail[i - n - 2];
      }
    }
    assert word[0] in word;
  }

  /** Joined words start and end with a letter or digit and never hold two hyphens in a row. */
  lemma {:induction false} JoinedIsSlug(words: seq<string>)
    requires words != [] && AllWords(words)
    ensures IsSlug(Joined(words)) && NoDoubleHyphen(Joined(words))
  {
    if |words| == 1 {
      forall i | 0 <= i < |words[0]| ensures IsAlnum(words[0][i]) { assert words[0][i] in words[0]; }
    } else {
      JoinedIsSlug(words[1..]);
      HyphenBetweenSlugs(words[0], Joined(words[1..]));
    }
  }

  lemma DropsLeading(dashes: string, s: string)
    requires s != "" && s[0] != '-' && (dashes == "" || dashes == "-")
    ensures DropLeadingDashes(dashes + s) == s
  {
    if dashes == "" {
      assert dashes + s == s;
    } else {
      assert (dashes + s)[1..] == s;
    }
  }

  lemma DropsTrailing(s: string, dashes: string)
    requires s != "" && s[|s| - 1] != '-' && (dashes == "" || dashes == "-")
    ensures DropTrailingDashes(s + dashes) == s
  {
    if dashes == "" {
      assert s + dashes == s;
    } else {
      assert (s + dashes)[..|s|] == s;
    }
  }

  lemma TrimmedCore(first: string, core: string, last: string)
    requires IsSlug(core) && (first == "" || first == "-") && (last == "" || last == "-")
    ensures DropTrailingDashes(DropLeadingDashes(first + core + last)) == core
  {
    assert first + core + last == first + (core + last);
    assert (core + last)[0] == core[0];
    DropsLeading(first, core + last);
    DropsTrailing(core, last);
  }

  /** Trimming a dashed text leaves its words joined by hyphens. */
  lemma TrimmedIsJoined(s: string)
    ensures DropTrailingDashes(DropLeadingDashes(Dashed(s))) == Joined(Words(s))
  {
    DashedShape(s);
    if Words(s) == [] {
      assert Dashed(s) == "" || Dashed(s) == "-";
    } else {
      WordsAreWords(s);
      JoinedIsSlug(Words(s));
      TrimmedCore(Before(s), Joined(Words(s)), After(s));
    }
  }

  /** The slug of a name consists of its words, joined by single hyphens. */
  lemma SlugIsJoinedWords(lowered: string)
    ensures Slugify(lowered) == Joined(NameWords(lowered))
  {
    StrippingKeepsWords(lowered);
    TrimmedIsJoined(Text.Strip(lowered));
    WordsAreWords(lowered);
    if Words(lowered) != [] {
      JoinedIsSlug(Words(lowered));
    }
  }

  /** Every slug is well formed, and never holds two hyphens in a row. */
  lemma SlugIsValid(lowered: string)
    ensures IsSlug(Slugify(lowered))
    ensures NoDoubleHyphen(Slugify(lowered))
  {
    SlugIsJoinedWords(lowered);
    WordsAreWords(lowered);
    assert IsWord("client");
    JoinedIsSlug(NameWords(lowered));
  }

  /** The letters and digits of a text, in order. */
  function LettersAndDigits(s: string): string {
    if s == "" then "" else (if 'a' <= s[0] <= 'z' || '0' <= s[0] <= '9' then [s[0]] else "") + LettersAndDigits(s[1..])
  }

  lemma {:induction false} LettersAppend(a: string, b: string)
    ensures LettersAndDigits(a + b) == LettersAndDigits(a) + LettersAndDigits(b)
  {
    if a == "" {
      assert a + b == b;
    } else {
      var head := LettersAndDigits([a[0]]);
      LettersCons(a);
      LettersCons(a + b);
      assert (a + b)[1..] == a[1..] + b && (a + b)[0] == a[0];
      LettersAppend(a[1..], b);
      Associate(head, LettersAndDigits(a[1..]), LettersAndDigits(b));
    }
  }

  lemma LettersCons(s: string)
    requires s != ""
    ensures LettersAndDigits(s) == LettersAndDigits([s[0]]) + LettersAndDigits(s[1..])
  {
    assert [s[0]][1..] == "" && LettersAndDigits("") == "";
  }

  lemma Associate(a: string, b: string, c: string)
    ensures a + (b + c) == a + b + c
  {}

  lemma {:induction false} LettersOfWord(word: string)
    requires IsWord(word)
    ensures LettersAndDigits(word) == word
  {
    assert word[0] in word && word == [word[0]] + word[1..];
    if |word| > 1 {
      LettersOfWord(word[1..]);
    }
  }

  lemma {:induction false} LettersOfWords(s: string)
    ensures LettersAndDigits(Joined(Words(s))) == LettersAndDigits(s)
    decreases |s|
  {
    if s != "" && IsAlnum(s[0]) {
      var k := RunEnd(s, true);
      assert s == s[..k] + s[k..];
      LettersOfWords(s[k..]);
      LettersAppend(s[..k], s[k..]);
      JoinedCons(s[..k], Words(s[k..]));
      LettersAfterWord(s[..k], Words(s[k..]));
    } else if s != "" {
      LettersOfWords(s[1..]);
    }
  }

  lemma LettersAfterWord(word: string, words: seq<string>)
    ensures LettersAndDigits(Joined([word] + words)) == LettersAndDigits(word) + LettersAndDigits(Joined(words))
  {
    JoinedCons(word, words);
    if words != [] {
      LettersAppend(word + "-", Joined(words));
      LettersAppend(word, "-");
    }
  }

  lemma {:induction false} NoLettersNoWords(s: string)
    ensures LettersAndDigits(s) == "" <==> Words(s) == []
    decreases |s|
  {
    if s != "" && !IsAlnum(s[0]) {
      NoLettersNoWords(s[1..]);
    }
  }

  /** A slug has the letters and digits of the name, all of them in order, and otherwise only hyphens. */
  lemma SlugKeepsLettersAndDigits(lowered: string)
    ensures var kept := LettersAndDigits(lowered);
            LettersAndDigits(Slugify(lowered)) == if kept == "" then "client" else kept
    ensures forall c | c in Slugify(lowered) :: 'a' <= c <= 'z' || '0' <= c <= '9' || c == '-'
  {
    SlugIsJoinedWords(lowered);
    SlugIsValid(lowered);
    NoLettersNoWords(lowered);
    if Words(lowered) == [] {
      LettersOfWord("client");
    } else {
      LettersOfWords(lowered);
    }
  }

  lemma {:induction false} RunEndOfWord(s: string)
    requires IsWord(s)
    ensures RunEnd(s, true) == |s|
  {}

  /** The words can be read back from the slug. */
  lemma {:induction false} WordsOfJoined(words: seq<string>)
    requires AllWords(words)
    ensures Words(Joined(words)) == words
  {
    if words == [] {
    } else {
      var tail := if |words| == 1 then "" else "-" + Joined(words[1..]);
      assert Joined(words) == words[0] + tail;
      WordsOfJoined(words[1..]);
      assert Words(tail) == words[1..] by {
        if |words| > 1 { assert tail[1..] == Joined(words[1..]); }
      }
      WordsOfWordThen(words[0], tail);
    }
  }

  /** Two names compete for one slug exactly when they have the same words. */
  lemma SameSlugIff(a: string, b: string)
    ensures Slugify(a) == Slugify(b) <==> NameWords(a) == NameWords(b)
  {
    SlugIsJoinedWords(a);
    SlugIsJoinedWords(b);
    WordsAreWords(a);
    WordsAreWords(b);
    assert IsWord("client");
    WordsOfJoined(NameWords(a));
    WordsOfJoined(NameWords(b));
  }

  /** A slug is its own slug. */
  lemma SlugifyTwice(lowered: string)
    ensures Slugify(Slugify(lowered)) == Slugify(lowered)
  {
    SlugIsJoinedWords(lowered);
    SlugIsJoinedWords(Slugify(lowered));
    WordsAreWords(lowered);
    assert IsWord("client");
    WordsOfJoined(NameWords(lowered));
  }

  // ---------- Candidates ----------

  /** The n-th identifier tried for a slug: the slug itself, then with -2, -3 and so on. */
  function Candidate(base: string, n: int): string
    requires n >= 1
  {
    if n == 1 then base else base + "-" + Decimal(n)
  }

  lemma CandidatesDiffer(base: string, m: nat, n: nat)
    requires 1 <= m && 1 <= n && Candidate(base, m) == Candidate(base, n)
    ensures m == n
  {
    if m > 1 && n > 1 {
      var k := |base| + 1;
      assert (base + "-" + Decimal(m))[k..] == Decimal(m);
      assert (base + "-" + Decimal(n))[k..] == Decimal(n);
      DigitsInjective(m, n);
    }
  }

  lemma CandidateIsSlug(base: string, n: nat)
    requires IsSlug(base) && n >= 1
    ensures IsSlug(Candidate(base, n))
  {
    if n > 1 {
      var digits := Digits(n);
      var id := base + "-" + digits;
      assert id[0] == base[0] && id[|id| - 1] == digits[|digits| - 1];
      assert digits[|digits| - 1] in digits;
    }
  }

  /** `id` is the candidate with the smallest number that is not taken. */
  ghost predicate FirstFree(base: string, taken: set<string>, id: string, n: int) {
    && 1 <= n && id == Candidate(base, n) && id !in taken
    && forall m | 1 <= m < n :: Candidate(base, m) in taken
  }

  /** Candidates are all different, so n of them fit only in a set of at least n. */
  lemma {:induction false} CandidatesFillUp(base: string, taken: set<string>, n: nat)
    requires forall m | 1 <= m <= n :: Candidate(base, m) in taken
    ensures n <= |taken|
    decreases n
  {
    if n > 0 {
      var rest := taken - {Candidate(base, n)};
      forall m | 1 <= m <= n - 1 ensures Candidate(base, m) in rest {
        if Candidate(base, m) == Candidate(base, n) { CandidatesDiffer(base, m, n); }
      }
      CandidatesFillUp(base, rest, n - 1);
    }
  }

  /** The allocation loop: it ends after at most one lookup more than there are identifiers. */
  method ResolveClientId(lowered: string, taken: set<string>) returns (id: string, ghost lookups: nat)
    ensures FirstFree(Slugify(lowered), taken, id, lookups)
    ensures lookups <= |taken| + 1
    ensures IsSlug(id)
  {
    var base := Slugify(lowered);
    SlugIsValid(lowered);
    id := base;
    var suffix := 2;
    while id in taken
      invariant 2 <= suffix <= |taken| + 2 && id == Candidate(base, suffix - 1)
      invariant forall m | 1 <= m < suffix - 1 :: Candidate(base, m) in taken
      decreases |taken| + 2 - suffix
    {
      CandidatesFillUp(base, taken, suffix - 1);
      id := base + "-" + Decimal(suffix);
      suffix := suffix + 1;
    }
    lookups := suffix - 1;
    CandidateIsSlug(base, lookups);
  }

  lemma FirstFreeIsUnique(base: string, taken: set<string>, a: string, m: int, b: string, n: int)
    requires FirstFree(base, taken, a, m) && FirstFree(base, taken, b, n)
    ensures a == b && m == n
  {}

  function Members(ids: seq<string>): set<string> {
    set id | id in ids
  }

  /** Identifiers handed out one after the other for the same slug. */
  ghost predicate HandedOut(base: string, taken: set<string>, ids: seq<string>) {
    forall i | 0 <= i < |ids| :: exists n :: FirstFree(base, taken + Members(ids[..i]), ids[i], n)
  }

  /** Names competing for a fresh slug are numbered 1, 2, 3 in the order of creation. */
  lemma {:induction false} CompetitorsAreNumbered(base: string, taken: set<string>, ids: seq<string>, i: nat)
    requires HandedOut(base, taken, ids) && i < |ids|
    requires forall n | 1 <= n :: Candidate(base, n) !in taken
    ensures ids[i] == Candidate(base, i + 1)
    decreases i
  {
    forall j | 0 <= j < i ensures ids[j] == Candidate(base, j + 1) {
      CompetitorsAreNumbered(base, taken, ids, j);
    }
    var now, next := taken + Members(ids[..i]), Candidate(base, i + 1);
    forall m | 1 <= m <= i ensures Candidate(base, m) in now {
      assert ids[..i][m - 1] == Candidate(base, m);
    }
    if next in ids[..i] {
      var j :| 0 <= j < i && ids[j] == next;
      CandidatesDiffer(base, j + 1, i + 1);
    }
    assert FirstFree(base, now, next, i + 1);
    var n :| FirstFree(base, now, ids[i], n);
    FirstFreeIsUnique(base, now, ids[i], n, next, i + 1);
  }

  // ---------- The slug of a client's first agent ----------

  /** Every character but letters, digits and hyphens replaced by a hyphen. */
  function Hyphenated(s: string): (h: string)
    ensures |h| == |s|
  {
    if s == "" then "" else [if IsAlnum(s[0]) || s[0] == '-' then s[0] else '-'] + Hyphenated(s[1..])
  }

  /** Every run of hyphens replaced by one. */
  function Collapsed(s: string): string {
    if |s| < 2 then s
    else if s[0] == '-' && s[1] == '-' then Collapsed(s[1..])
    else [s[0]] + Collapsed(s[1..])
  }

  function AgentSlug(lowered: string): string {
    var slug := DropTrailingDashes(DropLeadingDashes(Collapsed(Hyphenated(lowered))));
    if slug == "" then "agent" else slug
  }

  lemma {:induction false} TwoStepsDash(s: string)
    ensures Collapsed(Hyphenated(s)) == Dashed(s)
    decreases |s|
  {
    if |s| >= 2 {
      TwoStepsDash(s[1..]);
      var h := Hyphenated(s);
      assert h[1..] == Hyphenated(s[1..]) && h[1] == Hyphenated(s[1..])[0];
      if !IsAlnum(s[0]) {
        SkipOne(s);
      }
    } else if |s| == 1 {
      assert s[1..] == "" && Hyphenated(s[1..]) == "";
    }
  }

  /** The rest of a run of other characters is dashed like the whole run. */
  lemma SkipOne(s: string)
    requires |s| >= 2 && !IsAlnum(s[0])
    ensures Dashed(s) == if IsAlnum(s[1]) then "-" + Dashed(s[1..]) else Dashed(s[1..])
  {
    var k := RunEnd(s[1..], false);
    assert RunEnd(s, false) == 1 + k && s[1 + k..] == s[1..][k..];
  }

  /** An agent's slug, made in other steps than a client's, has the same form: the words of its name. */
  lemma AgentSlugIsJoinedWords(lowered: string)
    ensures AgentSlug(lowered) == if Words(lowered) == [] then "agent" else Joined(Words(lowered))
    ensures IsSlug(AgentSlug(lowered)) && NoDoubleHyphen(AgentSlug(lowered))
  {
    TwoStepsDash(lowered);
    TrimmedIsJoined(lowered);
    WordsAreWords(lowered);
    if Words(lowered) != [] {
      JoinedIsSlug(Words(lowered));
    }
  }

  // ---------- The tables of clients and agents ----------

  datatype Rejection = InvalidId | IdExists | NameExists

  datatype ClientRow = ClientRow(name: string, configRevision: nat, profileRevision: nat)

  datatype AgentRow = AgentRow(clientId: string, slug: string, name: string, isDefault: bool, activeRevision: nat)

  ghost predicate HasAgent(agents: seq<AgentRow>, id: string) {
    exists i :: 0 <= i < |agents| && agents[i].clientId == id
  }

  /**
   Every identifier passes the validator and no two clients share a name. Every client has an agent,
   agents belong to clients, and an agent's slug is valid and no other's of its client.
   */
  ghost predicate Consistent(clients: map<string, ClientRow>, agents: seq<AgentRow>) {
    && (forall id | id in clients :: PassesValidator(id) && HasAgent(agents, id))
    && (forall a, b | a in clients && b in clients && clients[a].name == clients[b].name :: a == b)
    && (forall i | 0 <= i < |agents| :: agents[i].clientId in clients && IsSlug(agents[i].slug))
    && (forall i, j | 0 <= i < j < |agents| && agents[i].clientId == agents[j].clientId :: agents[i].slug != agents[j].slug)
  }

  predicate NameTaken(clients: map<string, ClientRow>, name: string) {
    exists id | id in clients :: clients[id].name == name
  }

  /** The first agent of a client, named "agent" if no name is given. */
  function FirstAgent(id: string, name: string, lower: string -> string): AgentRow {
    AgentRow(id, AgentSlug(lower(if name == "" then "agent" else name)), name, true, 1)
  }

  lemma BootstrapIsConsistent(clients: map<string, ClientRow>, agents: seq<AgentRow>, id: string, row: ClientRow, agent: AgentRow)
    requires Consistent(clients, agents) && id !in clients && PassesValidator(id) && !NameTaken(clients, row.name)
    requires agent.clientId == id && IsSlug(agent.slug)
    ensures Consistent(clients[id := row], agents + [agent])
  {
    assert (agents + [agent])[|agents|] == agent;
    forall c | c in clients ensures HasAgent(agents + [agent], c) {
      assert HasAgent(agents, c);
      var i :| 0 <= i < |agents| && agents[i].clientId == c;
      assert (agents + [agent])[i].clientId == c;
    }
  }

  class ClientTable {
    var clients: map<string, ClientRow>
    var agents: seq<AgentRow>

    ghost predicate Valid()
      reads this
    {
      Consistent(clients, agents)
    }

    constructor ()
      ensures Valid() && clients == map[] && agents == []
    {
      clients, agents := map[], [];
    }

    /** Adds an agent unless its client has one with that slug. */
    method CreateAgent(clientId: string, slug: string, name: string, isDefault: bool) returns (ok: bool)
      modifies this`agents
      ensures ok <==> forall i | 0 <= i < |old(agents)| :: old(agents)[i].clientId != clientId || old(agents)[i].slug != slug
      ensures agents == if ok then old(agents) + [AgentRow(clientId, slug, name, isDefault, 1)] else old(agents)
    {
      for i := 0 to |agents|
        invariant agents == old(agents)
        invariant forall k | 0 <= k < i :: agents[k].clientId != clientId || agents[k].slug != slug
      {
        if agents[i].clientId == clientId && agents[i].slug == slug { return false; }
      }
      agents := agents + [AgentRow(clientId, slug, name, isDefault, 1)];
      ok := true;
    }

    /** The identifier for a new client, before anything is written. */
    method ChooseId(given: Option<string>, name: string, lower: string -> string) returns (r: Result<string, Rejection>)
      ensures r == Err(InvalidId) <==> given.Some? && !PassesValidator(given.value)
      ensures r == Err(IdExists) <==> given.Some? && PassesValidator(given.value) && given.value in clients
      ensures r != Err(NameExists)
      ensures r.Ok? ==> r.value !in clients && PassesValidator(r.value)
      ensures r.Ok? && given.Some? ==> r.value == given.value
      ensures r.Ok? && given.None? ==>
                exists n :: n <= |clients| + 1 && FirstFree(Slugify(lower(name)), clients.Keys, r.value, n)
    {
      if given.Some? {
        if !PassesValidator(given.value) { return Err(InvalidId); }
        if given.value in clients { return Err(IdExists); }
        return Ok(given.value);
      }
      var id, n := ResolveClientId(lower(name), clients.Keys);
      assert n <= |clients| + 1 && FirstFree(Slugify(lower(name)), clients.Keys, id, n);
      return Ok(id);
    }

    /**
     Creates a client under the given identifier or under the first free one, with a default agent and
     first revisions; a rejected request leaves no trace.
     */
    method CreateClient(given: Option<string>, name: string, agentName: string, lower: string -> string)
      returns (r: Result<string, Rejection>)
      requires Valid()
      modifies this
      ensures Valid()
      ensures r.Ok? ==>
                && r.value !in old(clients) && clients == old(clients)[r.value := ClientRow(name, 1, 1)]
                && agents == old(agents) + [FirstAgent(r.value, agentName, lower)]
      ensures r.Err? ==> clients == old(clients) && agents == old(agents)
      ensures r == Err(InvalidId) <==> given.Some? && !PassesValidator(given.value)
      ensures r == Err(IdExists) <==> given.Some? && PassesValidator(given.value) && given.value in old(clients)
      ensures r == Err(NameExists) <==> NameTaken(old(clients), name) && r != Err(InvalidId) && r != Err(IdExists)
      ensures r.Ok? && given.Some? ==> r.value == given.value
      ensures r.Ok? && given.None? ==>
                exists n :: n <= |old(clients)| + 1 && FirstFree(Slugify(lower(name)), old(clients).Keys, r.value, n)
    {
      r := ChooseId(given, name, lower);
      assert r.Err? ==> r.error.InvalidId? || r.error.IdExists?;
      if r.Ok? {
        if NameTaken(clients, name) {
          r := Err(NameExists);
        } else {
          Bootstrap(r.value, name, agentName, lower);
        }
      }
    }

    /** The rows of a new client. */
    method Bootstrap(id: string, name: string, agentName: string, lower: string -> string)
      requires Valid() && id !in clients && PassesValidator(id) && !NameTaken(clients, name)
      modifies this
      ensures Valid()
      ensures clients == old(clients)[id := ClientRow(name, 1, 1)]
      ensures agents == old(agents) + [FirstAgent(id, agentName, lower)]
    {
      ghost var agent := FirstAgent(id, agentName, lower);
      AgentSlugIsJoinedWords(lower(if agentName == "" then "agent" else agentName));
      BootstrapIsConsistent(clients, agents, id, ClientRow(name, 1, 1), agent);
      clients := clients[id := ClientRow(name, 1, 1)];
      var created := CreateAgent(id, AgentSlug(lower(if agentName == "" then "agent" else agentName)), agentName, true);
      assert created;
    }
  }
}
