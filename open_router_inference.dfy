/** The text logic of the chat assistant: recognising greetings and
    analysis questions, choosing the sampling parameters, reading expense
    amounts back out of the context text, the top categories and the
    fallback summaries, and the typo-tolerant distance used for keywords. */
module OpenRouterInferenceSvc {
  import Text
  import Numbers
  import Seqs
  import opened Wrappers

  // ---------------------------------------------------------------------
  // Greetings

  const Greetings: seq<string> := ["hi", "hello", "hey", "test", "help", "thanks", "thank you",
    "good morning", "good afternoon", "good evening"]

  /** `Regex("[!.,?]")`. */
  const Punctuation: set<char> := {'!', '.', ',', '?'}

  /** The question lowercased, trimmed and stripped of `!.,?`. */
  function GreetingText(question: string): (q: string)
    ensures forall i :: 0 <= i < |q| ==> q[i] !in Punctuation
  {
    Text.RemoveChars(Text.Trim(Text.Lower(question)), Punctuation)
  }

  predicate MatchesGreeting(q: string, greeting: string) {
    q == greeting || Text.StartsWith(q, greeting + " ") || Text.EndsWith(q, " " + greeting)
  }

  /** `isGreeting(question)`. */
  predicate IsGreeting(question: string) {
    exists i :: 0 <= i < |Greetings| && MatchesGreeting(GreetingText(question), Greetings[i])
  }

  /** Letter case never matters. */
  lemma IsGreetingIgnoresCase(question: string)
    ensures IsGreeting(Text.Lower(question)) == IsGreeting(question)
  {
    Text.LowerIdempotent(question);
  }

  /** Deleting characters from a text that has none of them changes nothing. */
  lemma {:induction false} RemoveNothing(s: string, cs: set<char>)
    requires forall i :: 0 <= i < |s| ==> s[i] !in cs
    ensures Text.RemoveChars(s, cs) == s
  {
    if s != [] {
      RemoveNothing(s[1..], cs);
    }
  }

  /** Deletion works character by character, so a last character is
      kept or dropped on its own. */
  lemma {:induction false} RemoveCharsSnoc(s: string, c: char, cs: set<char>)
    ensures Text.RemoveChars(s + [c], cs) == Text.RemoveChars(s, cs) + (if c in cs then [] else [c])
  {
    if s == [] {
      assert [c][1..] == [];
    } else {
      assert (s + [c])[1..] == s[1..] + [c];
      RemoveCharsSnoc(s[1..], c, cs);
    }
  }

  /** A text in lower case without surrounding white space is its own
      trimmed lower-case form. */
  lemma PlainText(s: string)
    requires forall i :: 0 <= i < |s| ==> !Text.IsUpper(s[i])
    requires s != [] ==> !Text.IsWhitespace(s[0]) && !Text.IsWhitespace(s[|s| - 1])
    ensures Text.Trim(Text.Lower(s)) == s
  {
    LowerPlain(s);
    assert Text.TrimStart(s) == s;
    assert Text.TrimEnd(s) == s;
  }

  lemma LowerPlain(s: string)
    requires forall i :: 0 <= i < |s| ==> !Text.IsUpper(s[i])
    ensures Text.Lower(s) == s
  {
    forall i | 0 <= i < |s| ensures Text.Lower(s)[i] == s[i] {
      assert Text.LowerChar(s[i]) == s[i];
    }
  }

  /** Lower case, no `!.,?`, and no white space at either end. */
  predicate Plain(s: string) {
    (forall k :: 0 <= k < |s| ==> !Text.IsUpper(s[k]) && s[k] !in Punctuation)
    && (s != [] ==> !Text.IsWhitespace(s[0]) && !Text.IsWhitespace(s[|s| - 1]))
  }

  /** A plain question is a greeting when it matches one as it stands. */
  lemma PlainGreeting(question: string, i: nat)
    requires Plain(question)
    requires i < |Greetings| && MatchesGreeting(question, Greetings[i])
    ensures IsGreeting(question)
  {
    RemoveNothing(question, Punctuation);
    PlainText(question);
  }

  /** Trimming the front of a text that ends in a visible character keeps
      that character. */
  lemma {:induction false} TrimStartSnoc(s: string, c: char)
    requires !Text.IsWhitespace(c)
    ensures Text.TrimStart(s + [c]) == Text.TrimStart(s) + [c]
  {
    if s != [] && Text.IsWhitespace(s[0]) {
      assert (s + [c])[1..] == s[1..] + [c];
      TrimStartSnoc(s[1..], c);
    }
  }

  /** One trailing `!`, `.`, `,` or `?` after a visible character does not
      change whether a question is a greeting. */
  lemma TrailingPunctuation(question: string, c: char)
    requires c in Punctuation && question != [] && !Text.IsWhitespace(question[|question| - 1])
    ensures GreetingText(question + [c]) == GreetingText(question)
    ensures IsGreeting(question + [c]) == IsGreeting(question)
  {
    var low := Text.Lower(question);
    assert Text.Lower(question + [c]) == low + [c];
    assert !Text.IsWhitespace(low[|low| - 1]);
    TrimStartSnoc(low, c);
    var front := Text.TrimStart(low);
    assert front != [] && front[|front| - 1] == low[|low| - 1];
    assert Text.TrimEnd(front + [c]) == front + [c];
    assert Text.TrimEnd(front) == front;
    RemoveCharsSnoc(front, c, Punctuation);
  }

  /** Every listed greeting is plain. */
  lemma GreetingsPlain(i: nat)
    requires i < |Greetings|
    ensures Plain(Greetings[i]) && Greetings[i] != []
  {
    var g := Greetings[i];
    forall k | 0 <= k < |g| ensures !Text.IsUpper(g[k]) && g[k] !in Punctuation {
      assert 'a' <= g[k] <= 'z' || g[k] == ' ';
    }
  }

  /** Two plain texts joined by a space are plain. */
  lemma PlainJoin(a: string, b: string)
    requires Plain(a) && Plain(b) && a != [] && b != []
    ensures Plain(a + " " + b)
  {
    var s := a + " " + b;
    forall k | 0 <= k < |s| ensures !Text.IsUpper(s[k]) && s[k] !in Punctuation {
      if k < |a| {
        assert s[k] == a[k];
      } else if k > |a| {
        assert s[k] == b[k - |a| - 1];
      }
    }
  }

  /** A plain word followed by a plain text matches that word as a greeting. */
  lemma FirstWordMatches(g: string, t: string)
    requires Plain(g) && Plain(t) && g != [] && t != []
    ensures Plain(g + " " + t) && MatchesGreeting(g + " " + t, g)
  {
    PlainJoin(g, t);
    assert (g + " " + t)[..|g + " "|] == g + " ";
  }

  /** A plain text followed by a plain word matches that word as a greeting. */
  lemma LastWordMatches(t: string, g: string)
    requires Plain(g) && Plain(t) && g != [] && t != []
    ensures Plain(t + " " + g) && MatchesGreeting(t + " " + g, g)
  {
    PlainJoin(t, g);
    var u := t + " " + g;
    assert u[|u| - |" " + g|..] == " " + g;
  }

  /** Every listed greeting is recognised on its own, as the first word and
      as the last word of a plain question. */
  lemma GreetingsRecognised(i: nat, t: string)
    requires i < |Greetings| && Plain(t) && t != []
    ensures IsGreeting(Greetings[i])
    ensures IsGreeting(Greetings[i] + " " + t)
    ensures IsGreeting(t + " " + Greetings[i])
  {
    GreetingsPlain(i);
    PlainGreeting(Greetings[i], i);
    FirstWordMatches(Greetings[i], t);
    PlainGreeting(Greetings[i] + " " + t, i);
    LastWordMatches(t, Greetings[i]);
    PlainGreeting(t + " " + Greetings[i], i);
  }

  lemma NoGreetingInEmpty()
    ensures !IsGreeting("")
  {
    var q := GreetingText("");
    assert q == "";
    forall i | 0 <= i < |Greetings| ensures !MatchesGreeting(q, Greetings[i]) {
      GreetingsNonEmpty(i);
    }
  }

  lemma GreetingsNonEmpty(i: nat)
    requires i < |Greetings|
    ensures Greetings[i] != []
  {
  }

  // ---------------------------------------------------------------------
  // The distance used for keywords

  function Min3(a: int, b: int, c: int): (m: int)
    ensures m <= a && m <= b && m <= c && (m == a || m == b || m == c)
  {
    if a <= b && a <= c then a else if b <= c then b else c
  }

  /** The inner loop of row `i` (character `c` of the first string) after
      `j` steps: the array and `lastValue`. Before the first step `costs[0]`
      holds `i + 1` and `lastValue` holds `i`. */
  function Inner(costs: seq<int>, i: nat, c: char, s2: string, j: nat): (r: (seq<int>, int))
    requires |costs| == |s2| + 1 && j <= |s2|
    ensures |r.0| == |costs|
  {
    if j == 0 then (costs[0 := i + 1], i)
    else
      var prev := Inner(costs, i, c, s2, j - 1);
      var newValue := Min3(prev.0[j] + 1, prev.0[j - 1] + 1, prev.1 + if c == s2[j - 1] then 0 else 1);
      (prev.0[j - 1 := prev.1], newValue)
  }

  /** The array after row `i`: the inner loop's array with `lastValue`
      stored in its last cell. */
  function Row(costs: seq<int>, i: nat, c: char, s2: string): (r: seq<int>)
    requires |costs| == |s2| + 1
    ensures |r| == |costs|
  {
    var inner := Inner(costs, i, c, s2, |s2|);
    inner.0[|s2| := inner.1]
  }

  /** `0, 1, ..., n - 1`. */
  function Identity(n: nat): (r: seq<int>)
    ensures |r| == n && forall k :: 0 <= k < n ==> r[k] == k
  {
    if n == 0 then [] else Identity(n - 1) + [n - 1]
  }

  /** The array after the first `i` rows; it starts as `0, 1, ..., |s2|`. */
  function Costs(s1: string, s2: string, i: nat): (r: seq<int>)
    requires i <= |s1|
    ensures |r| == |s2| + 1
  {
    if i == 0 then Identity(|s2| + 1)
    else Row(Costs(s1, s2, i - 1), i - 1, s1[i - 1], s2)
  }

  /** What `levenshteinDistance(s1, s2)` returns. */
  function Distance(s1: string, s2: string): int {
    Costs(s1, s2, |s1|)[|s2|]
  }

  /** `levenshteinDistance(s1, s2)`: one array of `|s2| + 1` costs, updated
      row by row. */
  method LevenshteinDistance(s1: string, s2: string) returns (d: int)
    ensures d == Distance(s1, s2)
  {
    var costs := new int[|s2| + 1](k => k);
    assert costs[..] == Costs(s1, s2, 0);
    for i := 0 to |s1|
      invariant costs[..] == Costs(s1, s2, i)
    {
      UpdateRow(costs, i, s1[i], s2);
    }
    d := costs[|s2|];
  }

  /** One pass of the outer loop: row `i`, for character `c` of the first
      string. */
  method UpdateRow(costs: array<int>, i: nat, c: char, s2: string)
    requires costs.Length == |s2| + 1
    modifies costs
    ensures costs[..] == Row(old(costs[..]), i, c, s2)
  {
    ghost var before := costs[..];
    costs[0] := i + 1;
    var lastValue := i;
    for j := 0 to |s2|
      invariant costs[..] == Inner(before, i, c, s2, j).0
      invariant lastValue == Inner(before, i, c, s2, j).1
    {
      ghost var current := costs[..];
      var newValue := Min3(costs[j + 1] + 1, costs[j] + 1, lastValue + if c == s2[j] then 0 else 1);
      costs[j] := lastValue;
      InnerStep(before, i, c, s2, j, current, lastValue);
      lastValue := newValue;
    }
    ghost var current := costs[..];
    costs[|s2|] := lastValue;
    assert costs[..] == current[|s2| := lastValue];
  }

  /** One step of the inner loop, from the state the previous steps left. */
  lemma InnerStep(before: seq<int>, i: nat, c: char, s2: string, j: nat, costs: seq<int>, lastValue: int)
    requires |before| == |s2| + 1 && j < |s2|
    requires (costs, lastValue) == Inner(before, i, c, s2, j)
    ensures Inner(before, i, c, s2, j + 1)
            == (costs[j := lastValue], Min3(costs[j + 1] + 1, costs[j] + 1, lastValue + if c == s2[j] then 0 else 1))
  {
  }

  /** Against an empty first string the distance is the other's length. */
  lemma DistanceFromEmpty(s2: string)
    ensures Distance("", s2) == |s2|
  {
  }

  /** Against an empty second string every row stores its own index, so the
      distance is one less than the first string's length. */
  lemma {:induction false} CostsToEmpty(s1: string, i: nat)
    requires 0 < i <= |s1|
    ensures Costs(s1, "", i) == [i - 1]
  {
    if i > 1 {
      CostsToEmpty(s1, i - 1);
    }
  }

  lemma DistanceToEmpty(s1: string)
    requires s1 != ""
    ensures Distance(s1, "") == |s1| - 1
  {
    CostsToEmpty(s1, |s1|);
  }

  predicate NonNegative(costs: seq<int>) {
    forall k :: 0 <= k < |costs| ==> costs[k] >= 0
  }

  lemma {:induction false} InnerNonNegative(costs: seq<int>, i: nat, c: char, s2: string, j: nat)
    requires |costs| == |s2| + 1 && j <= |s2| && NonNegative(costs)
    ensures NonNegative(Inner(costs, i, c, s2, j).0) && Inner(costs, i, c, s2, j).1 >= 0
  {
    if j > 0 {
      InnerNonNegative(costs, i, c, s2, j - 1);
    }
  }

  lemma {:induction false} CostsNonNegative(s1: string, s2: string, i: nat)
    requires i <= |s1|
    ensures NonNegative(Costs(s1, s2, i))
  {
    if i > 0 {
      CostsNonNegative(s1, s2, i - 1);
      InnerNonNegative(Costs(s1, s2, i - 1), i - 1, s1[i - 1], s2, |s2|);
    }
  }

  /** The distance is never negative. */
  lemma DistanceNonNegative(s1: string, s2: string)
    ensures Distance(s1, s2) >= 0
  {
    CostsNonNegative(s1, s2, |s1|);
  }

  /** After `j` steps of row `i` the cells from `j` on are untouched, the
      first of them holding `i + 1`, and cell `k < j` holds the `lastValue`
      that step `k` left. */
  lemma {:induction false} InnerCells(costs: seq<int>, i: nat, c: char, s2: string, j: nat)
    requires |costs| == |s2| + 1 && j <= |s2|
    ensures forall k :: j <= k < |costs| ==> Inner(costs, i, c, s2, j).0[k] == if k == 0 then i + 1 else costs[k]
    ensures forall k :: 0 <= k < j ==> Inner(costs, i, c, s2, j).0[k] == Inner(costs, i, c, s2, k).1
  {
    if j > 0 {
      InnerCells(costs, i, c, s2, j - 1);
    }
  }

  /** Cell `k` of a finished row is the `lastValue` after `k` steps. */
  lemma RowCells(costs: seq<int>, i: nat, c: char, s2: string)
    requires |costs| == |s2| + 1
    ensures forall k :: 0 <= k < |costs| ==> Row(costs, i, c, s2)[k] == Inner(costs, i, c, s2, k).1
  {
    InnerCells(costs, i, c, s2, |s2|);
  }

  /** Row `i` only computes values of at least `i` from a row whose values
      are at least `i - 1`. */
  lemma {:induction false} InnerAtLeast(costs: seq<int>, i: nat, c: char, s2: string, j: nat)
    requires |costs| == |s2| + 1 && j <= |s2|
    requires forall k :: 0 <= k < |costs| ==> costs[k] >= i - 1
    ensures Inner(costs, i, c, s2, j).1 >= i
  {
    if j > 0 {
      InnerAtLeast(costs, i, c, s2, j - 1);
      InnerCells(costs, i, c, s2, j - 1);
    }
  }

  /** After `i` rows no cell is below `i - 1`. */
  lemma {:induction false} CostsAtLeast(s1: string, s2: string, i: nat)
    requires i <= |s1|
    ensures forall k :: 0 <= k < |s2| + 1 ==> Costs(s1, s2, i)[k] >= i - 1
  {
    if i > 0 {
      CostsAtLeast(s1, s2, i - 1);
      var prev, c := Costs(s1, s2, i - 1), s1[i - 1];
      var before: nat := i - 1;
      RowCells(prev, before, c, s2);
      var row := Row(prev, before, c, s2);
      forall k | 0 <= k < |s2| + 1
        ensures row[k] >= before
      {
        InnerAtLeast(prev, before, c, s2, k);
      }
    }
  }

  /** Whatever the second string, a non-empty first string is at distance
      at least its length less one. */
  lemma DistanceAtLeast(s1: string, s2: string)
    ensures s1 != "" ==> Distance(s1, s2) >= |s1| - 1
  {
    CostsAtLeast(s1, s2, |s1|);
  }

  /** Along the diagonal of a string against itself, cell `k` after `k`
      rows is at most `k - 1`. */
  lemma {:induction false} DiagonalAtMost(s: string, k: nat)
    requires 1 <= k <= |s|
    ensures Costs(s, s, k)[k] <= k - 1
  {
    var prev := Costs(s, s, k - 1);
    RowCells(prev, k - 1, s[k - 1], s);
    InnerCells(prev, k - 1, s[k - 1], s, k - 1);
    if k > 1 {
      DiagonalAtMost(s, k - 1);
    }
  }

  /** Unlike an edit distance, a non-empty string is not at distance 0 from
      itself but at its length less one; only "" is at distance 0. */
  lemma DistanceToItself(s: string)
    ensures Distance(s, s) == if s == "" then 0 else |s| - 1
  {
    if s != "" {
      DistanceAtLeast(s, s);
      DiagonalAtMost(s, |s|);
    }
  }

  /** So the keyword test only ever accepts a question of at most three
      characters: a longer one is at distance at least 3 from every word. */
  lemma KeywordNeedsShortQuestion(q: string)
    ensures ContainsAnalysisKeyword(q) ==> |q| <= 3
  {
    if ContainsAnalysisKeyword(q) {
      var w :| 0 <= w < |AnalysisKeywords| && Distance(q, AnalysisKeywords[w]) <= 2;
      DistanceAtLeast(q, AnalysisKeywords[w]);
      DistanceFromEmpty(AnalysisKeywords[w]);
    }
  }

  lemma DistanceOfAbcToEmpty()
    ensures Distance("abc", "") == 2
  {
    DistanceToEmpty("abc");
  }

  // ---------------------------------------------------------------------
  // Analysis questions and the sampling parameters

  const AnalysisKeywords: seq<string> := ["analyze", "analysis", "pattern", "spend", "expense", "cost",
    "budget", "money", "transaction", "trend", "breakdown", "report",
    "summary", "total", "how much", "where", "what", "when", "break down"]

  /** The greetings that rule out an analysis: the first seven of `Greetings`. */
  const ChatGreetings: seq<string> := ["hi", "hello", "hey", "test", "help", "thanks", "thank you"]

  predicate ContainsGreetingWord(q: string) {
    exists i :: 0 <= i < |ChatGreetings| && Text.Contains(q, ChatGreetings[i])
  }

  /** `analysisKeywords.any { keyword -> analysisKeywords.any { word -> ... } }`:
      the outer keyword is never used. */
  predicate ContainsAnalysisKeyword(q: string) {
    exists k :: 0 <= k < |AnalysisKeywords| && AnalysisKeywords[k] == AnalysisKeywords[k]
      && exists w :: 0 <= w < |AnalysisKeywords| && Distance(q, AnalysisKeywords[w]) <= 2
  }

  predicate HasFinancialData(context: string) {
    Text.Contains(context, "$") || Text.Contains(context, "dollar") || Text.Contains(context, "spent")
  }

  /** `shouldProvideDetailedAnalysis(question, context)`. */
  predicate ShouldProvideDetailedAnalysis(question: string, context: string) {
    var q := Text.Trim(Text.Lower(question));
    !ContainsGreetingWord(q) && HasFinancialData(context) && ContainsAnalysisKeyword(q)
  }

  /** The keyword test compares the whole question with each keyword. */
  lemma KeywordTestIsOneLoop(q: string)
    ensures ContainsAnalysisKeyword(q)
            <==> exists w :: 0 <= w < |AnalysisKeywords| && Distance(q, AnalysisKeywords[w]) <= 2
  {
    assert AnalysisKeywords[0] == AnalysisKeywords[0];
  }

  /** A greeting word anywhere in the question, even inside another word,
      rules out an analysis: "this" holds "hi". */
  lemma GreetingWordInsideWord(context: string)
    ensures !ShouldProvideDetailedAnalysis("what is this", context)
  {
    PlainWhatIsThis();
    GreetingInThis();
  }

  lemma PlainWhatIsThis()
    ensures Text.Trim(Text.Lower("what is this")) == "what is this"
  {
    PlainText("what is this");
  }

  lemma GreetingInThis()
    ensures ContainsGreetingWord("what is this")
  {
    HiInThis();
    assert Text.Contains("what is this", ChatGreetings[0]);
  }

  lemma HiInThis()
    ensures Text.Contains("what is this", "hi")
  {
    var q := "what is this";
    assert q[9..] == "his";
    assert Text.StartsWith(q[9..], "hi");
    Text.ContainsAt(q, "hi", 9);
  }

  /** Without "$", "dollar" or "spent" in the context there is no analysis. */
  lemma NoFinancialDataNoAnalysis(question: string, context: string)
    requires !Text.Contains(context, "$") && !Text.Contains(context, "dollar") && !Text.Contains(context, "spent")
    ensures !ShouldProvideDetailedAnalysis(question, context)
  {
  }

  datatype Mode = Greeting | Analysis | General

  /** `isGreeting` first; `isAnalysisQuery` only for questions that are no greeting. */
  function ModeOf(question: string, context: string): Mode {
    if IsGreeting(question) then Greeting
    else if ShouldProvideDetailedAnalysis(question, context) then Analysis
    else General
  }

  /** The `temperature` of the request. */
  function Temperature(m: Mode): real {
    match m
    case Greeting => 0.7
    case Analysis => 0.3
    case General => 0.5
  }

  /** The `max_tokens` of the request. */
  function MaxTokens(m: Mode): int {
    match m
    case Greeting => 150
    case Analysis => 1000
    case General => 250
  }

  /** A greeting gets (0.7, 150) even when it also reads as an analysis
      question; an analysis question gets (0.3, 1000); anything else
      (0.5, 250). */
  lemma RequestParameters(question: string, context: string)
    ensures var m := ModeOf(question, context);
            (IsGreeting(question) ==> Temperature(m) == 0.7 && MaxTokens(m) == 150)
            && (!IsGreeting(question) && ShouldProvideDetailedAnalysis(question, context)
                ==> Temperature(m) == 0.3 && MaxTokens(m) == 1000)
            && (!IsGreeting(question) && !ShouldProvideDetailedAnalysis(question, context)
                ==> Temperature(m) == 0.5 && MaxTokens(m) == 250)
  {
  }

  // ---------------------------------------------------------------------
  // Reading amounts back out of the context

  /** `categoryRepository.categories.first().map { it.name.lowercase() }`. */
  function LowerNames(categories: seq<string>): (r: seq<string>)
    ensures |r| == |categories|
    ensures forall i :: 0 <= i < |r| ==> r[i] == Text.Lower(categories[i])
  {
    seq(|categories|, i requires 0 <= i < |categories| => Text.Lower(categories[i]))
  }

  predicate IsSummaryLine(line: string) {
    Text.Contains(line, "total spending") || Text.Contains(line, "average")
  }

  predicate IsDataLine(line: string) {
    line != "" && !IsSummaryLine(line)
  }

  /** The lowercased context's lines, without empty and summary lines. */
  function DataLines(context: string): seq<string> {
    Seqs.Filter(Text.Lines(Text.Lower(context)), IsDataLine)
  }

  /** `dbCategories.find { line.contains(it, ignoreCase = true) }`: the first
      listed category the line contains. */
  function FindCategory(line: string, names: seq<string>): (r: Option<string>)
    ensures r.None? <==> forall i :: 0 <= i < |names| ==> !Text.Contains(line, names[i])
    ensures r.Some? ==> exists i :: 0 <= i < |names| && names[i] == r.value && Text.Contains(line, r.value)
                                    && forall k :: 0 <= k < i ==> !Text.Contains(line, names[k])
  {
    if names == [] then None
    else if Text.Contains(line, names[0]) then Some(names[0])
    else
      var r := FindCategory(line, names[1..]);
      assert forall i :: 1 <= i < |names| ==> names[i] == names[1..][i - 1];
      r
  }

  /** The end of the run of `\s` characters that starts at `i`. */
  function SpaceRunEnd(s: string, i: nat): (j: nat)
    requires i <= |s|
    ensures i <= j <= |s|
    ensures forall k :: i <= k < j ==> Text.IsRegexSpace(s[k])
    ensures j == |s| || !Text.IsRegexSpace(s[j])
    decreases |s| - i
  {
    if i == |s| || !Text.IsRegexSpace(s[i]) then i else SpaceRunEnd(s, i + 1)
  }

  /** `\$\s*[0-9]` matches at `p`. */
  predicate DollarAt(line: string, p: nat) {
    p < |line| && line[p] == '$'
    && var q := SpaceRunEnd(line, p + 1);
       q < |line| && Text.IsDigit(line[q])
  }

  /** The first position at or after `from` where the pattern matches. */
  function FirstDollar(line: string, from: nat): (r: Option<nat>)
    requires from <= |line|
    ensures r.None? <==> forall p :: from <= p < |line| ==> !DollarAt(line, p)
    ensures r.Some? ==> from <= r.value < |line| && DollarAt(line, r.value)
                        && forall p :: from <= p < r.value ==> !DollarAt(line, p)
    decreases |line| - from
  {
    if from == |line| then None
    else if DollarAt(line, from) then Some(from)
    else FirstDollar(line, from + 1)
  }

  /** Group 1 of the match: the digits, then ".dd" when two digits follow
      a '.'. */
  function DollarDigits(line: string, q: nat): (m: string)
    requires q < |line| && Text.IsDigit(line[q])
    ensures Numbers.MatchesAmountPattern(m) && Numbers.HasDigit(m)
  {
    var e := Text.DigitRunEnd(line, q);
    var k := e - q;
    var m := if e + 2 < |line| && line[e] == '.' && Text.IsDigit(line[e + 1]) && Text.IsDigit(line[e + 2])
      then line[q..e + 3] else line[q..e];
    assert m[..k] == line[q..e];
    AmountToken(m, k);
    m
  }

  /** Digits, optionally followed by '.' and two digits, pass the amount
      filter and hold a digit. */
  lemma AmountToken(m: string, k: nat)
    requires 1 <= k <= |m| && Text.AllDigits(m[..k])
    requires |m| == k || (|m| == k + 3 && m[k] == '.' && Text.AllDigits(m[k + 1..]))
    ensures Numbers.MatchesAmountPattern(m) && Numbers.HasDigit(m)
  {
    assert Text.IsDigit(m[..k][0]);
    assert '.' !in m[..k] by {
      forall t | 0 <= t < k ensures m[..k][t] != '.' {
        assert Text.IsDigit(m[..k][t]);
      }
    }
    if |m| > k {
      assert Numbers.DotIndex(m) == k by {
        assert m[k] == '.';
        assert m[..k] + m[k..] == m;
      }
    } else {
      assert m == m[..k];
    }
  }

  /** The amount of the first `$` amount in the line, or null. */
  function DollarAmount(line: string): (r: Option<real>)
    ensures r.Some? <==> exists p :: 0 <= p < |line| && DollarAt(line, p)
    ensures r.Some? ==> r.value >= 0.0
  {
    match FirstDollar(line, 0)
    case None => None
    case Some(p) =>
      var m := DollarDigits(line, SpaceRunEnd(line, p + 1));
      Numbers.NoDigitIsEmptyOrDot(m);
      Numbers.ToDoubleOrNull(m)
  }

  /** `getDefaultCategory()?.name?.lowercase() ?: "other"`. */
  function Fallback(defaultCategory: Option<string>): string {
    match defaultCategory
    case Some(name) => Text.Lower(name)
    case None => "other"
  }

  /** What one line adds to the map, if anything. */
  function LineCredit(line: string, names: seq<string>, defaultCategory: Option<string>): Option<(string, real)> {
    match DollarAmount(line)
    case None => None
    case Some(amount) => Some((FindCategory(line, names).GetOr(Fallback(defaultCategory)), amount))
  }

  function CreditOf(names: seq<string>, defaultCategory: Option<string>): string -> Option<(string, real)> {
    line => LineCredit(line, names, defaultCategory)
  }

  /** The credits of the context's data lines, in order. */
  function Credits(context: string, categories: seq<string>, defaultCategory: Option<string>): seq<(string, real)> {
    Seqs.MapNotNull(DataLines(context), CreditOf(LowerNames(categories), defaultCategory))
  }

  /** What `parseFinancialData(context)` returns: the credits summed per
      category, in the map's insertion order. */
  function Parsed(context: string, categories: seq<string>, defaultCategory: Option<string>): seq<(string, real)> {
    Seqs.GroupSums(Credits(context, categories, defaultCategory))
  }

  /** `parseFinancialData(context)` over a snapshot of the categories and
      the default category. */
  method ParseFinancialData(context: string, categories: seq<string>, defaultCategory: Option<string>)
    returns (expenses: seq<(string, real)>)
    ensures expenses == Parsed(context, categories, defaultCategory)
  {
    var names := LowerNames(categories);
    var lines := DataLines(context);
    expenses := [];
    assert lines[..0] == [];
    for k := 0 to |lines|
      invariant expenses == ParsedUpTo(lines, k, names, defaultCategory)
    {
      var line := lines[k];
      var category := FindCategory(line, names);
      var dollarAmount := DollarAmount(line);
      ParseStep(lines, k, names, defaultCategory);
      if dollarAmount.Some? {
        var expenseCategory := category.GetOr(Fallback(defaultCategory));
        expenses := Seqs.Credit(expenses, expenseCategory, dollarAmount.value);
      }
    }
    assert lines[..|lines|] == lines;
  }

  /** The map after the first `k` data lines. */
  function ParsedUpTo(lines: seq<string>, k: nat, names: seq<string>, defaultCategory: Option<string>): seq<(string, real)>
    requires k <= |lines|
  {
    Seqs.GroupSums(Seqs.MapNotNull(lines[..k], CreditOf(names, defaultCategory)))
  }

  /** One more line credits its amount, if it shows one, to its category. */
  lemma ParseStep(lines: seq<string>, k: nat, names: seq<string>, defaultCategory: Option<string>)
    requires k < |lines|
    ensures var before := ParsedUpTo(lines, k, names, defaultCategory);
            var amount := DollarAmount(lines[k]);
            ParsedUpTo(lines, k + 1, names, defaultCategory)
            == if amount.Some? then Seqs.Credit(before, FindCategory(lines[k], names).GetOr(Fallback(defaultCategory)), amount.value)
               else before
  {
    var f := CreditOf(names, defaultCategory);
    var line := lines[k];
    var done := Seqs.MapNotNull(lines[..k], f);
    assert lines[..k + 1] == lines[..k] + [line];
    Seqs.MapNotNullAppend(lines[..k], [line], f);
    MapNotNullOne(line, f);
    assert f(line) == LineCredit(line, names, defaultCategory);
    match DollarAmount(line) {
      case Some(amount) =>
        var credit := (FindCategory(line, names).GetOr(Fallback(defaultCategory)), amount);
        assert f(line) == Some(credit);
        assert Seqs.MapNotNull(lines[..k + 1], f) == done + [credit];
        Seqs.GroupSumsSnoc(done, credit);
      case None =>
        assert f(line) == None;
        assert Seqs.MapNotNull(lines[..k + 1], f) == done;
    }
  }

  lemma MapNotNullOne<T, U>(x: T, f: T -> Option<U>)
    ensures Seqs.MapNotNull([x], f) == if f(x).Some? then [f(x).value] else []
  {
    assert [x][1..] == [];
  }

  /** Each category appears once, with the sum of its credits. */
  lemma ParsedSums(context: string, categories: seq<string>, defaultCategory: Option<string>)
    ensures var p := Parsed(context, categories, defaultCategory);
            Seqs.Distinct(Seqs.KeysOf(p))
            && forall i :: 0 <= i < |p| ==> p[i].1 == Seqs.SumFor(Credits(context, categories, defaultCategory), p[i].0)
  {
    var c := Credits(context, categories, defaultCategory);
    Seqs.GroupSumsSpec(c);
    forall i | 0 <= i < |Parsed(context, categories, defaultCategory)|
      ensures Parsed(context, categories, defaultCategory)[i].1 == Seqs.SumFor(c, Parsed(context, categories, defaultCategory)[i].0)
    {
      Seqs.GroupSumsEntry(c, i);
    }
  }

  /** Each credit comes from a data line with a `$` amount, goes to the
      first listed category the line names, or else to the fallback. */
  lemma CreditFromLine(context: string, categories: seq<string>, defaultCategory: Option<string>, i: nat)
    requires i < |Credits(context, categories, defaultCategory)|
    ensures var c := Credits(context, categories, defaultCategory)[i];
            exists j :: 0 <= j < |DataLines(context)|
              && DollarAmount(DataLines(context)[j]) == Some(c.1)
              && c.0 == FindCategory(DataLines(context)[j], LowerNames(categories)).GetOr(Fallback(defaultCategory))
  {
    Seqs.MapNotNullFrom(DataLines(context), CreditOf(LowerNames(categories), defaultCategory), i);
  }

  /** Every key of the map is a lowercased category name or the fallback. */
  lemma ParsedKeys(context: string, categories: seq<string>, defaultCategory: Option<string>)
    ensures var p := Parsed(context, categories, defaultCategory);
            forall i :: 0 <= i < |p| ==> p[i].0 in LowerNames(categories) || p[i].0 == Fallback(defaultCategory)
  {
    var c := Credits(context, categories, defaultCategory);
    var p := Parsed(context, categories, defaultCategory);
    forall i | 0 <= i < |p| ensures p[i].0 in LowerNames(categories) || p[i].0 == Fallback(defaultCategory) {
      Seqs.GroupSumsEntry(c, i);
      var k :| 0 <= k < |c| && c[k].0 == p[i].0;
      CreditFromLine(context, categories, defaultCategory, k);
    }
  }

  /** A summary line never contributes, whatever amount it shows. */
  lemma SummaryLinesSkipped(context: string, line: string)
    requires line in Text.Lines(Text.Lower(context)) && IsSummaryLine(line)
    ensures line !in DataLines(context)
  {
  }

  lemma DollarExample()
    ensures DollarAmount("- $12.50 spent") == Some(12.5)
  {
    DollarExamplePosition();
    DollarExampleDigits();
    Numbers.ParseTwelveFifty();
  }

  lemma DollarExamplePosition()
    ensures FirstDollar("- $12.50 spent", 0) == Some(2)
    ensures SpaceRunEnd("- $12.50 spent", 3) == 3
  {
    var line := "- $12.50 spent";
    assert line[0] == '-' && line[1] == ' ' && line[2] == '$' && line[3] == '1';
    assert SpaceRunEnd(line, 3) == 3;
    assert DollarAt(line, 2);
    assert !DollarAt(line, 1);
    assert !DollarAt(line, 0);
  }

  lemma DollarExampleDigits()
    ensures Text.IsDigit("- $12.50 spent"[3])
    ensures DollarDigits("- $12.50 spent", 3) == "12.50"
  {
    var line := "- $12.50 spent";
    assert line[3] == '1' && line[4] == '2' && line[5] == '.' && line[6] == '5' && line[7] == '0';
    assert Text.DigitRunEnd(line, 5) == 5;
    assert Text.DigitRunEnd(line, 3) == 5;
    assert line[3..8] == "12.50";
  }

  // ---------------------------------------------------------------------
  // Top categories and the written summaries

  function Value(e: (string, real)): real { e.1 }

  /** `expenses.values.sum()`. */
  function Total(g: seq<(string, real)>): real {
    Seqs.Sum(g, Value)
  }

  /** `replaceFirstChar { if (it.isLowerCase()) it.titlecase() else it }`. */
  function Capitalize(s: string): (r: string)
    ensures |r| == |s| && (s != [] ==> r[1..] == s[1..])
    ensures s != [] ==> r[0] == if Text.IsLower(s[0]) then Text.UpperChar(s[0]) else s[0]
  {
    if s == [] then s else [if Text.IsLower(s[0]) then Text.UpperChar(s[0]) else s[0]] + s[1..]
  }

  lemma CapitalizeIdempotent(s: string)
    ensures Capitalize(Capitalize(s)) == Capitalize(s)
  {
  }

  /** A category line: name, amount and the truncated percentage of the total. */
  datatype Share = Share(category: string, amount: real, percentage: int)

  function ShareOf(e: (string, real), total: real): Share {
    Share(e.0, e.1, Numbers.PercentOf(e.1, total))
  }

  /** `sortedByDescending { it.value }.take(3)`. */
  function TopEntries(g: seq<(string, real)>): (r: seq<(string, real)>)
    ensures |r| == if |g| < 3 then |g| else 3
    ensures r == Seqs.SortDesc(g, Value)[..|r|]
  {
    var sorted := Seqs.SortDesc(g, Value);
    sorted[..if |g| < 3 then |g| else 3]
  }

  /** The top entries with their percentages of the total. */
  function TopCategories(g: seq<(string, real)>): (r: seq<Share>)
    ensures |r| == |TopEntries(g)|
    ensures forall i :: 0 <= i < |r| ==> r[i] == ShareOf(TopEntries(g)[i], Total(g))
  {
    var top := TopEntries(g);
    seq(|top|, i requires 0 <= i < |top| => ShareOf(top[i], Total(g)))
  }

  lemma TopEntriesSorted(g: seq<(string, real)>)
    ensures forall i, j :: 0 <= i < j < |TopEntries(g)| ==> TopEntries(g)[i].1 >= TopEntries(g)[j].1
  {
    var s := Seqs.SortDesc(g, Value);
    var t := TopEntries(g);
    forall i, j | 0 <= i < j < |t| ensures t[i].1 >= t[j].1 {
      assert t[i] == s[i] && t[j] == s[j];
      assert Value(s[i]) >= Value(s[j]);
    }
  }

  lemma TopEntriesFromMap(g: seq<(string, real)>)
    ensures forall i :: 0 <= i < |TopEntries(g)| ==> TopEntries(g)[i] in g
  {
    var s := Seqs.SortDesc(g, Value);
    var t := TopEntries(g);
    forall i | 0 <= i < |t| ensures t[i] in g {
      assert t[i] == s[i];
      assert s[i] in multiset(g);
    }
  }

  lemma TopEntriesLargest(g: seq<(string, real)>)
    ensures forall e, i :: e in g && e !in TopEntries(g) && 0 <= i < |TopEntries(g)| ==> e.1 <= TopEntries(g)[i].1
  {
    var s := Seqs.SortDesc(g, Value);
    var t := TopEntries(g);
    forall e, i | e in g && e !in t && 0 <= i < |t| ensures e.1 <= t[i].1 {
      assert e in multiset(s);
      var p :| 0 <= p < |s| && s[p] == e;
      assert p >= |t|;
      assert t[i] == s[i];
      assert Value(s[i]) >= Value(s[p]);
    }
  }

  /** The top categories come from the map, largest first, and no category
      left out has more than any shown. */
  lemma TopCategoriesLargest(g: seq<(string, real)>)
    ensures var t := TopCategories(g);
            (forall i, j :: 0 <= i < j < |t| ==> t[i].amount >= t[j].amount)
            && (forall i :: 0 <= i < |t| ==> (t[i].category, t[i].amount) in g)
            && (forall e, i :: e in g && 0 <= i < |t| && e !in TopEntries(g) ==> e.1 <= t[i].amount)
  {
    TopEntriesSorted(g);
    TopEntriesFromMap(g);
    TopEntriesLargest(g);
  }

  /** With non-negative amounts every shown percentage lies in 0..100. */
  lemma TopPercentagesBounded(g: seq<(string, real)>)
    requires forall i :: 0 <= i < |g| ==> g[i].1 >= 0.0
    ensures forall i :: 0 <= i < |TopCategories(g)| ==> 0 <= TopCategories(g)[i].percentage <= 100
  {
    TopEntriesFromMap(g);
    forall i | 0 <= i < |TopCategories(g)| ensures 0 <= TopCategories(g)[i].percentage <= 100 {
      var k :| 0 <= k < |g| && g[k] == TopEntries(g)[i];
      SumAtLeastEntry(g, k);
    }
  }

  /** With non-negative amounts one amount is at most the total. */
  lemma {:induction false} SumAtLeastEntry(g: seq<(string, real)>, k: nat)
    requires k < |g| && forall i :: 0 <= i < |g| ==> g[i].1 >= 0.0
    ensures 0.0 <= g[k].1 <= Total(g)
  {
    var init := g[..|g| - 1];
    if k < |g| - 1 {
      SumAtLeastEntry(init, k);
      assert init[k] == g[k];
    } else {
      Seqs.SumNonNegative(init, Value);
    }
  }

  function ShareLine(s: Share, currency: real -> string): string {
    "\U{2022} " + Capitalize(s.category) + ": " + currency(s.amount) + " (" + Text.IntToString(s.percentage) + "%)\n"
  }

  function ShareLines(shares: seq<Share>, currency: real -> string): string {
    if shares == [] then "" else ShareLine(shares[0], currency) + ShareLines(shares[1..], currency)
  }

  function Repeat(s: string, n: nat): (r: string)
    ensures |r| == n * |s|
  {
    if n == 0 then "" else s + Repeat(s, n - 1)
  }

  function AnalysisHeader(aiResponse: string): string {
    "\U{1F4B0} Financial Analysis\n" + Repeat("\U{2500}", 20) + "\n\n" + aiResponse + "\n\n"
  }

  /** `formatAnalysisResponse(aiResponse, expenses)`; `currency` stands for
      the currency formatter. The "Transactions" figure is the number of
      categories in the map. */
  function FormatAnalysisResponse(aiResponse: string, g: seq<(string, real)>, currency: real -> string): (r: string)
    ensures Text.StartsWith(r, AnalysisHeader(aiResponse))
  {
    var total := Total(g);
    var stats := "\U{1F4CA} Quick Stats:\n" + "\U{2022} Total: " + currency(total) + "\n"
      + "\U{2022} Transactions: " + Text.IntToString(|g|) + "\n";
    var more := if g == [] then ""
      else "\U{2022} Average: " + currency(total / |g| as real) + "\n" + "\nTop Categories:\n"
           + ShareLines(TopCategories(g), currency);
    Text.StartsWithConcat(AnalysisHeader(aiResponse), stats + more);
    AnalysisHeader(aiResponse) + (stats + more)
  }

  /** The per-category lines of the generic summary, in map order. */
  function Breakdown(g: seq<(string, real)>): (r: seq<Share>)
    ensures |r| == |g|
    ensures forall i :: 0 <= i < |r| ==> r[i] == ShareOf(g[i], Total(g))
  {
    seq(|g|, i requires 0 <= i < |g| => ShareOf(g[i], Total(g)))
  }

  const GenericHeader := "\U{1F4CA} Basic Analysis\n" + "\U{2500}\U{2500}\U{2500}\U{2500}\U{2500}\U{2500}\U{2500}\U{2500}\U{2500}\U{2500}\U{2500}\U{2500}\U{2500}\U{2500}\U{2500}\U{2500}\n"

  /** `generateGenericResponse(context)` on the parsed map. */
  function GenericResponse(g: seq<(string, real)>, currency: real -> string): (r: string)
    ensures Text.StartsWith(r, GenericHeader)
  {
    var total := Total(g);
    var head := "\U{2022} Total spending: " + currency(total) + "\n"
      + "\U{2022} Number of categories: " + Text.IntToString(|g|) + "\n";
    var more := if g == [] then ""
      else
        var h := g[Seqs.FirstMax(g)];
        "\U{2022} Average transaction: " + currency(total / |g| as real) + "\n"
        + "\U{2022} Largest expense: " + currency(h.1) + " (" + h.0 + ")\n"
        + "\nCategory Breakdown:\n" + ShareLines(Breakdown(g), currency);
    Text.StartsWithConcat(GenericHeader, head + more);
    GenericHeader + (head + more)
  }

  /** What `getResponse(question, context)` returns. `content` is the
      reply's content, `None` when the request fails or the reply has
      neither candidates nor choices. A blank reply also falls back to the
      generic summary; an analysis question gets the reply framed with the
      parsed figures. */
  function Answer(question: string, context: string, content: Option<string>,
                  categories: seq<string>, defaultCategory: Option<string>, currency: real -> string): string {
    var parsed := Parsed(context, categories, defaultCategory);
    match content
    case None => GenericResponse(parsed, currency)
    case Some(c) =>
      var text := Text.Trim(c);
      if Text.IsBlank(text) then GenericResponse(parsed, currency)
      else if ModeOf(question, context) != Analysis then text
      else FormatAnalysisResponse(text, parsed, currency)
  }

  /** The answer is the trimmed reply itself for greetings and general
      questions, framed for analysis questions, and the generic summary of
      the context when there is no usable reply. */
  lemma AnswerCases(question: string, context: string, content: Option<string>,
                    categories: seq<string>, defaultCategory: Option<string>, currency: real -> string)
    ensures var a := Answer(question, context, content, categories, defaultCategory, currency);
            (content.None? || Text.IsBlank(content.value)) ==> Text.StartsWith(a, GenericHeader)
    ensures var a := Answer(question, context, content, categories, defaultCategory, currency);
            content.Some? && !Text.IsBlank(content.value) && ModeOf(question, context) != Analysis
            ==> a == Text.Trim(content.value)
    ensures var a := Answer(question, context, content, categories, defaultCategory, currency);
            content.Some? && !Text.IsBlank(content.value) && ModeOf(question, context) == Analysis
            ==> Text.StartsWith(a, AnalysisHeader(Text.Trim(content.value)))
  {
    if content.Some? {
      TrimBlank(content.value);
    }
  }

  /** A trimmed text is blank exactly when the text was. */
  lemma TrimBlank(s: string)
    ensures Text.IsBlank(Text.Trim(s)) <==> Text.IsBlank(s)
  {
    var a := Text.TrimStart(s);
    var b := Text.TrimEnd(a);
    if Text.IsBlank(b) {
      assert b == [];
      assert a == a[..0] + a[0..];
      assert Text.IsBlank(a);
      assert s == s[..|s| - |a|] + a;
    }
  }

  /** `getResponse(question, context)`. */
  method GetResponse(question: string, context: string, content: Option<string>,
                     categories: seq<string>, defaultCategory: Option<string>, currency: real -> string)
    returns (r: string)
    ensures r == Answer(question, context, content, categories, defaultCategory, currency)
  {
    var isGreeting := IsGreeting(question);
    var isAnalysisQuery := !isGreeting && ShouldProvideDetailedAnalysis(question, context);
    assert isAnalysisQuery <==> ModeOf(question, context) == Analysis;
    match content {
      case None =>
        var expenses := ParseFinancialData(context, categories, defaultCategory);
        r := GenericResponse(expenses, currency);
      case Some(c) =>
        var text := Text.Trim(c);
        if Text.IsBlank(text) {
          var expenses := ParseFinancialData(context, categories, defaultCategory);
          r := GenericResponse(expenses, currency);
        } else if !isAnalysisQuery {
          r := text;
        } else {
          var expenses := ParseFinancialData(context, categories, defaultCategory);
          r := FormatAnalysisResponse(text, expenses, currency);
        }
    }
  }
}
