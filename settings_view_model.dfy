/** The settings screen's view model: the monthly series behind the
    expense forecast and its six-month trend, the budget and theme
    switches, and the chat with the assistant, whose history only grows. */
module SettingsViewModel {
  import Seqs
  import Text
  import Numbers
  import Calendar
  import opened Wrappers
  import opened Entities
  import Prediction
  import SettingsDao
  import SettingsRepository
  import ThemeRepository
  import ExpenseDao
  import CategoryDao
  import ExpenseRepository
  import StatisticsViewModel
  import OpenRouterInferenceSvc

  // ---------------------------------------------------------------------
  // The monthly series

  /** Each expense's month key `YEAR * 12 + MONTH` and amount, in order. */
  function MonthPairs(expenses: seq<ExpenseUiModel>): (r: seq<(int, real)>)
    ensures |r| == |expenses|
    ensures forall i :: 0 <= i < |r| ==> r[i] == (Calendar.MonthKey(expenses[i].date), expenses[i].amount)
  {
    seq(|expenses|, i requires 0 <= i < |expenses| => (Calendar.MonthKey(expenses[i].date), expenses[i].amount))
  }

  /** `sortedBy { it.first }` is the stable descending sort on the negated key. */
  function NegatedMonth(p: (int, real)): real { -(p.0 as real) }

  function MonthOf(p: (int, real)): int { p.0 }

  /** The month totals, `groupBy`/`mapValues { sumOf }`/`sortedBy { it.first }`,
      still under their month keys. */
  function MonthTotals(expenses: seq<ExpenseUiModel>): seq<(int, real)> {
    Seqs.SortDesc(Seqs.GroupSums(MonthPairs(expenses)), NegatedMonth)
  }

  /** `mapIndexed { index, pair -> index to pair.second }`. */
  function Reindexed(s: seq<(int, real)>): (r: seq<(int, real)>)
    ensures |r| == |s|
    ensures forall i :: 0 <= i < |r| ==> r[i] == (i, s[i].1)
  {
    seq(|s|, i requires 0 <= i < |s| => (i, s[i].1))
  }

  /** `monthlyExpenses`: the month totals in calendar order, numbered 0..k-1. */
  function MonthlySeries(expenses: seq<ExpenseUiModel>): seq<(int, real)> {
    Reindexed(MonthTotals(expenses))
  }

  /** The amounts of `monthlyExpenseTrend`: those of the last six months of
      the series, oldest first. */
  function Trend(series: seq<(int, real)>): (r: seq<real>)
    ensures |r| == if |series| < 6 then |series| else 6
    ensures forall i :: 0 <= i < |r| ==> r[i] == series[|series| - |r| + i].1
  {
    Prediction.Values(Seqs.TakeLast(series, 6))
  }

  lemma MonthTotalsSorted(expenses: seq<ExpenseUiModel>)
    ensures var m := MonthTotals(expenses);
            forall i, j :: 0 <= i < j < |m| ==> m[i].0 < m[j].0
  {
    var pairs := MonthPairs(expenses);
    var g := Seqs.GroupSums(pairs);
    Seqs.GroupSumsSpec(pairs);
    assert Seqs.DistinctBy(g, MonthOf) by {
      forall i, j | 0 <= i < j < |g| ensures MonthOf(g[i]) != MonthOf(g[j]) {
        assert Seqs.KeysOf(g)[i] != Seqs.KeysOf(g)[j];
      }
    }
    Seqs.SortDescDistinctBy(g, NegatedMonth, MonthOf);
    var m := MonthTotals(expenses);
    forall i, j | 0 <= i < j < |m| ensures m[i].0 < m[j].0 {
      assert NegatedMonth(m[i]) >= NegatedMonth(m[j]);
      assert MonthOf(m[i]) != MonthOf(m[j]);
    }
  }

  /** An entry of the month totals is a month some expense falls in, and its
      total is the sum of that month's amounts. */
  lemma MonthTotalEntry(expenses: seq<ExpenseUiModel>, i: nat)
    requires i < |MonthTotals(expenses)|
    ensures var m := MonthTotals(expenses);
            m[i].1 == Seqs.SumFor(MonthPairs(expenses), m[i].0)
            && exists j :: 0 <= j < |expenses| && Calendar.MonthKey(expenses[j].date) == m[i].0
  {
    var pairs := MonthPairs(expenses);
    var g := Seqs.GroupSums(pairs);
    var m := MonthTotals(expenses);
    var j := SortedFrom(g, m, i);
    Seqs.GroupSumsEntry(pairs, j);
    var k :| 0 <= k < |pairs| && pairs[k].0 == g[j].0;
    assert Calendar.MonthKey(expenses[k].date) == pairs[k].0;
  }

  /** An element of a permutation sits at some index of the original. */
  lemma SortedFrom(g: seq<(int, real)>, m: seq<(int, real)>, i: nat) returns (j: nat)
    requires multiset(m) == multiset(g) && i < |m|
    ensures j < |g| && g[j] == m[i]
  {
    assert m[i] in multiset(g);
    j :| 0 <= j < |g| && g[j] == m[i];
  }

  /** Every month with an expense has an entry. */
  lemma MonthTotalsComplete(expenses: seq<ExpenseUiModel>, j: nat)
    requires j < |expenses|
    ensures var m := MonthTotals(expenses);
            exists i :: 0 <= i < |m| && m[i].0 == Calendar.MonthKey(expenses[j].date)
  {
    var pairs := MonthPairs(expenses);
    var g := Seqs.GroupSums(pairs);
    var m := MonthTotals(expenses);
    Seqs.GroupSumsHas(pairs, j);
    var n :| 0 <= n < |g| && g[n].0 == pairs[j].0;
    var i := SortedFrom(m, g, n);
  }

  /** The series has one entry per month that has an expense, in ascending
      calendar order, numbered from 0, each holding that month's total. */
  lemma MonthlySeriesSpec(expenses: seq<ExpenseUiModel>)
    ensures var m := MonthTotals(expenses);
            var s := MonthlySeries(expenses);
            |s| == |m|
            && (forall i :: 0 <= i < |s| ==> s[i].0 == i && s[i].1 == Seqs.SumFor(MonthPairs(expenses), m[i].0))
            && (forall i, j :: 0 <= i < j < |m| ==> m[i].0 < m[j].0)
            && (forall i :: 0 <= i < |m| ==>
                  exists j :: 0 <= j < |expenses| && Calendar.MonthKey(expenses[j].date) == m[i].0)
            && (forall j :: 0 <= j < |expenses| ==>
                  exists i :: 0 <= i < |m| && m[i].0 == Calendar.MonthKey(expenses[j].date))
  {
    MonthTotalsSorted(expenses);
    forall i | 0 <= i < |MonthTotals(expenses)|
      ensures MonthTotals(expenses)[i].1 == Seqs.SumFor(MonthPairs(expenses), MonthTotals(expenses)[i].0)
      ensures exists j :: 0 <= j < |expenses| && Calendar.MonthKey(expenses[j].date) == MonthTotals(expenses)[i].0
    {
      MonthTotalEntry(expenses, i);
    }
    forall j | 0 <= j < |expenses|
      ensures exists i :: 0 <= i < |MonthTotals(expenses)| && MonthTotals(expenses)[i].0 == Calendar.MonthKey(expenses[j].date)
    {
      MonthTotalsComplete(expenses, j);
    }
  }

  /** A month's total is non-negative when its amounts are. */
  lemma {:induction false} SumForNonNegative(pairs: seq<(int, real)>, k: int)
    requires forall i :: 0 <= i < |pairs| ==> pairs[i].1 >= 0.0
    ensures Seqs.SumFor(pairs, k) >= 0.0
  {
    if pairs != [] {
      SumForNonNegative(pairs[..|pairs| - 1], k);
    }
  }

  /** The forecast reads the whole series, of which the trend shows only
      the tail; with non-negative amounts it is non-negative, and with fewer
      than two months of data it is zero. */
  lemma ForecastOfSeries(expenses: seq<ExpenseUiModel>)
    ensures |MonthlySeries(expenses)| < 2 ==> Prediction.Predict(MonthlySeries(expenses)) == 0.0
    ensures (forall i :: 0 <= i < |expenses| ==> expenses[i].amount >= 0.0)
            ==> Prediction.Predict(MonthlySeries(expenses)) >= 0.0
  {
    var s := MonthlySeries(expenses);
    if forall i :: 0 <= i < |expenses| ==> expenses[i].amount >= 0.0 {
      var m := MonthTotals(expenses);
      forall i | 0 <= i < |s| ensures s[i].1 >= 0.0 {
        MonthTotalEntry(expenses, i);
        SumForNonNegative(MonthPairs(expenses), m[i].0);
      }
      Prediction.PredictNonNegative(s);
    }
  }

  // ---------------------------------------------------------------------
  // The basic analysis used when the assistant cannot be reached

  datatype Highest = Highest(category: string, amount: real, percentage: int)

  /** What `generateBasicAnalysis` reports, before it is written out. */
  datatype Analysis = Analysis(total: real, transactions: nat, highest: Option<Highest>)

  function BasicAnalysis(expenses: seq<ExpenseUiModel>): (a: Analysis)
    ensures a.total == Seqs.Sum(expenses, UiAmount) && a.transactions == |expenses|
    ensures a.highest.None? <==> expenses == []
  {
    var total := Seqs.Sum(expenses, UiAmount);
    var g := StatisticsViewModel.CategoryAmounts(expenses);
    StatisticsViewModel.GroupsCoverExpenses(expenses);
    if g == [] then Analysis(total, |expenses|, None)
    else
      var i := Seqs.FirstMax(g);
      Analysis(total, |expenses|, Some(Highest(g[i].0, g[i].1, Numbers.PercentOf(g[i].1, total))))
  }

  /** The highest category is one the expenses name; its amount is that
      category's sum, it is the first category in order of first appearance
      with the largest sum, and its percentage is its share of the total. */
  lemma HighestCategory(expenses: seq<ExpenseUiModel>)
    requires expenses != []
    ensures var h := BasicAnalysis(expenses).highest.value;
            var pairs := StatisticsViewModel.Pairs(expenses);
            (exists j :: 0 <= j < |expenses| && expenses[j].categoryName == h.category)
            && h.amount == Seqs.SumFor(pairs, h.category)
            && (forall j :: 0 <= j < |expenses| ==> Seqs.SumFor(pairs, expenses[j].categoryName) <= h.amount)
            && (forall j :: 0 <= j < |expenses| && Seqs.SumFor(pairs, expenses[j].categoryName) == h.amount ==>
                  exists k :: 0 <= k <= j && expenses[k].categoryName == h.category)
            && h.percentage == Numbers.PercentOf(h.amount, Seqs.Sum(expenses, UiAmount))
  {
    var pairs := StatisticsViewModel.Pairs(expenses);
    var g := StatisticsViewModel.CategoryAmounts(expenses);
    StatisticsViewModel.GroupsCoverExpenses(expenses);
    var i := Seqs.FirstMax(g);
    var h := BasicAnalysis(expenses).highest.value;
    assert h.category == g[i].0 && h.amount == g[i].1;
    Seqs.GroupSumsEntry(pairs, i);
    var k :| 0 <= k < |pairs| && pairs[k].0 == g[i].0;
    assert expenses[k].categoryName == h.category;
    forall j | 0 <= j < |expenses| ensures Seqs.SumFor(pairs, expenses[j].categoryName) <= h.amount {
      Seqs.GroupSumsHas(pairs, j);
    }
    Seqs.GroupSumsSpec(pairs);
    forall j | 0 <= j < |expenses| && Seqs.SumFor(pairs, expenses[j].categoryName) == h.amount
      ensures exists k :: 0 <= k <= j && expenses[k].categoryName == h.category
    {
      Seqs.GroupSumsHas(pairs, j);
      var n :| 0 <= n < |g| && g[n].0 == pairs[j].0 && g[n].1 == Seqs.SumFor(pairs, pairs[j].0);
      assert Seqs.KeysOf(g)[n] == g[n].0 && Seqs.KeysOf(g)[i] == g[i].0;
      Seqs.FirstKeysOrder(pairs, i, n, j);
      var k :| 0 <= k <= j && pairs[k].0 == g[i].0;
      assert expenses[k].categoryName == h.category;
    }
  }

  const AnalysisHeader := "\U{1F4CA} Basic Expense Analysis\n"

  function Suggestion(category: string): string {
    "\nSuggestion: Consider setting a budget limit for " + category + " to reduce expenses.\n"
  }

  /** The lines about the highest category, ending with the suggestion. */
  function HighestText(h: Highest, money: real -> string): (t: string)
    ensures Text.EndsWith(t, Suggestion(h.category))
  {
    var front := "\nHighest spending category: " + h.category + "\n"
      + "Amount: $" + money(h.amount) + " (" + Text.IntToString(h.percentage) + "%)\n";
    var t := front + Suggestion(h.category);
    assert t[|t| - |Suggestion(h.category)|..] == Suggestion(h.category);
    t
  }

  /** The basic analysis written out; `money` stands for `"%.2f".format`. */
  function AnalysisText(a: Analysis, money: real -> string): (t: string)
    ensures Text.StartsWith(t, AnalysisHeader)
    ensures a.highest.Some? ==> Text.EndsWith(t, Suggestion(a.highest.value.category))
  {
    var summary := "Total spending: $" + money(a.total) + "\n"
      + "Number of transactions: " + Text.IntToString(a.transactions) + "\n";
    var tail := if a.highest.Some? then HighestText(a.highest.value, money) else "";
    var front := AnalysisHeader + summary;
    Text.StartsWithConcat(AnalysisHeader, summary);
    Text.StartsWithExtend(front, AnalysisHeader, tail);
    if a.highest.Some? then
      Text.EndsWithExtend(front, tail, Suggestion(a.highest.value.category));
      front + tail
    else front + tail
  }

  /** `generateBasicAnalysis(expenses)`. */
  function BasicAnalysisText(expenses: seq<ExpenseUiModel>, money: real -> string): string {
    AnalysisText(BasicAnalysis(expenses), money)
  }

  // ---------------------------------------------------------------------
  // The expense context handed to the assistant

  /** One line of the context; `amountText` and `dateText` stand for the
      string templates of a Double and a Date. */
  function ContextLine(e: ExpenseUiModel, amountText: real -> string, dateText: Calendar.Date -> string): string {
    "- $" + amountText(e.amount) + " spent at " + e.place + " (" + e.categoryName + ") on " + dateText(e.date) + "\n"
  }

  function ContextLines(expenses: seq<ExpenseUiModel>, amountText: real -> string,
                        dateText: Calendar.Date -> string): string {
    if expenses == [] then ""
    else ContextLines(expenses[..|expenses| - 1], amountText, dateText)
         + ContextLine(expenses[|expenses| - 1], amountText, dateText)
  }

  const ContextHeader := "Here are your recent expenses:\n"

  /** `buildExpenseContext(expenses)`: empty exactly when there are no
      expenses; otherwise a header, a line per expense and the total. */
  function ExpenseContext(expenses: seq<ExpenseUiModel>, amountText: real -> string,
                          dateText: Calendar.Date -> string, money: real -> string): (r: string)
    ensures r == "" <==> expenses == []
    ensures expenses != [] ==> Text.StartsWith(r, ContextHeader)
    ensures expenses != [] ==> Text.EndsWith(r, "\nTotal spending: $" + money(Seqs.Sum(expenses, UiAmount)) + "\n")
  {
    if expenses == [] then ""
    else
      var footer := "\nTotal spending: $" + money(Seqs.Sum(expenses, UiAmount)) + "\n";
      var r := ContextHeader + ContextLines(expenses, amountText, dateText) + footer;
      assert r[..|ContextHeader|] == ContextHeader;
      assert r[|r| - |footer|..] == footer;
      r
  }

  /** Adding an expense adds its line in front of the total. */
  lemma ContextLinesSnoc(expenses: seq<ExpenseUiModel>, e: ExpenseUiModel, amountText: real -> string,
                         dateText: Calendar.Date -> string)
    ensures ContextLines(expenses + [e], amountText, dateText)
            == ContextLines(expenses, amountText, dateText) + ContextLine(e, amountText, dateText)
  {
    assert (expenses + [e])[..|expenses|] == expenses;
  }

  // ---------------------------------------------------------------------
  // The chat

  datatype ChatMessage = ChatMessage(content: string, isUser: bool)

  const NoExpensesReply := "I notice you don't have any expenses recorded yet. Please add some expenses first so I can help analyze them."
  const SendErrorReply := "Sorry, I couldn't process your request. Please try again."
  const AnalyzeRequest := "Analyze my spending patterns"
  const AnalyzeQuestion := "Analyze my spending patterns and provide financial advice."
  const AnalyzeErrorReply := "Sorry, there was an error analyzing your expenses. Please try again."

  /** What the chat shows after `sendMessage(message)`. `expenses` is the
      outcome of reading the expenses (`None`: the read threw); `reply` is
      the assistant's answer (`None`: the call threw). */
  function Sent(history: seq<ChatMessage>, message: string, expenses: Option<seq<ExpenseUiModel>>,
                reply: Option<string>, money: real -> string): seq<ChatMessage> {
    if Text.IsBlank(message) then history
    else history + [ChatMessage(message, true), ChatMessage(Answer(expenses, reply, money), false)]
  }

  /** The answer to a message that is not blank. */
  function Answer(expenses: Option<seq<ExpenseUiModel>>, reply: Option<string>, money: real -> string): string {
    match expenses
    case None => SendErrorReply
    case Some(es) => if es == [] then NoExpensesReply else ReplyOrAnalysis(reply, es, money)
  }

  /** The assistant's answer when the call came back, the basic analysis
      when it threw. */
  function ReplyOrAnalysis(reply: Option<string>, expenses: seq<ExpenseUiModel>, money: real -> string): string {
    match reply
    case Some(text) => text
    case None => BasicAnalysisText(expenses, money)
  }

  /** What the chat shows after `analyzeAllData()`: the request is shown
      only once the expenses have been read. */
  function Analyzed(history: seq<ChatMessage>, expenses: Option<seq<ExpenseUiModel>>,
                    reply: Option<string>, money: real -> string): seq<ChatMessage> {
    match expenses
    case None => history + [ChatMessage(AnalyzeErrorReply, false)]
    case Some(es) =>
      history + [ChatMessage(AnalyzeRequest, true), ChatMessage(ReplyOrAnalysis(reply, es, money), false)]
  }

  /** The assistant behind `openRouterInferenceSvc.getResponse`: whether the
      call throws past its own `IOException` handler, the content of the
      model's reply (`None` when the request fails), the category names and
      default category it reads, and its currency formatter. */
  datatype Assistant = Assistant(throws: bool, content: Option<string>, categories: seq<string>,
                                 defaultCategory: Option<string>, currency: real -> string)

  /** What `getResponse(question, context)` gives back: `None` when it
      throws, otherwise the service's answer. */
  function Reply(question: string, context: string, assistant: Assistant): Option<string> {
    if assistant.throws then None
    else Some(OpenRouterInferenceSvc.Answer(question, context, assistant.content, assistant.categories,
                                            assistant.defaultCategory, assistant.currency))
  }

  /** The reply `sendMessage` asks for: the message over the context of the
      expenses read (`amountText` and `dateText` stand for `Double.toString`
      and `Date.toString`). */
  function SendReply(message: string, expenses: Option<seq<ExpenseUiModel>>, assistant: Assistant,
                     amountText: real -> string, dateText: Calendar.Date -> string, money: real -> string): Option<string> {
    match expenses
    case None => None
    case Some(es) => Reply(message, ExpenseContext(es, amountText, dateText, money), assistant)
  }

  /** The reply `analyzeAllData` asks for: the fixed question over the same
      context. */
  function AnalysisReply(expenses: Option<seq<ExpenseUiModel>>, assistant: Assistant,
                         amountText: real -> string, dateText: Calendar.Date -> string, money: real -> string): Option<string> {
    SendReply(AnalyzeQuestion, expenses, assistant, amountText, dateText, money)
  }

  /** When there are expenses and the service returns, the chat's answer is
      the service's answer to the message over the expense context: the
      trimmed reply for a chat question, the generic summary of the context
      when the model gave nothing usable. */
  lemma SentUsesService(history: seq<ChatMessage>, message: string, es: seq<ExpenseUiModel>, assistant: Assistant,
                        amountText: real -> string, dateText: Calendar.Date -> string, money: real -> string)
    requires !Text.IsBlank(message) && es != [] && !assistant.throws
    ensures var context := ExpenseContext(es, amountText, dateText, money);
            var a := Sent(history, message, Some(es), SendReply(message, Some(es), assistant, amountText, dateText, money), money)[|history| + 1].content;
            a == OpenRouterInferenceSvc.Answer(message, context, assistant.content, assistant.categories,
                                               assistant.defaultCategory, assistant.currency)
            && (assistant.content.None? ==> Text.StartsWith(a, OpenRouterInferenceSvc.GenericHeader))
            && (assistant.content.Some? && !Text.IsBlank(assistant.content.value)
                && OpenRouterInferenceSvc.ModeOf(message, context) != OpenRouterInferenceSvc.Analysis
                ==> a == Text.Trim(assistant.content.value))
  {
    var context := ExpenseContext(es, amountText, dateText, money);
    OpenRouterInferenceSvc.AnswerCases(message, context, assistant.content, assistant.categories,
                                       assistant.defaultCategory, assistant.currency);
  }

  /** A blank message changes nothing; any other is shown first, followed
      by exactly one answer from the assistant's side. */
  lemma SentShape(history: seq<ChatMessage>, message: string, expenses: Option<seq<ExpenseUiModel>>,
                  reply: Option<string>, money: real -> string)
    ensures var h := Sent(history, message, expenses, reply, money);
            history <= h
            && (Text.IsBlank(message) <==> h == history)
            && (!Text.IsBlank(message) ==>
                  |h| == |history| + 2 && h[|history|] == ChatMessage(message, true) && !h[|history| + 1].isUser)
  {
  }

  /** The answer to a message: the fixed notice when there are no
      expenses, the assistant's reply when it came, the basic analysis when
      the call failed, and the error notice when the read failed. */
  lemma SentAnswer(history: seq<ChatMessage>, message: string, expenses: Option<seq<ExpenseUiModel>>,
                   reply: Option<string>, money: real -> string)
    requires !Text.IsBlank(message)
    ensures var a := Sent(history, message, expenses, reply, money)[|history| + 1].content;
            (expenses.None? ==> a == SendErrorReply)
            && (expenses == Some([]) ==> a == NoExpensesReply)
            && (expenses.Some? && expenses.value != [] && reply.Some? ==> a == reply.value)
            && (expenses.Some? && expenses.value != [] && reply.None? ==>
                  a == BasicAnalysisText(expenses.value, money))
  {
  }

  /** An analysis request always adds to the history: the request and an
      answer, or only the error notice. */
  lemma AnalyzedShape(history: seq<ChatMessage>, expenses: Option<seq<ExpenseUiModel>>,
                      reply: Option<string>, money: real -> string)
    ensures var h := Analyzed(history, expenses, reply, money);
            history < h
            && (expenses.None? ==> h == history + [ChatMessage(AnalyzeErrorReply, false)])
            && (expenses.Some? ==>
                  |h| == |history| + 2 && h[|history|] == ChatMessage(AnalyzeRequest, true)
                  && h[|history| + 1].content == (if reply.Some? then reply.value else BasicAnalysisText(expenses.value, money))
                  && !h[|history| + 1].isUser)
  {
  }

  class SettingsViewModel {
    const settingsRepository: SettingsRepository.SettingsRepository
    const expenseRepository: ExpenseRepository.ExpenseRepository
    const themeRepository: ThemeRepository.ThemeRepository

    /** `_chatHistory`. */
    var chatHistory: seq<ChatMessage>
    /** `_isAnalyzing`. */
    var isAnalyzing: bool
    /** The amounts of `_monthlyExpenseTrend`. */
    var monthlyExpenseTrend: seq<real>
    /** `_predictedExpense`. */
    var predictedExpense: real
    /** `_isBudgetSaved`. */
    var isBudgetSaved: bool

    /** The repository read behind `getAllExpenses()`; `failed` stands for
        a read that throws. */
    function ReadExpenses(failed: bool): (r: Option<seq<ExpenseUiModel>>)
      reads expenseRepository.expenseDao, expenseRepository.categoryDao
      requires expenseRepository.Valid()
      ensures failed <==> r.None?
      ensures !failed ==> r.value == ExpenseRepository.Join(expenseRepository.expenseDao.rows,
                                                           expenseRepository.categoryDao.rows)
    {
      if failed then None else Some(expenseRepository.Expenses())
    }

    /** The view model starts with an empty chat and runs `calculatePrediction`. */
    constructor (settingsRepository: SettingsRepository.SettingsRepository,
                 expenseRepository: ExpenseRepository.ExpenseRepository,
                 themeRepository: ThemeRepository.ThemeRepository)
      requires expenseRepository.Valid()
      ensures this.settingsRepository == settingsRepository && this.expenseRepository == expenseRepository
      ensures this.themeRepository == themeRepository
      ensures chatHistory == [] && !isAnalyzing && !isBudgetSaved
      ensures var series := MonthlySeries(expenseRepository.Expenses());
              monthlyExpenseTrend == Trend(series) && predictedExpense == Prediction.Predict(series)
    {
      this.settingsRepository := settingsRepository;
      this.expenseRepository := expenseRepository;
      this.themeRepository := themeRepository;
      chatHistory := [];
      isAnalyzing := false;
      isBudgetSaved := false;
      var series := MonthlySeries(expenseRepository.Expenses());
      var forecast := Prediction.PredictNextMonthExpense(series);
      monthlyExpenseTrend := Trend(series);
      predictedExpense := forecast;
    }

    /** `calculatePrediction()`: the trend shows the last six months of the
        series and the forecast is made from all of it. */
    method CalculatePrediction()
      requires expenseRepository.Valid()
      modifies this
      ensures var series := MonthlySeries(expenseRepository.Expenses());
              monthlyExpenseTrend == Trend(series) && predictedExpense == Prediction.Predict(series)
      ensures chatHistory == old(chatHistory) && isAnalyzing == old(isAnalyzing)
      ensures isBudgetSaved == old(isBudgetSaved)
    {
      var series := MonthlySeries(expenseRepository.Expenses());
      monthlyExpenseTrend := Trend(series);
      predictedExpense := Prediction.PredictNextMonthExpense(series);
    }

    /** `toggleTheme()`. */
    method ToggleTheme()
      modifies themeRepository
      ensures themeRepository.State() == ThemeRepository.Toggled(old(themeRepository.State()))
      ensures themeRepository.isDarkMode == !old(themeRepository.isDarkMode)
    {
      themeRepository.ToggleDarkMode();
    }

    /** `saveBudget(budget)`: the budget is stored, and the saved flag,
        raised for two seconds, is down again when the call completes. */
    method SaveBudget(budget: real)
      requires settingsRepository.dao.Valid()
      modifies settingsRepository.dao, this
      ensures settingsRepository.dao.Valid()
      ensures settingsRepository.dao.rows == old(settingsRepository.dao.rows)
                                             + [Budget(old(settingsRepository.dao.lastId) + 1, budget)]
      ensures settingsRepository.GetDailyBudget() == budget
      ensures !isBudgetSaved
      ensures chatHistory == old(chatHistory) && isAnalyzing == old(isAnalyzing)
      ensures monthlyExpenseTrend == old(monthlyExpenseTrend) && predictedExpense == old(predictedExpense)
    {
      settingsRepository.SaveBudget(budget);
      isBudgetSaved := true;
      isBudgetSaved := false;
    }

    /** `sendMessage(message)`. `readFails` says whether reading the
        expenses throws; `assistant` stands for the service behind
        `getResponse`; `money` stands for `"%.2f".format`. */
    method SendMessage(message: string, readFails: bool, assistant: Assistant,
                       amountText: real -> string, dateText: Calendar.Date -> string, money: real -> string)
      requires expenseRepository.Valid()
      modifies this`chatHistory, this`isAnalyzing
      ensures chatHistory == Sent(old(chatHistory), message, ReadExpenses(readFails),
                                  SendReply(message, ReadExpenses(readFails), assistant, amountText, dateText, money), money)
      ensures Text.IsBlank(message) ==> isAnalyzing == old(isAnalyzing)
      ensures !Text.IsBlank(message) ==> !isAnalyzing
    {
      if Text.IsBlank(message) {
        return;
      }
      isAnalyzing := true;
      var read := ReadExpenses(readFails);
      var reply := None;
      if read.Some? && read.value != [] {
        reply := Ask(message, read.value, assistant, amountText, dateText, money);
      }
      PostExchange(message, read, reply, money);
      isAnalyzing := false;
    }

    /** The call to `getResponse` over the context of the expenses. */
    method Ask(question: string, expenses: seq<ExpenseUiModel>, assistant: Assistant,
               amountText: real -> string, dateText: Calendar.Date -> string, money: real -> string)
      returns (reply: Option<string>)
      ensures reply == SendReply(question, Some(expenses), assistant, amountText, dateText, money)
    {
      if assistant.throws {
        return None;
      }
      var expenseContext := ExpenseContext(expenses, amountText, dateText, money);
      var response := OpenRouterInferenceSvc.GetResponse(question, expenseContext, assistant.content, assistant.categories,
                                                         assistant.defaultCategory, assistant.currency);
      reply := Some(response);
    }

    /** The user's message joins the chat, then the answer to it. */
    method PostExchange(message: string, read: Option<seq<ExpenseUiModel>>, reply: Option<string>, money: real -> string)
      modifies this`chatHistory
      ensures chatHistory == old(chatHistory) + [ChatMessage(message, true), ChatMessage(Answer(read, reply, money), false)]
    {
      chatHistory := chatHistory + [ChatMessage(message, true)];
      PostAnswer(read, reply, money);
      Seqs.SnocTwo(old(chatHistory), ChatMessage(message, true), ChatMessage(Answer(read, reply, money), false));
    }

    /** The `try` block of `sendMessage` after the read: the answer joins
        the chat. */
    method PostAnswer(read: Option<seq<ExpenseUiModel>>, reply: Option<string>, money: real -> string)
      modifies this`chatHistory
      ensures chatHistory == old(chatHistory) + [ChatMessage(Answer(read, reply, money), false)]
    {
      match read {
        case None =>
          chatHistory := chatHistory + [ChatMessage(SendErrorReply, false)];
        case Some(expenses) =>
          if expenses == [] {
            chatHistory := chatHistory + [ChatMessage(NoExpensesReply, false)];
          } else {
            var response := ReplyOrAnalysis(reply, expenses, money);
            chatHistory := chatHistory + [ChatMessage(response, false)];
          }
      }
    }

    /** `analyzeAllData()`, with the same stand-ins as `SendMessage`. */
    method AnalyzeAllData(readFails: bool, assistant: Assistant,
                          amountText: real -> string, dateText: Calendar.Date -> string, money: real -> string)
      requires expenseRepository.Valid()
      modifies this`chatHistory, this`isAnalyzing
      ensures chatHistory == Analyzed(old(chatHistory), ReadExpenses(readFails),
                                      AnalysisReply(ReadExpenses(readFails), assistant, amountText, dateText, money), money)
      ensures !isAnalyzing
    {
      isAnalyzing := true;
      var read := ReadExpenses(readFails);
      var reply := None;
      if read.Some? {
        reply := Ask(AnalyzeQuestion, read.value, assistant, amountText, dateText, money);
      }
      PostAnalysis(read, reply, money);
      isAnalyzing := false;
    }

    /** The body of `analyzeAllData` after the read: the request, then the
        answer, or only the error notice. */
    method PostAnalysis(read: Option<seq<ExpenseUiModel>>, reply: Option<string>, money: real -> string)
      modifies this`chatHistory
      ensures chatHistory == Analyzed(old(chatHistory), read, reply, money)
    {
      match read {
        case None =>
          chatHistory := chatHistory + [ChatMessage(AnalyzeErrorReply, false)];
        case Some(expenses) =>
          chatHistory := chatHistory + [ChatMessage(AnalyzeRequest, true)];
          var response := ReplyOrAnalysis(reply, expenses, money);
          chatHistory := chatHistory + [ChatMessage(response, false)];
          assert chatHistory == old(chatHistory) + [ChatMessage(AnalyzeRequest, true), ChatMessage(response, false)];
      }
    }
  }
}
