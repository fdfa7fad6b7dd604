/** `HomeViewModel`: the newest-first expense list, next-due dates of
    recurring expenses, and adding or clearing expenses. */
module HomeViewModel {
  import opened Wrappers
  import opened Entities
  import Calendar
  import Seqs
  import Tables
  import ExpenseDao
  import ExpenseRepository

  /** `calculateNextDueDate(currentDate, period)`: none without a period, one
      calendar month on for MONTHLY, one calendar year on for YEARLY. */
  function CalculateNextDueDate(currentDate: Calendar.Date, period: Option<RecurringPeriod>): (r: Option<Calendar.Date>)
    ensures r.None? <==> period.None?
    ensures period == Some(Monthly) ==> Calendar.MonthKey(r.value) == Calendar.MonthKey(currentDate) + 1
    ensures period == Some(Yearly) ==>
              Calendar.Year(r.value) == Calendar.Year(currentDate) + 1 && Calendar.Month(r.value) == Calendar.Month(currentDate)
    ensures r.Some? ==> Calendar.MillisOfDay(r.value) == Calendar.MillisOfDay(currentDate)
    ensures r.Some? ==> Calendar.DayOfMonth(r.value) <= Calendar.DayOfMonth(currentDate)
  {
    match period
    case None => None
    case Some(Monthly) =>
      Calendar.AddMonthsFields(currentDate, 1);
      Some(Calendar.AddMonths(currentDate, 1))
    case Some(Yearly) =>
      var d := Calendar.AddMonths(currentDate, 12);
      Calendar.AddMonthsFields(currentDate, 12);
      assert Calendar.ValidCivil(Calendar.CivilOf(d)) && Calendar.ValidCivil(Calendar.CivilOf(currentDate));
      Some(d)
  }

  /** The copy `addExpense` stores: only the next due date is recomputed. */
  function WithDueDate(ui: ExpenseUiModel): (r: ExpenseUiModel)
    ensures r.(nextDueDate := ui.nextDueDate) == ui
    ensures r.nextDueDate == CalculateNextDueDate(ui.date, ui.recurringPeriod)
  {
    ui.(nextDueDate := CalculateNextDueDate(ui.date, ui.recurringPeriod))
  }

  /** `sortedByDescending { it.date }`. */
  function NewestFirst(expenses: seq<ExpenseUiModel>): (r: seq<ExpenseUiModel>)
    ensures multiset(r) == multiset(expenses)
    ensures Seqs.SortedDesc(r, UiTime)
  {
    Seqs.SortDesc(expenses, UiTime)
  }

  /** Expenses on the same instant keep their table order. */
  lemma NewestFirstStable(expenses: seq<ExpenseUiModel>, t: real)
    ensures Seqs.WithKey(NewestFirst(expenses), UiTime, t) == Seqs.WithKey(expenses, UiTime, t)
  {
    Seqs.SortDescStable(expenses, UiTime, t);
  }

  class HomeViewModel {
    const repository: ExpenseRepository.ExpenseRepository
    /** `HomeUiState.isExpenseAdded`. */
    var isExpenseAdded: bool

    constructor (repository: ExpenseRepository.ExpenseRepository)
      ensures this.repository == repository && !isExpenseAdded
    {
      this.repository := repository;
      isExpenseAdded := false;
    }

    /** `expenses`: the repository's list, newest first. */
    function Expenses(): (r: seq<ExpenseUiModel>)
      reads repository.expenseDao, repository.categoryDao
      requires repository.Valid()
      ensures multiset(r) == multiset(repository.Expenses())
      ensures Seqs.SortedDesc(r, UiTime)
    {
      NewestFirst(repository.Expenses())
    }

    /** `addExpense(ui)`: stores `WithDueDate(ui)`. An unknown category's
        `IllegalArgumentException` is caught and nothing happens; a primary-key
        clash is not caught and comes back as the error. */
    method AddExpense(ui: ExpenseUiModel) returns (r: Result<()>)
      requires repository.Valid()
      modifies this, repository.expenseDao
      ensures repository.Valid()
      ensures var next := ExpenseRepository.Added(old(repository.expenseDao.State()), repository.categoryDao.rows, WithDueDate(ui));
              (next.Ok? ==> r == Ok(()) && isExpenseAdded && repository.expenseDao.State() == next.value)
              && (next.Err? ==> isExpenseAdded == old(isExpenseAdded)
                                && repository.expenseDao.State() == old(repository.expenseDao.State())
                                && r == if next.error == ExpenseRepository.CategoryNotFound then Ok(()) else Err(next.error))
    {
      var res := repository.AddExpense(WithDueDate(ui));
      if res.Ok? {
        isExpenseAdded := true;
        r := Ok(());
      } else if res.error == ExpenseRepository.CategoryNotFound {
        r := Ok(());
      } else {
        r := res;
      }
    }

    /** `deleteAllExpenses()`. */
    method DeleteAllExpenses()
      requires repository.Valid()
      modifies repository.expenseDao
      ensures repository.Valid() && repository.expenseDao.rows == []
      ensures Expenses() == []
    {
      repository.DeleteAllExpenses();
    }
  }
}
