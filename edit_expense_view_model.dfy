/** `EditExpenseViewModel`: the expense editor's form state, loading an
    expense into it, its field updates, validation, and saving as an add or
    an update. */
module EditExpenseViewModel {
  import opened Wrappers
  import opened Entities
  import Calendar
  import Tables
  import CategoryDao
  import CategoryRepository
  import ExpenseRepository
  import HomeViewModel
  import Numbers

  /** The editor's observable state. */
  datatype Form = Form(
    expense: Option<ExpenseUiModel>,
    amount: string,
    place: string,
    categoryName: string,
    date: Calendar.Date,
    isRecurring: bool,
    recurringPeriod: Option<RecurringPeriod>)

  /** `isValid()`. */
  predicate FormValid(f: Form) {
    |f.amount| > 0 && |f.place| > 0 && |f.categoryName| > 0 && (!f.isRecurring || f.recurringPeriod.Some?)
  }

  /** `calculateNextDueDate(date, period)`, the editor's own copy. */
  function NextDueDate(currentDate: Calendar.Date, period: RecurringPeriod): (r: Calendar.Date)
    ensures period == Monthly ==> Calendar.MonthKey(r) == Calendar.MonthKey(currentDate) + 1
    ensures period == Yearly ==>
              Calendar.Year(r) == Calendar.Year(currentDate) + 1 && Calendar.Month(r) == Calendar.Month(currentDate)
    ensures Calendar.MillisOfDay(r) == Calendar.MillisOfDay(currentDate)
  {
    Calendar.AddMonthsFields(currentDate, 1);
    Calendar.AddMonthsFields(currentDate, 12);
    match period
    case Monthly => Calendar.AddMonths(currentDate, 1)
    case Yearly =>
      assert Calendar.ValidCivil(Calendar.CivilOf(Calendar.AddMonths(currentDate, 12)));
      assert Calendar.ValidCivil(Calendar.CivilOf(currentDate));
      Calendar.AddMonths(currentDate, 12)
  }

  /** It agrees with the home screen's. */
  lemma NextDueDateAgrees(currentDate: Calendar.Date, period: RecurringPeriod)
    ensures HomeViewModel.CalculateNextDueDate(currentDate, Some(period)) == Some(NextDueDate(currentDate, period))
  {
  }

  /** Whether `saveExpense` gets past its two early returns. */
  predicate Proceeds(f: Form) {
    Numbers.ToDoubleOrNull(f.amount).Some? && f.categoryName != ""
  }

  /** The expense `saveExpense` hands to the repository: every form field, the
      loaded expense's id (0 for a new one), and a next due date exactly when
      recurring. */
  function NewExpense(f: Form, amount: real): (r: ExpenseUiModel)
    requires !f.isRecurring || f.recurringPeriod.Some?
    ensures r.id == if f.expense.Some? then f.expense.value.id else 0
    ensures r.amount == amount && r.place == f.place && r.categoryName == f.categoryName && r.date == f.date
    ensures r.isRecurring == f.isRecurring && r.recurringPeriod == f.recurringPeriod
    ensures r.nextDueDate.None? <==> !f.isRecurring
    ensures f.isRecurring ==> r.nextDueDate == HomeViewModel.CalculateNextDueDate(f.date, f.recurringPeriod)
  {
    var due := if f.isRecurring then Some(NextDueDate(f.date, f.recurringPeriod.value)) else None;
    match f.expense
    case Some(e) => e.(amount := amount, place := f.place, categoryName := f.categoryName, date := f.date,
                       isRecurring := f.isRecurring, recurringPeriod := f.recurringPeriod, nextDueDate := due)
    case None => ExpenseUiModel(0, amount, f.place, f.categoryName, f.date, f.isRecurring, f.recurringPeriod, due)
  }

  /** A valid form whose amount parses gets past every guard of
      `saveExpense`, including the `!!` on the period. */
  lemma ValidFormSaves(f: Form)
    requires FormValid(f) && Numbers.ToDoubleOrNull(f.amount).Some?
    ensures Proceeds(f) && (!f.isRecurring || f.recurringPeriod.Some?)
  {
  }

  /** Validity does not imply that the amount parses: "." is valid, and
      `saveExpense` then silently does nothing. */
  lemma ValidFormMayNotParse(place: string, categoryName: string, date: Calendar.Date)
    requires |place| > 0 && |categoryName| > 0
    ensures var f := Form(None, ".", place, categoryName, date, false, None);
            FormValid(f) && !Proceeds(f)
  {
    assert Numbers.MatchesAmountPattern(".") by {
      assert Numbers.DotIndex(".") == 0;
      assert "."[1..] == [];
    }
  }

  /** A form loaded from a stored expense, whose amount text has the layout
      `Double.toString` writes, passes the amount's early return of
      `saveExpense`: the text never goes through the field's filter. */
  lemma LoadedFormProceeds(f: Form)
    requires Numbers.DoubleTextShape(f.amount) && f.categoryName != ""
    ensures Proceeds(f)
  {
    Numbers.DoubleTextParses(f.amount);
  }

  /** An expense of ten million, loaded as "1.0E7", saves that amount. */
  lemma TenMillionSaves(f: Form)
    requires f.amount == "1.0E7" && f.categoryName != "" && !f.isRecurring
    ensures Proceeds(f) && NewExpense(f, Numbers.ToDoubleOrNull(f.amount).value).amount == 10000000.0
  {
    Numbers.ParseTenMillion();
  }

  class EditExpenseViewModel {
    const expenseRepository: ExpenseRepository.ExpenseRepository
    const categoryRepository: CategoryRepository.CategoryRepository

    var expense: Option<ExpenseUiModel>
    var amount: string
    var place: string
    var categoryName: string
    var date: Calendar.Date
    var isRecurring: bool
    var recurringPeriod: Option<RecurringPeriod>
    /** The categories collected once the defaults are ensured. */
    var categories: seq<CategoryEntity>

    function State(): Form
      reads this
    {
      Form(expense, amount, place, categoryName, date, isRecurring, recurringPeriod)
    }

    ghost predicate Valid()
      reads expenseRepository.expenseDao, expenseRepository.categoryDao, categoryRepository.dao
    {
      expenseRepository.Valid() && categoryRepository.dao.Valid()
    }

    /** The initial, empty form (`now` is `Date()`); `init` ensures the
        default categories and collects the categories. */
    constructor (expenseRepository: ExpenseRepository.ExpenseRepository,
                 categoryRepository: CategoryRepository.CategoryRepository, now: Calendar.Date)
      requires expenseRepository.Valid() && categoryRepository.dao.Valid()
      modifies categoryRepository.dao
      ensures this.expenseRepository == expenseRepository && this.categoryRepository == categoryRepository
      ensures State() == Form(None, "", "", "", now, false, None)
      ensures categoryRepository.dao.State() == CategoryRepository.WithDefaults(old(categoryRepository.dao.State()), CategoryRepository.DefaultNames)
      ensures categories == categoryRepository.dao.rows
      ensures categoryRepository.dao.Valid()
      ensures Valid()
    {
      this.expenseRepository := expenseRepository;
      this.categoryRepository := categoryRepository;
      expense := None;
      amount := "";
      place := "";
      categoryName := "";
      date := now;
      isRecurring := false;
      recurringPeriod := None;
      new;
      categoryRepository.EnsureDefaultCategoriesExist();
      categories := categoryRepository.Categories();
    }

    /** `loadExpense(id)`; `amountText` stands for `Double.toString`, whose
        texts parse back (`LoadedFormProceeds`). An id of -1 starts a new
        expense under the default category's name. */
    method LoadExpense(id: int, amountText: real -> string)
      requires Valid()
      modifies this
      ensures categories == old(categories)
      ensures id != -1 ==> expense == expenseRepository.GetExpenseById(id)
      ensures id != -1 && expense.Some? ==>
                State() == Form(expense, amountText(expense.value.amount), expense.value.place, expense.value.categoryName,
                                expense.value.date, expense.value.isRecurring, expense.value.recurringPeriod)
      ensures id != -1 && expense.None? ==> State() == old(State()).(expense := None)
      ensures id == -1 ==>
                State() == old(State()).(categoryName := match categoryRepository.dao.GetDefaultCategory()
                                                         case Some(c) => c.name
                                                         case None => "")
    {
      if id != -1 {
        LoadStored(id, amountText);
      } else {
        LoadDefaultCategory();
      }
    }

    method LoadStored(id: int, amountText: real -> string)
      requires Valid()
      modifies this
      ensures categories == old(categories)
      ensures expense == expenseRepository.GetExpenseById(id)
      ensures expense.Some? ==>
                State() == Form(expense, amountText(expense.value.amount), expense.value.place, expense.value.categoryName,
                                expense.value.date, expense.value.isRecurring, expense.value.recurringPeriod)
      ensures expense.None? ==> State() == old(State()).(expense := None)
    {
      var found := expenseRepository.GetExpenseById(id);
      match found
      case Some(exp) =>
        SetForm(Form(found, amountText(exp.amount), exp.place, exp.categoryName, exp.date, exp.isRecurring, exp.recurringPeriod));
      case None =>
        SetForm(State().(expense := None));
    }

    method SetForm(f: Form)
      modifies this
      ensures State() == f && categories == old(categories)
    {
      expense, amount, place, categoryName := f.expense, f.amount, f.place, f.categoryName;
      date, isRecurring, recurringPeriod := f.date, f.isRecurring, f.recurringPeriod;
    }

    method LoadDefaultCategory()
      requires Valid()
      modifies this
      ensures categories == old(categories)
      ensures State() == old(State()).(categoryName := match categoryRepository.dao.GetDefaultCategory()
                                                       case Some(c) => c.name
                                                       case None => "")
    {
      var defaultCategory := categoryRepository.dao.GetDefaultCategory();
      categoryName := match defaultCategory
        case Some(c) => c.name
        case None => "";
    }

    method UpdateAmount(newAmount: string)
      modifies this
      ensures State() == old(State()).(amount := newAmount) && categories == old(categories)
    {
      amount := newAmount;
    }

    method UpdatePlace(newPlace: string)
      modifies this
      ensures State() == old(State()).(place := newPlace) && categories == old(categories)
    {
      place := newPlace;
    }

    method UpdateCategory(category: CategoryEntity)
      modifies this
      ensures State() == old(State()).(categoryName := category.name) && categories == old(categories)
    {
      categoryName := category.name;
    }

    method UpdateDate(newDate: Calendar.Date)
      modifies this
      ensures State() == old(State()).(date := newDate) && categories == old(categories)
    {
      date := newDate;
    }

    /** `updateRecurring(recurring)`: switching off clears the period,
        switching on keeps it. */
    method UpdateRecurring(recurring: bool)
      modifies this
      ensures State() == old(State()).(isRecurring := recurring,
                                       recurringPeriod := if recurring then old(recurringPeriod) else None)
      ensures categories == old(categories)
    {
      isRecurring := recurring;
      if !recurring {
        recurringPeriod := None;
      }
    }

    method UpdateRecurringPeriod(period: RecurringPeriod)
      modifies this
      ensures State() == old(State()).(recurringPeriod := Some(period)) && categories == old(categories)
    {
      recurringPeriod := Some(period);
    }

    /** `isValid()`. */
    predicate IsValid()
      reads this
    {
      FormValid(State())
    }

    /** `saveExpense(onComplete)`: `Ok(true)` when the repository call
        returned and `onComplete` ran, `Ok(false)` for the silent early
        returns, and the exception otherwise. */
    method SaveExpense() returns (r: Result<bool>)
      requires Valid()
      modifies expenseRepository.expenseDao
      ensures Valid() && State() == old(State())
      ensures !Proceeds(State()) ==> r == Ok(false) && expenseRepository.expenseDao.State() == old(expenseRepository.expenseDao.State())
      ensures Proceeds(State()) && isRecurring && recurringPeriod.None? ==>
                r == Err(NullDereference) && expenseRepository.expenseDao.State() == old(expenseRepository.expenseDao.State())
      ensures Proceeds(State()) && (!isRecurring || recurringPeriod.Some?) && expense.None? ==>
                var next := ExpenseRepository.Added(old(expenseRepository.expenseDao.State()), expenseRepository.categoryDao.rows,
                                                    NewExpense(State(), Numbers.ToDoubleOrNull(amount).value));
                (next.Ok? ==> r == Ok(true) && expenseRepository.expenseDao.State() == next.value)
                && (next.Err? ==> r == Err(next.error) && expenseRepository.expenseDao.State() == old(expenseRepository.expenseDao.State()))
      ensures Proceeds(State()) && (!isRecurring || recurringPeriod.Some?) && expense.Some? ==>
                var next := ExpenseRepository.Updated(old(expenseRepository.expenseDao.rows), expenseRepository.categoryDao.rows,
                                                      NewExpense(State(), Numbers.ToDoubleOrNull(amount).value));
                (next.Ok? ==> r == Ok(true) && expenseRepository.expenseDao.rows == next.value)
                && (next.Err? ==> r == Err(next.error) && expenseRepository.expenseDao.rows == old(expenseRepository.expenseDao.rows))
    {
      var amountDouble := Numbers.ToDoubleOrNull(amount);
      if amountDouble.None? || categoryName == "" {
        return Ok(false);
      }
      if isRecurring && recurringPeriod.None? {
        return Err(NullDereference);
      }
      var newExpense := NewExpense(State(), amountDouble.value);
      r := Store(newExpense);
    }

    /** The repository call of `saveExpense`: an insert for a new expense,
        an update for a loaded one. */
    method Store(newExpense: ExpenseUiModel) returns (r: Result<bool>)
      requires Valid()
      modifies expenseRepository.expenseDao
      ensures Valid()
      ensures expense.None? ==>
                var next := ExpenseRepository.Added(old(expenseRepository.expenseDao.State()), expenseRepository.categoryDao.rows, newExpense);
                (next.Ok? ==> r == Ok(true) && expenseRepository.expenseDao.State() == next.value)
                && (next.Err? ==> r == Err(next.error) && expenseRepository.expenseDao.State() == old(expenseRepository.expenseDao.State()))
      ensures expense.Some? ==>
                var next := ExpenseRepository.Updated(old(expenseRepository.expenseDao.rows), expenseRepository.categoryDao.rows, newExpense);
                (next.Ok? ==> r == Ok(true) && expenseRepository.expenseDao.rows == next.value)
                && (next.Err? ==> r == Err(next.error) && expenseRepository.expenseDao.rows == old(expenseRepository.expenseDao.rows))
    {
      var res;
      if expense.None? {
        res := expenseRepository.AddExpense(newExpense);
      } else {
        res := expenseRepository.UpdateExpense(newExpense);
      }
      r := if res.Ok? then Ok(true) else Err(res.error);
    }

    /** `deleteExpense(onComplete)`: nothing without a loaded expense. */
    method DeleteExpense() returns (r: Result<bool>)
      requires Valid()
      modifies expenseRepository.expenseDao
      ensures Valid()
      ensures expense.None? ==> r == Ok(false) && expenseRepository.expenseDao.State() == old(expenseRepository.expenseDao.State())
      ensures expense.Some? ==>
                var next := ExpenseRepository.Deleted(old(expenseRepository.expenseDao.rows), expenseRepository.categoryDao.rows, expense.value);
                (next.Ok? ==> r == Ok(true) && expenseRepository.expenseDao.rows == next.value)
                && (next.Err? ==> r == Err(next.error) && expenseRepository.expenseDao.rows == old(expenseRepository.expenseDao.rows))
    {
      match expense
      case None =>
        r := Ok(false);
      case Some(e) =>
        var res := expenseRepository.DeleteExpense(e);
        r := if res.Ok? then Ok(true) else Err(res.error);
    }
  }
}
