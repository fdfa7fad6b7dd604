/** `ExpenseRepository`: the expense/category join, the per-period views the
    statistics screen reads, and add/update/delete keyed by category name. */
module ExpenseRepository {
  import opened Wrappers
  import opened Entities
  import Calendar
  import Tables
  import Seqs
  import ExpenseDao
  import CategoryDao

  datatype TimePeriod = Week | Month | Year

  /** The error every category lookup by name raises when it finds nothing. */
  const CategoryNotFound := IllegalArgument("Category not found")

  /** The joined name: the category with that id, or "Unknown". */
  function CategoryName(categories: seq<CategoryEntity>, categoryId: int): (r: string)
    ensures !Tables.HasId(categories, CategoryDao.Id, categoryId) ==> r == "Unknown"
    ensures Tables.HasId(categories, CategoryDao.Id, categoryId) ==>
              exists i :: 0 <= i < |categories| && categories[i].id == categoryId && categories[i].name == r
  {
    match Tables.Find(categories, CategoryDao.Id, categoryId)
    case Some(c) => c.name
    case None => "Unknown"
  }

  function ToUi(e: Expense, categories: seq<CategoryEntity>): ExpenseUiModel {
    ExpenseUiModel(e.id, e.amount, e.place, CategoryName(categories, e.categoryId),
      e.date, e.isRecurring, e.recurringPeriod, e.nextDueDate)
  }

  /** `expenses` / `getAllExpenses()`: each expense, in table order, with its
      category's name and every other field copied. */
  function Join(expenses: seq<Expense>, categories: seq<CategoryEntity>): (r: seq<ExpenseUiModel>)
    ensures |r| == |expenses|
    ensures forall i :: 0 <= i < |r| ==>
              r[i].id == expenses[i].id && r[i].amount == expenses[i].amount && r[i].place == expenses[i].place
              && r[i].date == expenses[i].date && r[i].isRecurring == expenses[i].isRecurring
              && r[i].recurringPeriod == expenses[i].recurringPeriod && r[i].nextDueDate == expenses[i].nextDueDate
              && r[i].categoryName == CategoryName(categories, expenses[i].categoryId)
  {
    seq(|expenses|, i requires 0 <= i < |expenses| => ToUi(expenses[i], categories))
  }

  /** In a valid category table the joined name is the name of the one row
      with that id. */
  lemma JoinedNameIsUnique(categories: seq<CategoryEntity>, c: CategoryEntity)
    requires Tables.Ascending(categories, CategoryDao.Id) && c in categories
    ensures CategoryName(categories, c.id) == c.name
  {
    var f := Tables.Find(categories, CategoryDao.Id, c.id);
    assert Tables.HasId(categories, CategoryDao.Id, c.id) by {
      var i :| 0 <= i < |categories| && categories[i] == c;
    }
    Tables.UniqueById(categories, CategoryDao.Id, f.value, c);
  }

  /** `isExpenseActiveInYear`: the expense's year is not after the selected one. */
  predicate IsExpenseActiveInYear(expenseDate: Calendar.Date, currentDate: Calendar.Date) {
    Calendar.Year(expenseDate) <= Calendar.Year(currentDate)
  }

  /** WEEK view: strictly after the start instant and strictly before the end. */
  function InWeek(start: Calendar.Date, end: Calendar.Date): ExpenseUiModel -> bool {
    (e: ExpenseUiModel) => start.time < e.date.time && e.date.time < end.time
  }

  /** MONTH view, one expense: the `when` of the `mapNotNull`. */
  function MonthRule(e: ExpenseUiModel, selected: Calendar.Date): Option<ExpenseUiModel> {
    var ey := Calendar.Year(e.date);
    var em := Calendar.Month(e.date);
    var cy := Calendar.Year(selected);
    var cm := Calendar.Month(selected);
    if !e.isRecurring && em == cm && ey == cy then Some(e)
    else if e.isRecurring && e.recurringPeriod == Some(Monthly) && (ey < cy || (ey == cy && em <= cm)) then Some(e)
    else if e.isRecurring && e.recurringPeriod == Some(Yearly) && IsExpenseActiveInYear(e.date, selected) then
      Some(e.(amount := e.amount / 12.0))
    else None
  }

  function InMonth(selected: Calendar.Date): ExpenseUiModel -> Option<ExpenseUiModel> {
    (e: ExpenseUiModel) => MonthRule(e, selected)
  }

  /** YEAR view, one expense: the `when` of the `filter`. */
  predicate YearRule(e: ExpenseUiModel, selected: Calendar.Date) {
    var ey := Calendar.Year(e.date);
    var cy := Calendar.Year(selected);
    if !e.isRecurring then ey == cy
    else if e.recurringPeriod == Some(Monthly) then ey <= cy
    else if e.recurringPeriod == Some(Yearly) then IsExpenseActiveInYear(e.date, selected)
    else false
  }

  function InYear(selected: Calendar.Date): ExpenseUiModel -> bool {
    (e: ExpenseUiModel) => YearRule(e, selected)
  }

  /** `getExpensesByPeriod(period, date)` over a snapshot of `expenses`. The
      week's first and last instants are inputs. */
  function ExpensesByPeriod(expenses: seq<ExpenseUiModel>, period: TimePeriod, date: Calendar.Date,
                            weekStart: Calendar.Date, weekEnd: Calendar.Date): (r: seq<ExpenseUiModel>)
    ensures |r| <= |expenses|
  {
    match period
    case Week => Seqs.Filter(expenses, InWeek(weekStart, weekEnd))
    case Month => Seqs.MapNotNull(expenses, InMonth(date))
    case Year => Seqs.Filter(expenses, InYear(date))
  }

  /** Calendar months compare like their (year, month) pairs. */
  lemma MonthKeyOrder(a: Calendar.Date, b: Calendar.Date)
    ensures Calendar.MonthKey(a) <= Calendar.MonthKey(b) <==>
              Calendar.Year(a) < Calendar.Year(b) || (Calendar.Year(a) == Calendar.Year(b) && Calendar.Month(a) <= Calendar.Month(b))
  {
    var ca := Calendar.CivilOf(a);
    var cb := Calendar.CivilOf(b);
    assert 0 <= ca.month < 12 && 0 <= cb.month < 12;
  }

  /** The MONTH view, case by case: a one-off expense shows in its own month;
      a monthly one in every month from its first on, unchanged; a yearly one
      in every month of every year from its first on, at a twelfth of its
      amount; a recurring one without a period never. */
  lemma MonthView(e: ExpenseUiModel, selected: Calendar.Date)
    ensures !e.isRecurring ==>
              MonthRule(e, selected) == if Calendar.MonthKey(e.date) == Calendar.MonthKey(selected) then Some(e) else None
    ensures e.isRecurring && e.recurringPeriod == Some(Monthly) ==>
              MonthRule(e, selected) == if Calendar.MonthKey(e.date) <= Calendar.MonthKey(selected) then Some(e) else None
    ensures e.isRecurring && e.recurringPeriod == Some(Yearly) ==>
              MonthRule(e, selected) == if Calendar.Year(e.date) <= Calendar.Year(selected) then Some(e.(amount := e.amount / 12.0)) else None
    ensures e.isRecurring && e.recurringPeriod.None? ==> MonthRule(e, selected).None?
  {
    MonthKeyOrder(e.date, selected);
    MonthKeyOrder(selected, e.date);
  }

  /** The YEAR view: a one-off expense shows in its own year, a recurring one
      with a period in every year from its first on, amounts unchanged. */
  lemma YearView(e: ExpenseUiModel, selected: Calendar.Date)
    ensures !e.isRecurring ==> (YearRule(e, selected) <==> Calendar.Year(e.date) == Calendar.Year(selected))
    ensures e.isRecurring && e.recurringPeriod.Some? ==> (YearRule(e, selected) <==> Calendar.Year(e.date) <= Calendar.Year(selected))
    ensures e.isRecurring && e.recurringPeriod.None? ==> !YearRule(e, selected)
  {
    var ey := Calendar.Year(e.date);
    var cy := Calendar.Year(selected);
    if e.isRecurring {
      match e.recurringPeriod
      case Some(Monthly) => assert YearRule(e, selected) == (ey <= cy);
      case Some(Yearly) => assert YearRule(e, selected) == (ey <= cy);
      case None =>
    }
  }

  /** Every view keeps input order: viewing `a + b` is viewing `a`, then `b`. */
  lemma ByPeriodAppend(a: seq<ExpenseUiModel>, b: seq<ExpenseUiModel>, period: TimePeriod, date: Calendar.Date,
                       weekStart: Calendar.Date, weekEnd: Calendar.Date)
    ensures ExpensesByPeriod(a + b, period, date, weekStart, weekEnd)
            == ExpensesByPeriod(a, period, date, weekStart, weekEnd) + ExpensesByPeriod(b, period, date, weekStart, weekEnd)
  {
    match period
    case Week => Seqs.FilterAppend(a, b, InWeek(weekStart, weekEnd));
    case Month => Seqs.MapNotNullAppend(a, b, InMonth(date));
    case Year => Seqs.FilterAppend(a, b, InYear(date));
  }

  /** Every element of a view is an input expense, except that the MONTH
      view shows a yearly expense as a copy with a twelfth of its amount. */
  lemma ByPeriodFromInput(expenses: seq<ExpenseUiModel>, period: TimePeriod, date: Calendar.Date,
                          weekStart: Calendar.Date, weekEnd: Calendar.Date, i: nat)
    requires i < |ExpensesByPeriod(expenses, period, date, weekStart, weekEnd)|
    ensures var x := ExpensesByPeriod(expenses, period, date, weekStart, weekEnd)[i];
            x in expenses || (period == Month && exists j :: 0 <= j < |expenses| && expenses[j].recurringPeriod == Some(Yearly)
                                                  && x == expenses[j].(amount := expenses[j].amount / 12.0))
  {
    if period == Month {
      Seqs.MapNotNullFrom(expenses, InMonth(date), i);
      var x := ExpensesByPeriod(expenses, period, date, weekStart, weekEnd)[i];
      var j :| 0 <= j < |expenses| && MonthRule(expenses[j], date) == Some(x);
      if x != expenses[j] {
        assert expenses[j].recurringPeriod == Some(Yearly);
      }
    }
  }

  /** The category id for a name: the first category so named, or the
      "Category not found" error. */
  function CategoryIdFor(categories: seq<CategoryEntity>, name: string): (r: Result<int>)
    ensures r.Err? <==> !CategoryDao.HasName(categories, name)
    ensures r.Err? ==> r.error == CategoryNotFound
    ensures r.Ok? ==> exists i :: 0 <= i < |categories| && categories[i].name == name && categories[i].id == r.value
  {
    match Tables.First(categories, CategoryDao.Named(name))
    case Some(c) =>
      assert c in categories;
      Ok(c.id)
    case None => Err(CategoryNotFound)
  }

  /** The row add/update/delete hand to the DAO: every field of `ui`, with the
      looked-up category id. */
  function ToEntity(ui: ExpenseUiModel, categoryId: int): Expense {
    Expense(ui.id, ui.amount, ui.place, categoryId, ui.date, ui.isRecurring, ui.recurringPeriod, ui.nextDueDate)
  }

  /** The joined view of a forwarded row is the row the screen passed in,
      whenever the category names are unique. */
  lemma ToEntityJoinsBack(ui: ExpenseUiModel, categories: seq<CategoryEntity>)
    requires Tables.Ascending(categories, CategoryDao.Id) && CategoryDao.NamesUnique(categories)
    requires CategoryIdFor(categories, ui.categoryName).Ok?
    ensures ToUi(ToEntity(ui, CategoryIdFor(categories, ui.categoryName).value), categories) == ui
  {
    var k := CategoryIdFor(categories, ui.categoryName).value;
    var i :| 0 <= i < |categories| && categories[i].name == ui.categoryName && categories[i].id == k;
    JoinedNameIsUnique(categories, categories[i]);
  }

  /** The expenses table after `addExpense(ui)`, or the exception it raises:
      the category lookup's, then the insert's. */
  function Added(t: Tables.Table<Expense>, categories: seq<CategoryEntity>, ui: ExpenseUiModel): (r: Result<Tables.Table<Expense>>)
    ensures !CategoryDao.HasName(categories, ui.categoryName) ==> r == Err(CategoryNotFound)
    ensures r.Err? ==> r.error == CategoryNotFound || r.error == ConstraintViolation
  {
    match CategoryIdFor(categories, ui.categoryName)
    case Err(f) => Err(f)
    case Ok(k) => ExpenseDao.Inserted(t, ToEntity(ui, k))
  }

  /** A new expense (id 0) under a known category is appended with a fresh id
      and every field forwarded. */
  lemma AddedNew(t: Tables.Table<Expense>, categories: seq<CategoryEntity>, ui: ExpenseUiModel)
    requires Tables.Valid(t, ExpenseDao.Id) && ui.id == 0 && CategoryDao.HasName(categories, ui.categoryName)
    ensures var k := CategoryIdFor(categories, ui.categoryName).value;
            Added(t, categories, ui) == Ok(Tables.Table(t.rows + [ToEntity(ui, k).(id := t.lastId + 1)], t.lastId + 1))
  {
    var k := CategoryIdFor(categories, ui.categoryName).value;
    ExpenseDao.InsertNewExpense(t, ToEntity(ui, k));
    Tables.InsertFresh(t, ToEntity(ui, k).(id := t.lastId + 1), ExpenseDao.Id);
  }

  /** The expense rows after `updateExpense(ui)`, or its exception. */
  function Updated(rows: seq<Expense>, categories: seq<CategoryEntity>, ui: ExpenseUiModel): (r: Result<seq<Expense>>)
    ensures r.Err? <==> !CategoryDao.HasName(categories, ui.categoryName)
    ensures r.Err? ==> r.error == CategoryNotFound
    ensures r.Ok? ==> |r.value| == |rows|
  {
    match CategoryIdFor(categories, ui.categoryName)
    case Err(f) => Err(f)
    case Ok(k) => Ok(Tables.Replace(rows, ToEntity(ui, k), ExpenseDao.Id))
  }

  /** The expense rows after `deleteExpense(ui)`, or its exception. */
  function Deleted(rows: seq<Expense>, categories: seq<CategoryEntity>, ui: ExpenseUiModel): (r: Result<seq<Expense>>)
    ensures r.Err? <==> !CategoryDao.HasName(categories, ui.categoryName)
    ensures r.Err? ==> r.error == CategoryNotFound
    ensures r.Ok? ==> forall i :: 0 <= i < |r.value| ==> r.value[i] in rows && r.value[i].id != ui.id
    ensures r.Ok? ==> forall i :: 0 <= i < |rows| && rows[i].id != ui.id ==> rows[i] in r.value
  {
    match CategoryIdFor(categories, ui.categoryName)
    case Err(f) => Err(f)
    case Ok(_) => Ok(Tables.Remove(rows, ExpenseDao.Id, ui.id))
  }

  class ExpenseRepository {
    const expenseDao: ExpenseDao.ExpenseDao
    const categoryDao: CategoryDao.CategoryDao

    constructor (expenseDao: ExpenseDao.ExpenseDao, categoryDao: CategoryDao.CategoryDao)
      ensures this.expenseDao == expenseDao && this.categoryDao == categoryDao
    {
      this.expenseDao := expenseDao;
      this.categoryDao := categoryDao;
    }

    ghost predicate Valid()
      reads expenseDao, categoryDao
    {
      expenseDao.Valid() && categoryDao.Valid()
    }

    /** `expenses` and `getAllExpenses()`. */
    function Expenses(): (r: seq<ExpenseUiModel>)
      reads expenseDao, categoryDao
      requires Valid()
      ensures r == Join(expenseDao.rows, categoryDao.rows)
    {
      Join(expenseDao.GetAllExpenses(), categoryDao.GetAllCategories())
    }

    /** `getExpensesByPeriod(period, date)`. */
    function GetExpensesByPeriod(period: TimePeriod, date: Calendar.Date,
                                 weekStart: Calendar.Date, weekEnd: Calendar.Date): (r: seq<ExpenseUiModel>)
      reads expenseDao, categoryDao
      requires Valid()
      ensures r == ExpensesByPeriod(Join(expenseDao.rows, categoryDao.rows), period, date, weekStart, weekEnd)
    {
      ExpensesByPeriod(Expenses(), period, date, weekStart, weekEnd)
    }

    /** `getExpenseById(id)`: the joined expense with that id, or null. */
    function GetExpenseById(id: int): (r: Option<ExpenseUiModel>)
      reads expenseDao, categoryDao
      ensures r.None? <==> forall i :: 0 <= i < |expenseDao.rows| ==> expenseDao.rows[i].id != id
      ensures r.Some? ==> exists i :: 0 <= i < |expenseDao.rows| && expenseDao.rows[i].id == id
                                      && r.value == Join(expenseDao.rows, categoryDao.rows)[i]
    {
      match expenseDao.GetExpenseById(id)
      case None => None
      case Some(e) =>
        var name := match categoryDao.GetCategoryById(e.categoryId)
          case Some(c) => c.name
          case None => "Unknown";
        var i :| 0 <= i < |expenseDao.rows| && expenseDao.rows[i] == e;
        assert name == CategoryName(categoryDao.rows, e.categoryId);
        Some(ExpenseUiModel(e.id, e.amount, e.place, name, e.date, e.isRecurring, e.recurringPeriod, e.nextDueDate))
    }

    /** `addExpense(ui)`. */
    method AddExpense(ui: ExpenseUiModel) returns (r: Result<()>)
      requires Valid()
      modifies expenseDao
      ensures Valid()
      ensures var next := Added(old(expenseDao.State()), categoryDao.rows, ui);
              (next.Ok? ==> r == Ok(()) && expenseDao.State() == next.value)
              && (next.Err? ==> r == Err(next.error) && expenseDao.State() == old(expenseDao.State()))
    {
      match categoryDao.GetCategoryByName(ui.categoryName)
      case None =>
        r := Err(CategoryNotFound);
      case Some(c) =>
        r := expenseDao.InsertExpense(ToEntity(ui, c.id));
    }

    /** `updateExpense(ui)`. */
    method UpdateExpense(ui: ExpenseUiModel) returns (r: Result<()>)
      requires Valid()
      modifies expenseDao
      ensures Valid() && expenseDao.lastId == old(expenseDao.lastId)
      ensures var next := Updated(old(expenseDao.rows), categoryDao.rows, ui);
              (next.Ok? ==> r == Ok(()) && expenseDao.rows == next.value)
              && (next.Err? ==> r == Err(next.error) && expenseDao.rows == old(expenseDao.rows))
    {
      match categoryDao.GetCategoryByName(ui.categoryName)
      case None =>
        r := Err(CategoryNotFound);
      case Some(c) =>
        expenseDao.UpdateExpense(ToEntity(ui, c.id));
        r := Ok(());
    }

    /** `deleteExpense(ui)`: the category is looked up, and the lookup can
        fail, even though only the id decides which row goes. */
    method DeleteExpense(ui: ExpenseUiModel) returns (r: Result<()>)
      requires Valid()
      modifies expenseDao
      ensures Valid() && expenseDao.lastId == old(expenseDao.lastId)
      ensures var next := Deleted(old(expenseDao.rows), categoryDao.rows, ui);
              (next.Ok? ==> r == Ok(()) && expenseDao.rows == next.value)
              && (next.Err? ==> r == Err(next.error) && expenseDao.rows == old(expenseDao.rows))
    {
      match categoryDao.GetCategoryByName(ui.categoryName)
      case None =>
        r := Err(CategoryNotFound);
      case Some(c) =>
        expenseDao.DeleteExpense(ToEntity(ui, c.id));
        r := Ok(());
    }

    /** `deleteAllExpenses()`. */
    method DeleteAllExpenses()
      requires Valid()
      modifies expenseDao
      ensures Valid() && expenseDao.rows == [] && expenseDao.lastId == old(expenseDao.lastId)
    {
      expenseDao.DeleteAll();
    }
  }
}
