/** The `expenses` table and the queries of `ExpenseDao`. */
module ExpenseDao {
  import opened Wrappers
  import opened Entities
  import Calendar
  import Seqs
  import Tables

  function Id(e: Expense): int { e.id }

  /** The table after `insertExpense(e)`: id 0 takes the next sequence value. */
  function Inserted(t: Tables.Table<Expense>, e: Expense): Result<Tables.Table<Expense>> {
    Tables.Insert(t, e.(id := Tables.NewId(t, e.id)), Id)
  }

  /** `insertExpense` of a new expense (id 0) always succeeds and appends
      the expense under a fresh id, so the row count grows by one. */
  lemma InsertNewExpense(t: Tables.Table<Expense>, e: Expense)
    requires Tables.Valid(t, Id) && e.id == 0
    ensures Inserted(t, e).Ok?
    ensures Inserted(t, e).value.rows == t.rows + [e.(id := t.lastId + 1)]
    ensures Tables.Valid(Inserted(t, e).value, Id)
  {
    Tables.InsertFresh(t, e.(id := t.lastId + 1), Id);
    Tables.InsertSpec(t, e.(id := t.lastId + 1), Id);
  }

  /** `getExpensesByCategory(c)`. */
  function ByCategory(rows: seq<Expense>, categoryId: int): (r: seq<Expense>)
    ensures forall i :: 0 <= i < |r| ==> r[i] in rows && r[i].categoryId == categoryId
    ensures forall i :: 0 <= i < |rows| && rows[i].categoryId == categoryId ==> rows[i] in r
  {
    Seqs.Filter(rows, InCategory(categoryId))
  }

  function InCategory(categoryId: int): Expense -> bool {
    (e: Expense) => e.categoryId == categoryId
  }

  predicate IsRecurringRow(e: Expense) { e.isRecurring }

  /** `getRecurringExpenses()`. */
  function RecurringRows(rows: seq<Expense>): (r: seq<Expense>)
    ensures forall i :: 0 <= i < |r| ==> r[i] in rows && r[i].isRecurring
    ensures forall i :: 0 <= i < |rows| && rows[i].isRecurring ==> rows[i] in r
  {
    Seqs.Filter(rows, IsRecurringRow)
  }

  /** `nextDueDate <= :date` in SQL: false when nextDueDate is NULL. */
  predicate DueBy(e: Expense, date: Calendar.Date) {
    e.isRecurring && e.nextDueDate.Some? && e.nextDueDate.value.time <= date.time
  }

  /** `getDueRecurringExpenses(date)`. */
  function DueRows(rows: seq<Expense>, date: Calendar.Date): (r: seq<Expense>)
    ensures forall i :: 0 <= i < |r| ==> r[i] in rows && DueBy(r[i], date)
    ensures forall i :: 0 <= i < |rows| && DueBy(rows[i], date) ==> rows[i] in r
  {
    Seqs.Filter(rows, (e: Expense) => DueBy(e, date))
  }

  class ExpenseDao {
    var rows: seq<Expense>
    var lastId: int

    function State(): Tables.Table<Expense>
      reads this
    {
      Tables.Table(rows, lastId)
    }

    ghost predicate Valid()
      reads this
    {
      Tables.Valid(State(), Id)
    }

    /** An empty table whose sequence has not been used. */
    constructor ()
      ensures Valid() && rows == [] && lastId == 0
    {
      rows := [];
      lastId := 0;
    }

    /** `getAllExpenses()`: every row, in id order. */
    function GetAllExpenses(): (r: seq<Expense>)
      reads this
      requires Valid()
      ensures Tables.Ascending(r, Id)
      ensures r == rows
    {
      rows
    }

    /** `getExpenseById(id)`. */
    function GetExpenseById(id: int): (r: Option<Expense>)
      reads this
      ensures r.Some? ==> r.value in rows && r.value.id == id
      ensures r.None? <==> forall i :: 0 <= i < |rows| ==> rows[i].id != id
    {
      Tables.Find(rows, Id, id)
    }

    function GetExpensesByCategory(categoryId: int): (r: seq<Expense>)
      reads this
      ensures forall e :: e in r <==> e in rows && e.categoryId == categoryId
    {
      ByCategory(rows, categoryId)
    }

    function GetRecurringExpenses(): (r: seq<Expense>)
      reads this
      ensures forall e :: e in r <==> e in rows && e.isRecurring
    {
      RecurringRows(rows)
    }

    function GetDueRecurringExpenses(date: Calendar.Date): (r: seq<Expense>)
      reads this
      ensures forall e :: e in r <==> e in rows && DueBy(e, date)
    {
      DueRows(rows, date)
    }

    /** `insertExpense(e)`: ABORT on a duplicate id. */
    method InsertExpense(e: Expense) returns (r: Result<()>)
      requires Valid()
      modifies this
      ensures Valid()
      ensures Inserted(old(State()), e).Ok? ==> r == Ok(()) && State() == Inserted(old(State()), e).value
      ensures Inserted(old(State()), e).Err? ==> r == Err(ConstraintViolation) && State() == old(State())
      ensures e.id == 0 ==> r.Ok? && rows == old(rows) + [e.(id := old(lastId) + 1)]
    {
      if e.id == 0 {
        InsertNewExpense(State(), e);
      }
      var k := Tables.NewId(State(), e.id);
      match Inserted(State(), e)
      case Err(f) =>
        r := Err(f);
      case Ok(next) =>
        Tables.InsertSpec(State(), e.(id := k), Id);
        rows, lastId := next.rows, next.lastId;
        r := Ok(());
    }

    /** `updateExpense(e)`: replaces the row with e's id, if any. */
    method UpdateExpense(e: Expense)
      requires Valid()
      modifies this
      ensures Valid() && lastId == old(lastId)
      ensures rows == Tables.Replace(old(rows), e, Id)
    {
      Tables.ReplaceSpec(State(), e, Id);
      rows := Tables.Replace(rows, e, Id);
    }

    /** `deleteExpense(e)`: removes the row with e's id, if any. */
    method DeleteExpense(e: Expense)
      requires Valid()
      modifies this
      ensures Valid() && lastId == old(lastId)
      ensures rows == Tables.Remove(old(rows), Id, e.id)
      ensures forall i :: 0 <= i < |rows| ==> rows[i].id != e.id
    {
      Tables.RemoveSpec(State(), Id, e.id);
      rows := Tables.Remove(rows, Id, e.id);
    }

    /** `deleteAll()`: empties the table; the id sequence is kept. */
    method DeleteAll()
      requires Valid()
      modifies this
      ensures Valid() && rows == [] && lastId == old(lastId)
    {
      rows := [];
    }
  }

  /** An expense of the kind the database test creates (its next due date
      does not matter here). */
  function TestExpense(amount: real, place: string, categoryId: int, date: Calendar.Date,
                       period: Option<RecurringPeriod>): Expense
  {
    Expense(0, amount, place, categoryId, date, period.Some?, period, None)
  }

  /** Appending a row adds one to the recurring count when it recurs and
      one to the count of category 1 when it belongs there. */
  lemma AppendCounts(rows: seq<Expense>, x: Expense)
    ensures |RecurringRows(rows + [x])| == |RecurringRows(rows)| + (if x.isRecurring then 1 else 0)
    ensures |ByCategory(rows + [x], 1)| == |ByCategory(rows, 1)| + (if x.categoryId == 1 then 1 else 0)
  {
    Seqs.FilterSnoc(rows, x, IsRecurringRow);
    Seqs.FilterSnoc(rows, x, InCategory(1));
  }

  /** Inserts a new expense and reports how the two counts of the
      scenario below move. */
  method InsertCounted(dao: ExpenseDao, x: Expense)
    requires dao.Valid() && x.id == 0
    modifies dao
    ensures dao.Valid() && |dao.rows| == |old(dao.rows)| + 1
    ensures |RecurringRows(dao.rows)| == |RecurringRows(old(dao.rows))| + (if x.isRecurring then 1 else 0)
    ensures |ByCategory(dao.rows, 1)| == |ByCategory(old(dao.rows), 1)| + (if x.categoryId == 1 then 1 else 0)
  {
    var r := dao.InsertExpense(x);
    AppendCounts(old(dao.rows), x.(id := old(dao.lastId) + 1));
  }

  /** The prepopulated-data scenario: six expenses go into an empty table;
      all six come back, three of them recurring and two in category 1. */
  method PrepopulatedScenario(d: Calendar.Date) returns (all: nat, recurring: nat, groceries: nat)
    ensures all == 6 && recurring == 3 && groceries == 2
  {
    var dao := new ExpenseDao();
    InsertCounted(dao, TestExpense(50.0, "Walmart", 1, d, None));
    InsertCounted(dao, TestExpense(100.0, "Netflix", 2, d, Some(Monthly)));
    InsertCounted(dao, TestExpense(1000.0, "Property Tax", 3, d, Some(Yearly)));
    InsertCounted(dao, TestExpense(75.0, "Target", 1, d, None));
    InsertCounted(dao, TestExpense(30.0, "Movie Theater", 4, d, None));
    InsertCounted(dao, TestExpense(120.0, "Electric Bill", 5, d, Some(Monthly)));
    all := |dao.GetAllExpenses()|;
    recurring := |dao.GetRecurringExpenses()|;
    groceries := |dao.GetExpensesByCategory(1)|;
  }

  /** The CRUD scenario: after one insert the first row can be updated to
      amount 75 and then deleted, leaving the table empty. */
  method CrudScenario(date: Calendar.Date) returns (amountAfterUpdate: real, countAfterDelete: nat)
    ensures amountAfterUpdate == 75.0 && countAfterDelete == 0
  {
    var dao := new ExpenseDao();
    var r := dao.InsertExpense(TestExpense(50.0, "Test Place", 1, date, None));
    var inserted := dao.GetAllExpenses()[0];
    var updated := inserted.(amount := 75.0);
    dao.UpdateExpense(updated);
    amountAfterUpdate := dao.GetAllExpenses()[0].amount;
    dao.DeleteExpense(updated);
    countAfterDelete := |dao.GetAllExpenses()|;
  }
}
