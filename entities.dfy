/** The app's record types: the Room entities `Expense`, `CategoryEntity`
    and `Budget`, and the joined `ExpenseUiModel` that the screens show. */
module Entities {
  import opened Wrappers
  import Calendar

  datatype RecurringPeriod = Monthly | Yearly

  /** A row of the `expenses` table; `id` 0 asks Room for a fresh id. */
  datatype Expense = Expense(
    id: int,
    amount: real,
    place: string,
    categoryId: int,
    date: Calendar.Date,
    isRecurring: bool,
    recurringPeriod: Option<RecurringPeriod>,
    nextDueDate: Option<Calendar.Date>)

  /** An expense with its category's name in place of the category id. */
  datatype ExpenseUiModel = ExpenseUiModel(
    id: int,
    amount: real,
    place: string,
    categoryName: string,
    date: Calendar.Date,
    isRecurring: bool,
    recurringPeriod: Option<RecurringPeriod>,
    nextDueDate: Option<Calendar.Date>)

  /** A row of the `categories` table. */
  datatype CategoryEntity = CategoryEntity(id: int, name: string, isDefault: bool)

  /** A row of `settings_table`: one saved daily budget. */
  datatype Budget = Budget(id: int, dailyBudget: real)

  /** The amount of an expense, as the key that sums and sorts by amount use. */
  function UiAmount(e: ExpenseUiModel): real { e.amount }

  /** The date of an expense as a sort key. */
  function UiTime(e: ExpenseUiModel): real { e.date.time as real }
}
