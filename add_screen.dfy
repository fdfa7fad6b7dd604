/** The add-expense screen's form: the amount filter, the recurring switch,
    the picked date's text, the Save button's enable rule and its click
    handler. */
module AddScreen {
  import opened Wrappers
  import opened Entities
  import Calendar
  import Text
  import Numbers
  import ExpenseRepository
  import HomeViewModel

  /** The amount field's `onValueChange` filter. */
  predicate AcceptsAmount(newValue: string) {
    newValue == "" || Numbers.MatchesAmountPattern(newValue)
  }

  /** Deleting characters from the end of an accepted text keeps it accepted. */
  lemma AcceptsAmountPrefix(s: string, n: nat)
    requires AcceptsAmount(s) && n <= |s|
    ensures AcceptsAmount(s[..n])
  {
    if s != "" {
      Numbers.AmountPatternPrefix(s, n);
    }
  }

  /** "." gets through the filter and makes the amount non-blank, yet
      `toDouble()` throws on it. */
  lemma DotAcceptedButUnparsable()
    ensures AcceptsAmount(".") && !Text.IsBlank(".")
    ensures Numbers.ToDouble(".") == Err(NumberFormat)
  {
    assert Numbers.DotIndex(".") == 0;
    assert "."[1..] == [];
    assert !Text.IsWhitespace("."[0]);
  }

  /** `String.format("%04d-%02d-%02d", year, month + 1, day)`. */
  function FormatDate(year: int, month: int, day: int): string {
    Text.ZeroPad(year, 4) + "-" + Text.ZeroPad(month + 1, 2) + "-" + Text.ZeroPad(day, 2)
  }

  /** `SimpleDateFormat("yyyy-MM-dd").parse` on the texts the picker writes:
      four, two and two digits between dashes naming a real date. */
  function ParseDate(s: string): (r: Option<Calendar.Civil>)
    ensures r.Some? ==> Calendar.ValidCivil(r.value)
  {
    if |s| == 10 && s[4] == '-' && s[7] == '-'
       && Text.AllDigits(s[..4]) && Text.AllDigits(s[5..7]) && Text.AllDigits(s[8..]) then
      var c := Calendar.Civil(Text.DigitsValue(s[..4]), Text.DigitsValue(s[5..7]) - 1, Text.DigitsValue(s[8..]));
      if Calendar.ValidCivil(c) then Some(c) else None
    else None
  }

  /** The date text reads back as the picked date. */
  lemma DateRoundTrip(c: Calendar.Civil)
    requires Calendar.ValidCivil(c) && 0 <= c.year <= 9999
    ensures ParseDate(FormatDate(c.year, c.month, c.day)) == Some(c)
  {
    Text.ZeroPadValue(c.year, 4);
    Text.ZeroPadValue(c.month + 1, 2);
    Text.ZeroPadValue(c.day, 2);
    FormatDateLayout(c);
  }

  /** Where the three numbers sit in the text `FormatDate` writes. */
  lemma FormatDateLayout(c: Calendar.Civil)
    requires Calendar.ValidCivil(c) && 0 <= c.year <= 9999
    ensures var s := FormatDate(c.year, c.month, c.day);
            |s| == 10 && s[4] == '-' && s[7] == '-' && s[..4] == Text.ZeroPad(c.year, 4)
            && s[5..7] == Text.ZeroPad(c.month + 1, 2) && s[8..] == Text.ZeroPad(c.day, 2)
  {
    var y := Text.ZeroPad(c.year, 4);
    var m := Text.ZeroPad(c.month + 1, 2);
    var d := Text.ZeroPad(c.day, 2);
    assert Text.PowTen(2) == 100 && Text.PowTen(4) == 10000;
    Text.ZeroPadWidth(c.year, 4);
    Text.ZeroPadWidth(c.month + 1, 2);
    Text.ZeroPadWidth(c.day, 2);
    var s := FormatDate(c.year, c.month, c.day);
    assert s == y + "-" + m + "-" + d;
    assert s[..4] == y && s[5..7] == m && s[8..] == d;
  }

  /** The instant a parsed date stands for: midnight, in UTC. */
  function StartOfDay(c: Calendar.Civil): Calendar.Date
    requires Calendar.ValidCivil(c)
  {
    Calendar.AtCivil(c, 0)
  }

  class AddScreen {
    var place: string
    var amount: string
    var selectedDate: string
    var selectedCategory: string
    var isRecurring: bool
    var selectedRecurringPeriod: Option<RecurringPeriod>

    /** The amount always passes the filter, and a picked date always parses. */
    ghost predicate Valid()
      reads this
    {
      AcceptsAmount(amount) && (selectedDate == "" || ParseDate(selectedDate).Some?)
    }

    constructor ()
      ensures Valid()
      ensures place == "" && amount == "" && selectedDate == "" && selectedCategory == ""
      ensures !isRecurring && selectedRecurringPeriod.None?
    {
      place, amount, selectedDate, selectedCategory := "", "", "", "";
      isRecurring, selectedRecurringPeriod := false, None;
    }

    /** The amount field's `onValueChange`: a rejected text leaves the
        previous one. */
    method OnAmountChange(newValue: string)
      requires Valid()
      modifies this
      ensures Valid()
      ensures amount == if AcceptsAmount(newValue) then newValue else old(amount)
      ensures place == old(place) && selectedDate == old(selectedDate) && selectedCategory == old(selectedCategory)
      ensures isRecurring == old(isRecurring) && selectedRecurringPeriod == old(selectedRecurringPeriod)
    {
      if AcceptsAmount(newValue) {
        amount := newValue;
      }
    }

    method OnPlaceChange(newValue: string)
      requires Valid()
      modifies this
      ensures Valid() && place == newValue
      ensures amount == old(amount) && selectedDate == old(selectedDate) && selectedCategory == old(selectedCategory)
      ensures isRecurring == old(isRecurring) && selectedRecurringPeriod == old(selectedRecurringPeriod)
    {
      place := newValue;
    }

    method OnCategorySelected(name: string)
      requires Valid()
      modifies this
      ensures Valid() && selectedCategory == name
      ensures place == old(place) && amount == old(amount) && selectedDate == old(selectedDate)
      ensures isRecurring == old(isRecurring) && selectedRecurringPeriod == old(selectedRecurringPeriod)
    {
      selectedCategory := name;
    }

    /** The date picker's callback, with the picker's 0-based month. */
    method OnDatePicked(year: int, month: int, day: int)
      requires Valid() && Calendar.ValidCivil(Calendar.Civil(year, month, day)) && 0 <= year <= 9999
      modifies this
      ensures Valid()
      ensures selectedDate == FormatDate(year, month, day)
      ensures ParseDate(selectedDate) == Some(Calendar.Civil(year, month, day))
      ensures place == old(place) && amount == old(amount) && selectedCategory == old(selectedCategory)
      ensures isRecurring == old(isRecurring) && selectedRecurringPeriod == old(selectedRecurringPeriod)
    {
      DateRoundTrip(Calendar.Civil(year, month, day));
      selectedDate := FormatDate(year, month, day);
    }

    /** The recurring switch: off clears the period, on keeps it. */
    method OnRecurringChange(checked: bool)
      requires Valid()
      modifies this
      ensures Valid() && isRecurring == checked
      ensures selectedRecurringPeriod == if checked then old(selectedRecurringPeriod) else None
      ensures place == old(place) && amount == old(amount) && selectedDate == old(selectedDate)
      ensures selectedCategory == old(selectedCategory)
    {
      isRecurring := checked;
      if !checked {
        selectedRecurringPeriod := None;
      }
    }

    method OnPeriodSelected(period: RecurringPeriod)
      requires Valid()
      modifies this
      ensures Valid() && selectedRecurringPeriod == Some(period)
      ensures place == old(place) && amount == old(amount) && selectedDate == old(selectedDate)
      ensures selectedCategory == old(selectedCategory) && isRecurring == old(isRecurring)
    {
      selectedRecurringPeriod := Some(period);
    }

    /** The four non-blank checks the click handler makes. */
    predicate ClickGuard()
      reads this
    {
      !Text.IsBlank(place) && !Text.IsBlank(amount) && !Text.IsBlank(selectedDate) && !Text.IsBlank(selectedCategory)
    }

    /** The Save button's `enabled`: the click guard and a period when
        recurring. */
    predicate SaveEnabled()
      reads this
    {
      ClickGuard() && (!isRecurring || selectedRecurringPeriod.Some?)
    }

    /** The expense the click handler passes to `addExpense`. */
    function Draft(value: real): (r: ExpenseUiModel)
      reads this
      requires Valid() && selectedDate != ""
      ensures r.id == 0 && r.amount == value && r.place == place && r.categoryName == selectedCategory
      ensures r.isRecurring == isRecurring && r.recurringPeriod == selectedRecurringPeriod && r.nextDueDate.None?
      ensures r.date == StartOfDay(ParseDate(selectedDate).value)
    {
      ExpenseUiModel(0, value, place, selectedCategory, StartOfDay(ParseDate(selectedDate).value),
        isRecurring, selectedRecurringPeriod, None)
    }

    /** The Save button's `onClick`: `Ok(true)` when the expense went to the
        view model (and the screen goes back), `Ok(false)` when the guard
        fails, and the exception `toDouble()` or `addExpense` raises. */
    method OnSaveClick(vm: HomeViewModel.HomeViewModel) returns (r: Result<bool>)
      requires Valid() && vm.repository.Valid()
      modifies vm, vm.repository.expenseDao
      ensures vm.repository.Valid()
      ensures !ClickGuard() ==> r == Ok(false) && vm.repository.expenseDao.State() == old(vm.repository.expenseDao.State())
      ensures ClickGuard() && Numbers.ToDouble(amount).Err? ==>
                r == Err(NumberFormat) && vm.repository.expenseDao.State() == old(vm.repository.expenseDao.State())
      ensures ClickGuard() && Numbers.ToDouble(amount).Ok? ==>
                var next := ExpenseRepository.Added(old(vm.repository.expenseDao.State()), vm.repository.categoryDao.rows,
                                                    HomeViewModel.WithDueDate(Draft(Numbers.ToDouble(amount).value)));
                (next.Ok? ==> r == Ok(true) && vm.repository.expenseDao.State() == next.value)
                && (next.Err? ==> vm.repository.expenseDao.State() == old(vm.repository.expenseDao.State())
                                  && r == if next.error == ExpenseRepository.CategoryNotFound then Ok(true) else Err(next.error))
    {
      if !ClickGuard() {
        return Ok(false);
      }
      var value := Numbers.ToDouble(amount);
      if value.Err? {
        return Err(NumberFormat);
      }
      var res := vm.AddExpense(Draft(value.value));
      r := if res.Ok? then Ok(true) else Err(res.error);
    }
  }
}
