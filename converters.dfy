/** Room's type converters: `Date` to epoch milliseconds and back, and
    `RecurringPeriod` to its enum name and back. */
module Converters {
  import opened Wrappers
  import Calendar
  import opened Entities

  /** `fromTimestamp`: `null` stays `null`. */
  function FromTimestamp(value: Option<int>): (r: Option<Calendar.Date>)
    ensures r.Some? <==> value.Some?
    ensures r.Some? ==> r.value.time == value.value
  {
    match value
    case None => None
    case Some(t) => Some(Calendar.Date(t))
  }

  /** `dateToTimestamp`: the date's milliseconds, `null` stays `null`. */
  function DateToTimestamp(d: Option<Calendar.Date>): (r: Option<int>)
    ensures r.Some? <==> d.Some?
    ensures r.Some? ==> r.value == d.value.time
  {
    match d
    case None => None
    case Some(date) => Some(date.time)
  }

  /** `fromRecurringPeriod`: the enum constant's `name`. */
  function FromRecurringPeriod(p: Option<RecurringPeriod>): (r: Option<string>)
    ensures r.Some? <==> p.Some?
    ensures r.Some? ==> r.value == "MONTHLY" || r.value == "YEARLY"
  {
    match p
    case None => None
    case Some(Monthly) => Some("MONTHLY")
    case Some(Yearly) => Some("YEARLY")
  }

  /** `toRecurringPeriod`: `RecurringPeriod.valueOf`, which throws
      `IllegalArgumentException` for a string that is no constant's name. */
  function ToRecurringPeriod(value: Option<string>): (r: Result<Option<RecurringPeriod>>)
    ensures value.None? ==> r == Ok(None)
    ensures value.Some? && r.Ok? ==> r.value.Some? && FromRecurringPeriod(r.value) == value
  {
    match value
    case None => Ok(None)
    case Some(name) =>
      if name == "MONTHLY" then Ok(Some(Monthly))
      else if name == "YEARLY" then Ok(Some(Yearly))
      else Err(IllegalArgument("No enum constant com.example.pennykeeper.data.model.RecurringPeriod." + name))
  }

  lemma DateRoundTrip(d: Option<Calendar.Date>)
    ensures FromTimestamp(DateToTimestamp(d)) == d
  {
  }

  lemma TimestampRoundTrip(t: Option<int>)
    ensures DateToTimestamp(FromTimestamp(t)) == t
  {
  }

  lemma PeriodRoundTrip(p: Option<RecurringPeriod>)
    ensures ToRecurringPeriod(FromRecurringPeriod(p)) == Ok(p)
  {
  }

  /** Any string other than the two constant names is refused. */
  lemma UnknownPeriodRejected(name: string)
    requires name != "MONTHLY" && name != "YEARLY"
    ensures ToRecurringPeriod(Some(name)).Err?
    ensures ToRecurringPeriod(Some(name)).error.IllegalArgument?
  {
  }
}
