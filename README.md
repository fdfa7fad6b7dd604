# PennyKeeper in Dafny

A model of the logic inside PennyKeeper, an Android app for tracking everyday spending. It covers:
- expenses under categories;
- a daily budget with a progress bar and budget messages;
- recurring expenses with their next due date;
- a month and year view of spending per category;
- a forecast of next month's spending;
- a small chat assistant that answers questions about the data.

The Kotlin code is spread over Room DAOs, repositories and view models. The model keeps that layout: one Dafny module per source file, named after the Kotlin class.

- **Tables and DAOs** (`Tables`, `ExpenseDao`, `CategoryDao`, `SettingsDao`, `ExpenseDatabase`)
  - A Room table is a class whose `rows` field is a sequence kept in ascending primary-key order, next to the `AUTOINCREMENT` sequence value `lastId`.
  - Each `@Insert`, `@Update`, `@Delete` and `@Query` is a method that changes `rows`, or a function that reads them.
  - Each is proved against the generic table operations of `Tables`.
  - `ExpenseDatabase` is the on-create prefill of the category table.
- **Repositories** (`ExpenseRepository`, `CategoryRepository`, `SettingsRepository`, `ThemeRepository`)
  - These cover the join of expenses with category names and the period views.
  - They cover the category lookup that makes add, update and delete fail with `IllegalArgumentException`.
  - They cover the default-category loop, the latest-budget query and the dark-mode switch.
- **View models and screens** (`HomeViewModel`, `HomeScreen`, `AddScreen`, `EditExpenseViewModel`, `StatisticsViewModel`, `SettingsViewModel`)
  - These are classes whose fields are the source's mutable state.
  - Each callback or view-model function is a method whose `ensures` gives the new state in terms of specification functions.
  - Lemmas prove what the source promises about those functions: sort order, grouping, colour assignment, the chat history growing only, the budget tiers and the voice-input parsing.
- **`Prediction`**: the simple exponential smoothing loop of `ExpensePrediction`, which is a weighted left fold.
- **`OpenRouterInferenceSvc`**
  - The text logic of the chat service: greeting and analysis detection, the request parameters, `parseFinancialData`, the top-three categories and the fallback summaries.
  - Also the array algorithm `levenshteinDistance`, modelled as written.
- **Support modules**
  - `Calendar` holds the `java.util.Calendar` fields of an instant: a UTC proleptic Gregorian calendar with a proved round trip between dates and day counts, and `add(MONTH, n)`.
  - `Numbers` and `Text` hold the Kotlin number and string functions the code calls.
  - `Seqs` holds the collection functions: `sumOf`, `filter`, `mapNotNull`, `takeLast`, the stable `sortedByDescending`, and `groupBy` then `mapValues { sumOf }` in insertion order.
  - `Entities` and `Converters` hold the entities and Room's type converters.
  - `Navigation` holds the route strings.
  - `Wrappers` holds `Option` and a `Result` whose error names the exception the Kotlin code would throw.

The model stands in for library code and I/O as follows:
- **Calls that can throw** are modelled by their outcome, given as a parameter: the assistant behind the chat (`Assistant`: whether `getResponse` throws, and the reply `content`, `None` when the request fails) and a failing read (`readFails`).
- **Text rendering** of numbers, currency and dates is a function parameter (`money`, `currency`, `amountText`, `dateText`, `format`). The text around those values is modelled exactly.
- **The clock** is a `now` parameter.

## Model

| member | source | states |
|---|---|---|
| Tables.Find | app/src/main/java/com/example/pennykeeper/data/dao/ExpenseDao.kt:25-26 | the lookup by primary key returns a stored row with that id, and null exactly when no row has it |
| Tables.FreshIdIsFree | app/src/main/java/com/example/pennykeeper/data/dao/ExpenseDao.kt:16-17 | an insert with id 0 takes the next AUTOINCREMENT value, which no stored row holds |
| Tables.InsertSortedAscending | app/src/main/java/com/example/pennykeeper/data/dao/ExpenseDao.kt:16-17 | a row with a new id lands in id order, so a plain `SELECT *` still scans ascending ids |
| Tables.InsertSortedLast | app/src/main/java/com/example/pennykeeper/data/dao/ExpenseDao.kt:16-17 | a row whose id exceeds every stored id is appended at the end |
| Tables.InsertFresh | app/src/main/java/com/example/pennykeeper/data/dao/ExpenseDao.kt:16-17 | an insert under the next sequence value appends the row and advances the sequence |
| Tables.Insert | app/src/main/java/com/example/pennykeeper/data/dao/ExpenseDao.kt:16-17 | `@Insert` with the ABORT strategy fails with a constraint violation exactly when the id is taken |
| Tables.InsertSpec | app/src/main/java/com/example/pennykeeper/data/dao/ExpenseDao.kt:16-17 | a successful insert adds exactly the new row (as a multiset) and keeps the table valid |
| Tables.InsertKeepsOthers | app/src/main/java/com/example/pennykeeper/data/dao/ExpenseDao.kt:16-17 | an insert leaves the row under every other id as it was |
| Tables.UniqueById | app/src/main/java/com/example/pennykeeper/data/dao/ExpenseDao.kt:25-26 | in a valid table the id identifies a row: two rows with the same id are equal |
| Tables.Replace | app/src/main/java/com/example/pennykeeper/data/dao/ExpenseDao.kt:19-20 | `@Update` keeps the length and swaps in the new row exactly at the position with its id |
| Tables.ReplaceSpec | app/src/main/java/com/example/pennykeeper/data/dao/ExpenseDao.kt:19-20 | an update keeps the table valid, makes the new row findable by its id, and is a no-op for an unknown id |
| Tables.ReplaceKeepsOthers | app/src/main/java/com/example/pennykeeper/data/dao/ExpenseDao.kt:19-20 | an update leaves the row under every other id as it was |
| Tables.Remove | app/src/main/java/com/example/pennykeeper/data/dao/ExpenseDao.kt:22-23 | `@Delete` keeps exactly the rows whose id differs from the target |
| Tables.RemoveSpec | app/src/main/java/com/example/pennykeeper/data/dao/ExpenseDao.kt:22-23 | a delete keeps the table valid, drops the id, and keeps the row under every other id |
| Tables.FilterAscending | app/src/main/java/com/example/pennykeeper/data/dao/CategoryDao.kt:47-48 | a `DELETE ... WHERE` that keeps a subset keeps the id order |
| Tables.First | app/src/main/java/com/example/pennykeeper/data/dao/CategoryDao.kt:15-16 | `LIMIT 1` returns a row that matches, and null only when none matches |
| CategoryDao.InsertNewCategory | app/src/main/java/com/example/pennykeeper/data/dao/CategoryDao.kt:24-25 | a new category (id 0) is appended under the next id and the table stays valid |
| CategoryDao.InsertIfNewSpec | app/src/main/java/com/example/pennykeeper/data/dao/CategoryDao.kt:36-42 | a taken name leaves the table unchanged; afterwards the name is present; a new category never fails |
| CategoryDao.InsertIfNewIdempotent | app/src/main/java/com/example/pennykeeper/data/dao/CategoryDao.kt:36-42 | a second `insertIfNotExists` with the same category changes nothing |
| CategoryDao.InsertIfNewKeepsNamesUnique | app/src/main/java/com/example/pennykeeper/data/dao/CategoryDao.kt:36-42 | when names are unique before, they are unique after |
| CategoryDao.CategoryDao.GetAllCategories | app/src/main/java/com/example/pennykeeper/data/dao/CategoryDao.kt:12-13 | every stored category, in ascending id order |
| CategoryDao.CategoryDao.GetCategoryByName | app/src/main/java/com/example/pennykeeper/data/dao/CategoryDao.kt:15-16 | a stored row with that name, and null exactly when no row has it |
| CategoryDao.CategoryDao.GetCategoryById | app/src/main/java/com/example/pennykeeper/data/dao/CategoryDao.kt:18-19 | a stored row with that id, and null exactly when no row has it |
| CategoryDao.CategoryDao.GetDefaultCategory | app/src/main/java/com/example/pennykeeper/data/dao/CategoryDao.kt:21-22 | a stored default row, and null exactly when none is default |
| CategoryDao.CategoryDao.CategoryExists | app/src/main/java/com/example/pennykeeper/data/dao/CategoryDao.kt:33-34 | true exactly when some row has the name |
| CategoryDao.CategoryDao.GetDefaultCategories | app/src/main/java/com/example/pennykeeper/data/dao/CategoryDao.kt:44-45 | exactly the stored rows flagged default |
| CategoryDao.CategoryDao.InsertCategory | app/src/main/java/com/example/pennykeeper/data/dao/CategoryDao.kt:24-25 | the table becomes the inserted one, or stays as it was with a constraint violation; id 0 always appends under the next id |
| CategoryDao.CategoryDao.InsertIfNotExists | app/src/main/java/com/example/pennykeeper/data/dao/CategoryDao.kt:36-42 | the table gains the category under the next id only when its name is new |
| CategoryDao.CategoryDao.UpdateCategory | app/src/main/java/com/example/pennykeeper/data/dao/CategoryDao.kt:27-28 | the row with the category's id is replaced; the sequence is untouched |
| CategoryDao.CategoryDao.DeleteCategory | app/src/main/java/com/example/pennykeeper/data/dao/CategoryDao.kt:30-31 | the row with the category's id goes; every other id still finds its row |
| CategoryDao.CategoryDao.DeleteNonDefaultCategories | app/src/main/java/com/example/pennykeeper/data/dao/CategoryDao.kt:47-48 | exactly the default rows remain, in their order |
| ExpenseDao.InsertNewExpense | app/src/main/java/com/example/pennykeeper/data/dao/ExpenseDao.kt:16-17 | a new expense (id 0) is appended under the next id and the table stays valid |
| ExpenseDao.ByCategory | app/src/main/java/com/example/pennykeeper/data/dao/ExpenseDao.kt:32-33 | exactly the rows of that category id |
| ExpenseDao.RecurringRows | app/src/main/java/com/example/pennykeeper/data/dao/ExpenseDao.kt:35-36 | exactly the recurring rows |
| ExpenseDao.DueRows | app/src/main/java/com/example/pennykeeper/data/dao/ExpenseDao.kt:38-39 | exactly the recurring rows whose next due date is set and not after the date (SQL NULL compares false) |
| ExpenseDao.ExpenseDao.GetAllExpenses | app/src/main/java/com/example/pennykeeper/data/dao/ExpenseDao.kt:13-14 | every stored expense, in ascending id order |
| ExpenseDao.ExpenseDao.GetExpenseById | app/src/main/java/com/example/pennykeeper/data/dao/ExpenseDao.kt:25-26 | a stored row with that id, and null exactly when none has it |
| ExpenseDao.ExpenseDao.GetExpensesByCategory | app/src/main/java/com/example/pennykeeper/data/dao/ExpenseDao.kt:32-33 | membership: an expense is listed exactly when it is stored under that category id |
| ExpenseDao.ExpenseDao.GetRecurringExpenses | app/src/main/java/com/example/pennykeeper/data/dao/ExpenseDao.kt:35-36 | membership: exactly the stored recurring expenses |
| ExpenseDao.ExpenseDao.GetDueRecurringExpenses | app/src/main/java/com/example/pennykeeper/data/dao/ExpenseDao.kt:38-39 | membership: exactly the stored recurring expenses due by the date |
| ExpenseDao.ExpenseDao.InsertExpense | app/src/main/java/com/example/pennykeeper/data/dao/ExpenseDao.kt:16-17 | the table becomes the inserted one, or stays as it was with a constraint violation; id 0 always appends |
| ExpenseDao.ExpenseDao.UpdateExpense | app/src/main/java/com/example/pennykeeper/data/dao/ExpenseDao.kt:19-20 | the row with the expense's id is replaced; the sequence is untouched |
| ExpenseDao.ExpenseDao.DeleteExpense | app/src/main/java/com/example/pennykeeper/data/dao/ExpenseDao.kt:22-23 | the row with the expense's id goes and no row keeps that id |
| ExpenseDao.ExpenseDao.DeleteAll | app/src/main/java/com/example/pennykeeper/data/dao/ExpenseDao.kt:28-29 | the table is empty and the AUTOINCREMENT sequence is kept |
| ExpenseDao.AppendCounts | app/src/androidTest/java/com/example/pennykeeper/ExpenseDatabaseTest.kt:124-130 | appending a row moves the recurring count and the category-1 count by one exactly when it recurs or belongs there |
| ExpenseDao.InsertCounted | app/src/androidTest/java/com/example/pennykeeper/ExpenseDatabaseTest.kt:115-118 | each insert of the test adds one row and moves the two counts as its flags say |
| ExpenseDao.PrepopulatedScenario | app/src/androidTest/java/com/example/pennykeeper/ExpenseDatabaseTest.kt:100-131 | the six test expenses all come back, three recurring and two in category 1 |
| ExpenseDao.CrudScenario | app/src/androidTest/java/com/example/pennykeeper/ExpenseDatabaseTest.kt:133-167 | after insert, update to 75.0 and delete, the amount read back was 75.0 and the table is empty |
| SettingsDao.Latest | app/src/main/java/com/example/pennykeeper/data/dao/SettingsDao.kt:17-18 | `ORDER BY id DESC LIMIT 1`: null exactly for an empty table, else the stored row with the largest id |
| SettingsDao.Stored | app/src/main/java/com/example/pennykeeper/data/dao/SettingsDao.kt:20-21 | the REPLACE insert keeps the table valid |
| SettingsDao.StoredReplaces | app/src/main/java/com/example/pennykeeper/data/dao/SettingsDao.kt:20-21 | a budget with a stored id overwrites that row and the row count stays |
| SettingsDao.StoredFresh | app/src/main/java/com/example/pennykeeper/data/dao/SettingsDao.kt:20-21 | a budget with id 0 is appended under an id above all others, and is what `getBudget` returns next |
| SettingsDao.StoredKeepsOthers | app/src/main/java/com/example/pennykeeper/data/dao/SettingsDao.kt:20-21 | the row under every other id is unchanged |
| SettingsDao.SettingsDao.GetBudget | app/src/main/java/com/example/pennykeeper/data/dao/SettingsDao.kt:17-18 | null exactly when nothing was saved, else the row with the largest id |
| SettingsDao.SettingsDao.Insert | app/src/main/java/com/example/pennykeeper/data/dao/SettingsDao.kt:20-21 | the table becomes the REPLACE result; id 0 appends under the next id |
| Converters.FromTimestamp | app/src/main/java/com/example/pennykeeper/data/model/TypeConverter.kt:11-14 | null stays null, otherwise the date carries the milliseconds |
| Converters.DateToTimestamp | app/src/main/java/com/example/pennykeeper/data/model/TypeConverter.kt:16-19 | null stays null, otherwise the date's milliseconds |
| Converters.FromRecurringPeriod | app/src/main/java/com/example/pennykeeper/data/model/TypeConverter.kt:21-24 | null stays null, otherwise one of the two enum names |
| Converters.ToRecurringPeriod | app/src/main/java/com/example/pennykeeper/data/model/TypeConverter.kt:26-29 | null stays null; a successful read is a period whose name is the input |
| Converters.DateRoundTrip | app/src/main/java/com/example/pennykeeper/data/model/TypeConverter.kt:11-19 | reading back a stored date gives the date |
| Converters.TimestampRoundTrip | app/src/main/java/com/example/pennykeeper/data/model/TypeConverter.kt:11-19 | storing a read timestamp gives the timestamp |
| Converters.PeriodRoundTrip | app/src/main/java/com/example/pennykeeper/data/model/TypeConverter.kt:21-29 | reading back a stored period gives the period |
| Converters.UnknownPeriodRejected | app/src/main/java/com/example/pennykeeper/data/model/TypeConverter.kt:26-29 | any other name makes `valueOf` throw IllegalArgumentException |
| Navigation.CreateRoute | app/src/main/java/com/example/pennykeeper/ui/navigation/NavigationDestination.kt:11-12 | the route is "edit/" followed by the id in decimal |
| Navigation.CreateRouteParses | app/src/main/java/com/example/pennykeeper/ui/navigation/NavigationDestination.kt:11-13 | the id parses back out of the route |
| Navigation.CreateRouteInjective | app/src/main/java/com/example/pennykeeper/ui/navigation/NavigationDestination.kt:12 | distinct ids give distinct routes |
| Navigation.EditTemplatePlaceholder | app/src/main/java/com/example/pennykeeper/ui/navigation/NavigationDestination.kt:11-13 | the edit template's placeholder is the argument name |
| Navigation.RoutesDistinct | app/src/main/java/com/example/pennykeeper/ui/navigation/NavigationDestination.kt:3-17 | the ten routes are pairwise distinct and the five sub-settings routes start with "settings/" |
| ThemeRepository.StoredPreference | app/src/main/java/com/example/pennykeeper/data/repository/ThemeRepository.kt:19-21 | the stored flag, false when the key is absent |
| ThemeRepository.Toggled | app/src/main/java/com/example/pennykeeper/data/repository/ThemeRepository.kt:29-33 | the flag is negated, the store then holds it, and every other key is untouched |
| ThemeRepository.ToggledConsistent | app/src/main/java/com/example/pennykeeper/data/repository/ThemeRepository.kt:29-33 | after a toggle the flag and the store agree |
| ThemeRepository.ToggleTwice | app/src/main/java/com/example/pennykeeper/data/repository/ThemeRepository.kt:29-33 | two toggles restore the flag, and the stored value when they agreed before |
| ThemeRepository.ThemeRepository.ToggleDarkMode | app/src/main/java/com/example/pennykeeper/data/repository/ThemeRepository.kt:29-33 | the new state is the toggled one: flag negated and saved |
| SettingsRepository.SettingsRepository.GetCurrentBudget | app/src/main/java/com/example/pennykeeper/data/repository/SettingsRepository.kt:13-18 | a zero budget before any save, else the latest stored row |
| SettingsRepository.SettingsRepository.GetDailyBudget | app/src/main/java/com/example/pennykeeper/data/repository/SettingsRepository.kt:26-31 | the current budget's amount, 0.0 before any save |
| SettingsRepository.SettingsRepository.SaveBudget | app/src/main/java/com/example/pennykeeper/data/repository/SettingsRepository.kt:22-24 | a new row under a fresh id; it becomes the current budget and its amount the daily budget |
| CategoryRepository.Added | app/src/main/java/com/example/pennykeeper/data/repository/CategoryRepository.kt:15-21 | the name's category is appended under the next id exactly when the name is new |
| CategoryRepository.WithDefaults | app/src/main/java/com/example/pennykeeper/data/repository/CategoryRepository.kt:57-59 | adding the names in turn keeps the table valid |
| CategoryRepository.WithDefaultsHasAll | app/src/main/java/com/example/pennykeeper/data/repository/CategoryRepository.kt:47-60 | afterwards every listed name is present |
| CategoryRepository.WithDefaultsExtends | app/src/main/java/com/example/pennykeeper/data/repository/CategoryRepository.kt:47-60 | the old rows are a prefix of the new table |
| CategoryRepository.WithDefaultsNoop | app/src/main/java/com/example/pennykeeper/data/repository/CategoryRepository.kt:47-60 | when every name is present nothing changes |
| CategoryRepository.WithDefaultsIdempotent | app/src/main/java/com/example/pennykeeper/data/repository/CategoryRepository.kt:47-60 | running it twice is the same as once |
| CategoryRepository.WithDefaultsKeepsNamesUnique | app/src/main/java/com/example/pennykeeper/data/repository/CategoryRepository.kt:47-60 | unique names stay unique |
| CategoryRepository.WithDefaultsNames | app/src/main/java/com/example/pennykeeper/data/repository/CategoryRepository.kt:47-60 | the names afterwards are the old names together with the listed ones |
| CategoryRepository.AddedNames | app/src/main/java/com/example/pennykeeper/data/repository/CategoryRepository.kt:15-21 | one `addCategory` adds its name to the name set |
| CategoryRepository.CategoryRepository.Categories | app/src/main/java/com/example/pennykeeper/data/repository/CategoryRepository.kt:12 | every category, in id order |
| CategoryRepository.CategoryRepository.DefaultCategories | app/src/main/java/com/example/pennykeeper/data/repository/CategoryRepository.kt:13 | exactly the default categories |
| CategoryRepository.CategoryRepository.AddCategory | app/src/main/java/com/example/pennykeeper/data/repository/CategoryRepository.kt:15-21 | the table becomes `Added`, and the name is present |
| CategoryRepository.CategoryRepository.EnsureDefaultCategoriesExist | app/src/main/java/com/example/pennykeeper/data/repository/CategoryRepository.kt:47-60 | the table becomes `WithDefaults` of the six names: all present, old rows a prefix |
| CategoryRepository.CategoryRepository.AddDefaults | app/src/main/java/com/example/pennykeeper/data/repository/CategoryRepository.kt:57-59 | the loop leaves the table as `WithDefaults` of the names |
| Prediction.Values | app/src/main/java/com/example/pennykeeper/utils/ExpensePrediction.kt:18 | the totals, position by position |
| Prediction.PredictNextMonthExpense | app/src/main/java/com/example/pennykeeper/utils/ExpensePrediction.kt:15-32 | the loop's forecast equals the smoothing fold `Predict` |
| Prediction.ShortSeriesPredictsZero | app/src/main/java/com/example/pennykeeper/utils/ExpensePrediction.kt:16 | fewer than two months give exactly 0.0 |
| Prediction.KeysIrrelevant | app/src/main/java/com/example/pennykeeper/utils/ExpensePrediction.kt:18 | the month keys never matter, only the totals |
| Prediction.TwoValues | app/src/main/java/com/example/pennykeeper/utils/ExpensePrediction.kt:20-28 | two months give 0.7 times the second plus 0.3 times the first |
| Prediction.SmoothedConstant | app/src/main/java/com/example/pennykeeper/utils/ExpensePrediction.kt:23-28 | a constant series smooths to that constant |
| Prediction.ConstantSeries | app/src/main/java/com/example/pennykeeper/utils/ExpensePrediction.kt:15-32 | a constant series of two or more months forecasts the constant |
| Prediction.SmoothedAtLeast | app/src/main/java/com/example/pennykeeper/utils/ExpensePrediction.kt:23-28 | a lower bound on every value bounds the smoothed value |
| Prediction.SmoothedAtMost | app/src/main/java/com/example/pennykeeper/utils/ExpensePrediction.kt:23-28 | an upper bound on every value bounds the smoothed value |
| Prediction.PredictBetween | app/src/main/java/com/example/pennykeeper/utils/ExpensePrediction.kt:15-32 | the forecast lies between the smallest and the largest total |
| Prediction.PredictNonNegative | app/src/main/java/com/example/pennykeeper/utils/ExpensePrediction.kt:15-32 | non-negative totals give a non-negative forecast |
| ExpenseDatabase.PrefillRows | app/src/main/java/com/example/pennykeeper/data/ExpenseDatabase.kt:52-57 | the prefill appends one default category per name, under consecutive fresh ids |
| ExpenseDatabase.Prefill | app/src/main/java/com/example/pennykeeper/data/ExpenseDatabase.kt:46-58 | the on-create callback appends exactly the six prefill rows and advances the sequence by six |
| ExpenseDatabase.PrefillTableNames | app/src/main/java/com/example/pennykeeper/data/ExpenseDatabase.kt:52-57 | the prefilled table is valid, its names are unique and are the six prefill names |
| ExpenseDatabase.WithDefaultsCount | app/src/main/java/com/example/pennykeeper/data/repository/CategoryRepository.kt:47-60 | on a table with unique names, ensuring the defaults leaves one row per distinct name |
| ExpenseDatabase.FreshInstallHoldsNine | app/src/main/java/com/example/pennykeeper/data/ExpenseDatabase.kt:46-58 | prefill then `ensureDefaultCategoriesExist` gives nine categories (three default names are new) |
| ExpenseDatabase.FreshInstallScenario | app/src/main/java/com/example/pennykeeper/data/ExpenseDatabase.kt:46-58 | running the prefill and the default-category loop on a new table leaves nine rows |
| ExpenseRepository.CategoryName | app/src/main/java/com/example/pennykeeper/data/repository/ExpenseRepository.kt:24-29 | the name of a category with the expense's id, "Unknown" when none has it |
| ExpenseRepository.Join | app/src/main/java/com/example/pennykeeper/data/repository/ExpenseRepository.kt:19-36 | one entry per expense in table order, every field copied and the category name joined |
| ExpenseRepository.JoinedNameIsUnique | app/src/main/java/com/example/pennykeeper/data/repository/ExpenseRepository.kt:24-29 | in a valid category table the joined name is the name of the row with that id |
| ExpenseRepository.ExpensesByPeriod | app/src/main/java/com/example/pennykeeper/data/repository/ExpenseRepository.kt:39-105 | a view never holds more entries than the input |
| ExpenseRepository.MonthKeyOrder | app/src/main/java/com/example/pennykeeper/data/repository/ExpenseRepository.kt:71-72 | the (year, month) comparison of the MONTHLY rule is the order of month keys |
| ExpenseRepository.MonthView | app/src/main/java/com/example/pennykeeper/data/repository/ExpenseRepository.kt:56-83 | MONTH view per expense: one-off in its own month; monthly from its first month on; yearly from its first year on at a twelfth; a recurring one without a period never |
| ExpenseRepository.YearView | app/src/main/java/com/example/pennykeeper/data/repository/ExpenseRepository.kt:84-112 | YEAR view: one-off in its own year; recurring with a period in every year from its first on; without a period never |
| ExpenseRepository.ByPeriodAppend | app/src/main/java/com/example/pennykeeper/data/repository/ExpenseRepository.kt:39-105 | every view distributes over concatenation, so it keeps input order |
| ExpenseRepository.ByPeriodFromInput | app/src/main/java/com/example/pennykeeper/data/repository/ExpenseRepository.kt:39-105 | every entry of a view is an input expense, except the MONTH view's twelfth-amount copies of yearly ones |
| ExpenseRepository.CategoryIdFor | app/src/main/java/com/example/pennykeeper/data/repository/ExpenseRepository.kt:115-116 | the id of a category with that name, and "Category not found" exactly when none has it |
| ExpenseRepository.ToEntityJoinsBack | app/src/main/java/com/example/pennykeeper/data/repository/ExpenseRepository.kt:118-127 | with unique category names, the row forwarded to the DAO joins back to the screen's expense |
| ExpenseRepository.Added | app/src/main/java/com/example/pennykeeper/data/repository/ExpenseRepository.kt:114-129 | an unknown category raises "Category not found"; the only other failure is the insert's constraint violation |
| ExpenseRepository.AddedNew | app/src/main/java/com/example/pennykeeper/data/repository/ExpenseRepository.kt:114-129 | a new expense under a known category is appended under a fresh id with every field forwarded |
| ExpenseRepository.Updated | app/src/main/java/com/example/pennykeeper/data/repository/ExpenseRepository.kt:131-146 | fails exactly for an unknown category name; otherwise the row count stays |
| ExpenseRepository.Deleted | app/src/main/java/com/example/pennykeeper/data/repository/ExpenseRepository.kt:148-163 | fails exactly for an unknown category name; otherwise exactly the rows with another id remain |
| ExpenseRepository.ExpenseRepository.Expenses | app/src/main/java/com/example/pennykeeper/data/repository/ExpenseRepository.kt:186-205 | the current join of the two tables (see `Join`) |
| ExpenseRepository.ExpenseRepository.GetExpensesByPeriod | app/src/main/java/com/example/pennykeeper/data/repository/ExpenseRepository.kt:39-105 | the period view of the current join |
| ExpenseRepository.ExpenseRepository.GetExpenseById | app/src/main/java/com/example/pennykeeper/data/repository/ExpenseRepository.kt:165-179 | null exactly when no row has the id, else that row joined with its category name |
| ExpenseRepository.ExpenseRepository.AddExpense | app/src/main/java/com/example/pennykeeper/data/repository/ExpenseRepository.kt:114-129 | the table becomes `Added`, or stays and the exception is returned |
| ExpenseRepository.ExpenseRepository.UpdateExpense | app/src/main/java/com/example/pennykeeper/data/repository/ExpenseRepository.kt:131-146 | the rows become `Updated`, or stay and the exception is returned |
| ExpenseRepository.ExpenseRepository.DeleteExpense | app/src/main/java/com/example/pennykeeper/data/repository/ExpenseRepository.kt:148-163 | the rows become `Deleted`, or stay and the exception is returned |
| ExpenseRepository.ExpenseRepository.DeleteAllExpenses | app/src/main/java/com/example/pennykeeper/data/repository/ExpenseRepository.kt:181-183 | the expenses table is emptied |
| Calendar.DaysInMonth | app/src/main/java/com/example/pennykeeper/ui/stats/StatisticsViewModel.kt:92 | every month (`getActualMaximum(DAY_OF_MONTH)`) has 28 to 31 days |
| Calendar.CivilRoundTrip | app/src/main/java/com/example/pennykeeper/data/repository/ExpenseRepository.kt:57-63 | a calendar date converted to its day count and back is the same date |
| Calendar.DaysRoundTrip | app/src/main/java/com/example/pennykeeper/data/repository/ExpenseRepository.kt:57-63 | a day count is the day count of its own calendar date |
| Calendar.CivilFromDaysValid | app/src/main/java/com/example/pennykeeper/data/repository/ExpenseRepository.kt:57-63 | every instant has a valid year, month and day |
| Calendar.CivilOf | app/src/main/java/com/example/pennykeeper/data/repository/ExpenseRepository.kt:57-63 | the YEAR, MONTH and DAY_OF_MONTH fields of an instant form a valid date |
| Calendar.AtCivilFields | app/src/main/java/com/example/pennykeeper/ui/home/HomeScreen.kt:91 | the instant built from a calendar day and a time of day reports that day and time |
| Calendar.DateOfCivil | app/src/main/java/com/example/pennykeeper/ui/home/HomeScreen.kt:91 | every instant is its calendar day at its time of day |
| Calendar.DaysFromCivilDay | app/src/main/java/com/example/pennykeeper/ui/home/HomeScreen.kt:91 | moving the day of the month moves the day count by the same amount |
| Calendar.ShiftMonths | app/src/main/java/com/example/pennykeeper/ui/home/HomeViewModel.kt:61-64 | n months on: the month key moves by n and the day is clamped to the target month's length |
| Calendar.AddMonthsFields | app/src/main/java/com/example/pennykeeper/ui/home/HomeViewModel.kt:61-64 | `Calendar.add(MONTH, n)` moves the month key by n, clamps the day, keeps the time of day |
| Numbers.DotIndex | app/src/main/java/com/example/pennykeeper/ui/home/AddScreen.kt:121 | the first '.' or -1, and -1 exactly when there is none |
| Numbers.AmountPatternPrefix | app/src/main/java/com/example/pennykeeper/ui/home/AddScreen.kt:120-124 | the amount filter accepts every prefix of an accepted text |
| Numbers.AmountValue | app/src/main/java/com/example/pennykeeper/ui/home/AddScreen.kt:254 | the value of an accepted text is non-negative |
| Numbers.ToDoubleOrNull | app/src/main/java/com/example/pennykeeper/ui/expense/EditExpenseViewModel.kt:102 | a number for a text the filter accepts that holds a digit, and for a scientific text such as "1.0E7"; among accepted texts null exactly for "" and "."; never negative |
| Numbers.DoubleTextParses | app/src/main/java/com/example/pennykeeper/ui/expense/EditExpenseViewModel.kt:56 | every text in the layout `Double.toString` writes for an amount, with or without exponent, parses |
| Numbers.ParseTenMillion | app/src/main/java/com/example/pennykeeper/ui/expense/EditExpenseViewModel.kt:102 | "1.0E7" reads as 10000000 |
| Numbers.ParseFiveTenThousandths | app/src/main/java/com/example/pennykeeper/ui/expense/EditExpenseViewModel.kt:102 | "5.0E-4" reads as 0.0005 |
| Numbers.NoDigitIsEmptyOrDot | app/src/main/java/com/example/pennykeeper/ui/home/AddScreen.kt:121 | an accepted text without a digit is "" or "." |
| Numbers.ToDouble | app/src/main/java/com/example/pennykeeper/ui/home/AddScreen.kt:254 | like `toDoubleOrNull` but a NumberFormatException instead of null |
| Numbers.ParseWhole | app/src/main/java/com/example/pennykeeper/ui/home/AddScreen.kt:254 | a whole number's decimal text reads back as that number |
| Numbers.ParseTwelveFifty | app/src/main/java/com/example/pennykeeper/ui/home/AddScreen.kt:254 | "12.50" reads as 12.5 |
| Numbers.DoubleToInt | app/src/main/java/com/example/pennykeeper/ui/settings/SettingsViewModel.kt:200 | `toInt()` truncates toward zero and saturates to the Int range |
| Numbers.PercentOf | app/src/main/java/com/example/pennykeeper/ui/settings/SettingsViewModel.kt:200 | a zero total gives 0 exactly for a zero part (NaN converts to 0); a part within a positive total gives a whole percentage in 0..100 |
| HomeViewModel.CalculateNextDueDate | app/src/main/java/com/example/pennykeeper/ui/home/HomeViewModel.kt:55-67 | none without a period; MONTHLY one month key on, YEARLY the same month a year on; time of day kept; day never later |
| HomeViewModel.WithDueDate | app/src/main/java/com/example/pennykeeper/ui/home/HomeViewModel.kt:44-46 | the copy differs only in its next due date, which is `calculateNextDueDate` of date and period |
| HomeViewModel.NewestFirst | app/src/main/java/com/example/pennykeeper/ui/home/HomeViewModel.kt:24-25 | a permutation of the expenses sorted by date, newest first |
| HomeViewModel.NewestFirstStable | app/src/main/java/com/example/pennykeeper/ui/home/HomeViewModel.kt:24-25 | expenses on the same instant keep their table order |
| HomeViewModel.HomeViewModel.Expenses | app/src/main/java/com/example/pennykeeper/ui/home/HomeViewModel.kt:24-30 | a permutation of the repository's expenses, newest first |
| HomeViewModel.HomeViewModel.AddExpense | app/src/main/java/com/example/pennykeeper/ui/home/HomeViewModel.kt:41-51 | stores the copy with its due date and sets `isExpenseAdded`; an unknown category is swallowed; a key clash propagates |
| HomeViewModel.HomeViewModel.DeleteAllExpenses | app/src/main/java/com/example/pennykeeper/ui/home/HomeViewModel.kt:70-74 | the expenses table and the list become empty |
| HomeScreen.MessageTier | app/src/main/java/com/example/pennykeeper/ui/home/HomeScreen.kt:181-189 | the first band of the `when` chain that applies: none for a zero limit, then ratio above 1, 0.8, 0.5, 0.3, 0.1, and no message at or below 0.1 |
| HomeScreen.BudgetMessage | app/src/main/java/com/example/pennykeeper/ui/home/HomeScreen.kt:181-189 | the message is empty exactly in the quiet tier |
| HomeScreen.SnackbarIffTier | app/src/main/java/com/example/pennykeeper/ui/home/HomeScreen.kt:192-200 | the snackbar is shown exactly when a non-quiet tier applies |
| HomeScreen.TierMonotone | app/src/main/java/com/example/pennykeeper/ui/home/HomeScreen.kt:181-189 | with a positive limit, spending more never gives a less urgent message |
| HomeScreen.Remaining | app/src/main/java/com/example/pennykeeper/ui/home/HomeScreen.kt:324 | remaining plus spent is the limit |
| HomeScreen.Progress | app/src/main/java/com/example/pennykeeper/ui/home/HomeScreen.kt:325-329 | in [0, 1]; 0 without a positive limit; 0 exactly for no spend and 1 exactly at or past the limit; otherwise the spent share |
| HomeScreen.ExceededIffOverspent | app/src/main/java/com/example/pennykeeper/ui/home/HomeScreen.kt:324-326 | "exceeded" is shown exactly when the remaining budget is negative, and the bar is then full |
| HomeScreen.SameCalendarDayIff | app/src/main/java/com/example/pennykeeper/ui/home/HomeScreen.kt:172-173 | same YEAR and DAY_OF_YEAR exactly when both dates lie in the same whole day since the epoch |
| HomeScreen.SpentTodayAppend | app/src/main/java/com/example/pennykeeper/ui/home/HomeScreen.kt:168-175 | one more expense adds its amount to today's spend exactly when it is dated today |
| HomeScreen.SpentTodayNonNegative | app/src/main/java/com/example/pennykeeper/ui/home/HomeScreen.kt:168-175 | non-negative amounts give a non-negative spend |
| HomeScreen.FirstDigit | app/src/main/java/com/example/pennykeeper/ui/home/HomeScreen.kt:77-78 | the first index holding a digit, `|s|` when there is none |
| HomeScreen.AmountEnd | app/src/main/java/com/example/pennykeeper/ui/home/HomeScreen.kt:77-78 | the match starting at a digit is non-empty and ends inside the text |
| HomeScreen.FindAmount | app/src/main/java/com/example/pennykeeper/ui/home/HomeScreen.kt:77-79 | no match exactly when the text holds no digit; otherwise a match of `\d+(?:\.\d{1,2})?` that starts at the first digit |
| HomeScreen.FindAmountLongest | app/src/main/java/com/example/pennykeeper/ui/home/HomeScreen.kt:77-79 | the match is greedy: no longer text from the same start matches |
| HomeScreen.AmountTokenParses | app/src/main/java/com/example/pennykeeper/ui/home/HomeScreen.kt:152 | every match reads as a number, so `amount.toDouble()` never throws on it |
| HomeScreen.DayOfWeek | app/src/main/java/com/example/pennykeeper/ui/home/HomeScreen.kt:114 | `DAY_OF_WEEK` is in 1..7 |
| HomeScreen.SetDayOfMonthFields | app/src/main/java/com/example/pennykeeper/ui/home/HomeScreen.kt:91 | setting a day of the current month keeps year, month and time of day and sets the day |
| HomeScreen.NextDayOfWeek | app/src/main/java/com/example/pennykeeper/ui/home/HomeScreen.kt:114-116 | a day later the weekday advances by one, Saturday wrapping to Sunday |
| HomeScreen.LastWeekday | app/src/main/java/com/example/pennykeeper/ui/home/HomeScreen.kt:110-117 | the loop ends on the asked weekday, within the seven days before now, at the same time of day |
| HomeScreen.FindOnThe | app/src/main/java/com/example/pennykeeper/ui/home/HomeScreen.kt:88 | the first position of "on the " followed by a digit, none exactly when there is none |
| HomeScreen.ToIntOrNull | app/src/main/java/com/example/pennykeeper/ui/home/HomeScreen.kt:89 | `toIntOrNull` gives a value in 0..Int.MAX_VALUE when there is one |
| HomeScreen.SpokenDay | app/src/main/java/com/example/pennykeeper/ui/home/HomeScreen.kt:88-89 | a spoken day only after a found "on the " |
| HomeScreen.WeekdayAt | app/src/main/java/com/example/pennykeeper/ui/home/HomeScreen.kt:98-108 | the `Calendar` constant of the weekday named there, in 1..7 |
| HomeScreen.FindWeekday | app/src/main/java/com/example/pennykeeper/ui/home/HomeScreen.kt:98-108 | the constant of the first "last <weekday>", in 1..7 |
| HomeScreen.PhraseOf | app/src/main/java/com/example/pennykeeper/ui/home/HomeScreen.kt:85-130 | the first branch of the date `when` whose test holds, in source order, each exactly under its condition |
| HomeScreen.OnTheChangesDayOnlyInRange | app/src/main/java/com/example/pennykeeper/ui/home/HomeScreen.kt:87-94 | an "on the ..." sentence moves the date only for a spoken day in 1..31, and a day of this month becomes the day of the month |
| HomeScreen.NeighbourDays | app/src/main/java/com/example/pennykeeper/ui/home/HomeScreen.kt:121-128 | "yesterday" and "tomorrow" are the previous and next day at the same time of day |
| HomeScreen.VoiceDateOf | app/src/main/java/com/example/pennykeeper/ui/home/HomeScreen.kt:85-130 | the date the `when` and its loop compute |
| HomeScreen.VoiceExpense | app/src/main/java/com/example/pennykeeper/ui/home/HomeScreen.kt:149-160 | built exactly when the text holds a digit: the matched amount, category "Other", not recurring, no due date |
| HomeScreen.VoiceAddAppends | app/src/main/java/com/example/pennykeeper/ui/home/HomeScreen.kt:149-160 | with an "Other" category, a sentence with an amount appends one row and keeps the others |
| HomeScreen.OnSpeechResult | app/src/main/java/com/example/pennykeeper/ui/home/HomeScreen.kt:69-163 | without an amount nothing changes; with one the expense is added as `addExpense` does |
| AddScreen.AcceptsAmountPrefix | app/src/main/java/com/example/pennykeeper/ui/home/AddScreen.kt:120-124 | deleting from the end of an accepted amount keeps it accepted |
| AddScreen.DotAcceptedButUnparsable | app/src/main/java/com/example/pennykeeper/ui/home/AddScreen.kt:249-254 | "." passes the filter and the non-blank guard, yet `toDouble()` throws on it |
| AddScreen.ParseDate | app/src/main/java/com/example/pennykeeper/ui/home/AddScreen.kt:251-257 | a parsed date is a valid calendar date |
| AddScreen.DateRoundTrip | app/src/main/java/com/example/pennykeeper/ui/home/AddScreen.kt:251-257 | the text the picker writes parses back to the picked date |
| AddScreen.FormatDateLayout | app/src/main/java/com/example/pennykeeper/ui/home/AddScreen.kt:62 | ten characters: four-digit year, dash, two-digit 1-based month, dash, two-digit day |
| AddScreen.AddScreen.constructor | app/src/main/java/com/example/pennykeeper/ui/home/AddScreen.kt:37-44 | all fields blank, not recurring, no period |
| AddScreen.AddScreen.OnAmountChange | app/src/main/java/com/example/pennykeeper/ui/home/AddScreen.kt:120-124 | an accepted text replaces the amount, a rejected one leaves it; nothing else changes |
| AddScreen.AddScreen.OnPlaceChange | app/src/main/java/com/example/pennykeeper/ui/home/AddScreen.kt:104 | only the place changes |
| AddScreen.AddScreen.OnCategorySelected | app/src/main/java/com/example/pennykeeper/ui/home/AddScreen.kt:180-183 | only the category changes |
| AddScreen.AddScreen.OnDatePicked | app/src/main/java/com/example/pennykeeper/ui/home/AddScreen.kt:61-63 | the date text is the formatted picked date and parses back to it; nothing else changes |
| AddScreen.AddScreen.OnRecurringChange | app/src/main/java/com/example/pennykeeper/ui/home/AddScreen.kt:198-201 | switching off clears the period, switching on keeps it |
| AddScreen.AddScreen.OnPeriodSelected | app/src/main/java/com/example/pennykeeper/ui/home/AddScreen.kt:234-237 | only the period changes |
| AddScreen.AddScreen.Draft | app/src/main/java/com/example/pennykeeper/ui/home/AddScreen.kt:253-261 | the form's fields with id 0 and no due date, the date at the start of the picked day |
| AddScreen.AddScreen.OnSaveClick | app/src/main/java/com/example/pennykeeper/ui/home/AddScreen.kt:247-265 | a failing guard does nothing; an unparsable amount throws and stores nothing; otherwise `addExpense` of the draft with its due date |
| EditExpenseViewModel.NextDueDate | app/src/main/java/com/example/pennykeeper/ui/expense/EditExpenseViewModel.kt:132-142 | MONTHLY moves the month key by one, YEARLY the year by one in the same month; time of day kept |
| EditExpenseViewModel.NextDueDateAgrees | app/src/main/java/com/example/pennykeeper/ui/expense/EditExpenseViewModel.kt:132-142 | the editor's copy agrees with the home view model's `calculateNextDueDate` |
| EditExpenseViewModel.NewExpense | app/src/main/java/com/example/pennykeeper/ui/expense/EditExpenseViewModel.kt:105-121 | every form field, the loaded expense's id or 0, and a next due date exactly when recurring |
| EditExpenseViewModel.ValidFormSaves | app/src/main/java/com/example/pennykeeper/ui/expense/EditExpenseViewModel.kt:100-121 | a valid form whose amount parses passes both early returns and the `!!` |
| EditExpenseViewModel.ValidFormMayNotParse | app/src/main/java/com/example/pennykeeper/ui/expense/EditExpenseViewModel.kt:153-158 | the amount "." is valid yet `saveExpense` returns early |
| EditExpenseViewModel.LoadedFormProceeds | app/src/main/java/com/example/pennykeeper/ui/expense/EditExpenseViewModel.kt:100-103 | a form whose amount text is what `Double.toString` writes, with a category name, passes both early returns of `saveExpense` |
| EditExpenseViewModel.TenMillionSaves | app/src/main/java/com/example/pennykeeper/ui/expense/EditExpenseViewModel.kt:100-112 | a loaded "1.0E7" saves the amount 10000000 |
| EditExpenseViewModel.EditExpenseViewModel.constructor | app/src/main/java/com/example/pennykeeper/ui/expense/EditExpenseViewModel.kt:29-48 | the empty form at now; the default categories ensured and collected |
| EditExpenseViewModel.EditExpenseViewModel.LoadExpense | app/src/main/java/com/example/pennykeeper/ui/expense/EditExpenseViewModel.kt:51-71 | a stored id loads every field, an unknown id only clears `expense`, -1 takes the default category's name or "" |
| EditExpenseViewModel.EditExpenseViewModel.LoadStored | app/src/main/java/com/example/pennykeeper/ui/expense/EditExpenseViewModel.kt:53-63 | the stored expense or null, and every field of a found one |
| EditExpenseViewModel.EditExpenseViewModel.LoadDefaultCategory | app/src/main/java/com/example/pennykeeper/ui/expense/EditExpenseViewModel.kt:66-69 | only the category name changes, to the default's or "" |
| EditExpenseViewModel.EditExpenseViewModel.UpdateAmount | app/src/main/java/com/example/pennykeeper/ui/expense/EditExpenseViewModel.kt:73-75 | only the amount changes |
| EditExpenseViewModel.EditExpenseViewModel.UpdatePlace | app/src/main/java/com/example/pennykeeper/ui/expense/EditExpenseViewModel.kt:77-79 | only the place changes |
| EditExpenseViewModel.EditExpenseViewModel.UpdateCategory | app/src/main/java/com/example/pennykeeper/ui/expense/EditExpenseViewModel.kt:81-83 | only the category name changes |
| EditExpenseViewModel.EditExpenseViewModel.UpdateDate | app/src/main/java/com/example/pennykeeper/ui/expense/EditExpenseViewModel.kt:85-87 | only the date changes |
| EditExpenseViewModel.EditExpenseViewModel.UpdateRecurring | app/src/main/java/com/example/pennykeeper/ui/expense/EditExpenseViewModel.kt:89-94 | off clears the period, on keeps it |
| EditExpenseViewModel.EditExpenseViewModel.UpdateRecurringPeriod | app/src/main/java/com/example/pennykeeper/ui/expense/EditExpenseViewModel.kt:96-98 | only the period changes |
| EditExpenseViewModel.EditExpenseViewModel.SaveExpense | app/src/main/java/com/example/pennykeeper/ui/expense/EditExpenseViewModel.kt:100-130 | the form is kept; early returns store nothing; a missing period throws; otherwise an add of a new or an update of a loaded expense |
| EditExpenseViewModel.EditExpenseViewModel.Store | app/src/main/java/com/example/pennykeeper/ui/expense/EditExpenseViewModel.kt:123-128 | an insert for a new expense, an update for a loaded one, the exception otherwise |
| EditExpenseViewModel.EditExpenseViewModel.DeleteExpense | app/src/main/java/com/example/pennykeeper/ui/expense/EditExpenseViewModel.kt:144-151 | nothing without a loaded expense, else the repository's delete of it |
| SettingsViewModel.MonthPairs | app/src/main/java/com/example/pennykeeper/ui/settings/SettingsViewModel.kt:84-88 | each expense's month key `YEAR * 12 + MONTH` with its amount, in order |
| SettingsViewModel.Reindexed | app/src/main/java/com/example/pennykeeper/ui/settings/SettingsViewModel.kt:92 | the same amounts numbered 0..k-1 |
| SettingsViewModel.Trend | app/src/main/java/com/example/pennykeeper/ui/settings/SettingsViewModel.kt:94-100 | the amounts of the last six entries of the series (all when fewer), oldest first |
| SettingsViewModel.MonthTotalsSorted | app/src/main/java/com/example/pennykeeper/ui/settings/SettingsViewModel.kt:91 | the month totals come in strictly ascending month order |
| SettingsViewModel.MonthTotalEntry | app/src/main/java/com/example/pennykeeper/ui/settings/SettingsViewModel.kt:84-89 | each entry is a month some expense falls in, holding the sum of that month's amounts |
| SettingsViewModel.MonthTotalsComplete | app/src/main/java/com/example/pennykeeper/ui/settings/SettingsViewModel.kt:84-89 | every month that has an expense has an entry |
| SettingsViewModel.MonthlySeriesSpec | app/src/main/java/com/example/pennykeeper/ui/settings/SettingsViewModel.kt:83-92 | one entry per month with an expense, ascending, numbered from 0, each with its month's total |
| SettingsViewModel.SumForNonNegative | app/src/main/java/com/example/pennykeeper/ui/settings/SettingsViewModel.kt:89 | a month's total of non-negative amounts is non-negative |
| SettingsViewModel.ForecastOfSeries | app/src/main/java/com/example/pennykeeper/ui/settings/SettingsViewModel.kt:102-103 | fewer than two months give a zero forecast; non-negative amounts a non-negative one |
| SettingsViewModel.BasicAnalysis | app/src/main/java/com/example/pennykeeper/ui/settings/SettingsViewModel.kt:187-196 | the total is the sum of the amounts, the number of transactions the number of expenses, a highest category exactly when there are expenses |
| SettingsViewModel.HighestCategory | app/src/main/java/com/example/pennykeeper/ui/settings/SettingsViewModel.kt:189-200 | the highest category is one the expenses name and holds its sum; no category's sum is larger; every category whose sum ties with it has it appearing at or before its own first expense (the first in order of first appearance wins the tie); its percentage is `toInt` of its share |
| SettingsViewModel.HighestText | app/src/main/java/com/example/pennykeeper/ui/settings/SettingsViewModel.kt:198-204 | the highest-category lines end with the suggestion for that category |
| SettingsViewModel.AnalysisText | app/src/main/java/com/example/pennykeeper/ui/settings/SettingsViewModel.kt:193-205 | starts with the header; ends with the suggestion when there is a highest category |
| SettingsViewModel.ExpenseContext | app/src/main/java/com/example/pennykeeper/ui/settings/SettingsViewModel.kt:174-185 | empty exactly without expenses; otherwise the header first and the total line last |
| SettingsViewModel.ContextLinesSnoc | app/src/main/java/com/example/pennykeeper/ui/settings/SettingsViewModel.kt:180-182 | one more expense adds its own line at the end |
| SettingsViewModel.SentShape | app/src/main/java/com/example/pennykeeper/ui/settings/SettingsViewModel.kt:137-172 | a blank message changes nothing; any other is appended, followed by exactly one answer not from the user |
| SettingsViewModel.SentAnswer | app/src/main/java/com/example/pennykeeper/ui/settings/SettingsViewModel.kt:144-167 | the answer is the error notice when the read throws, the notice for no expenses, the reply, or the basic analysis when the call throws |
| SettingsViewModel.SentUsesService | app/src/main/java/com/example/pennykeeper/ui/settings/SettingsViewModel.kt:154-162 | with expenses and a returning service, the chat's answer is the service's `Answer` to the message: the generic summary without a reply, the trimmed reply for a chat question |
| SettingsViewModel.AnalyzedShape | app/src/main/java/com/example/pennykeeper/ui/settings/SettingsViewModel.kt:106-135 | the history always grows: the request and the reply or basic analysis, or only the error notice when the read throws |
| SettingsViewModel.SettingsViewModel.ReadExpenses | app/src/main/java/com/example/pennykeeper/ui/settings/SettingsViewModel.kt:145 | the read fails exactly when it throws, and otherwise is the join of the two tables |
| SettingsViewModel.SettingsViewModel.constructor | app/src/main/java/com/example/pennykeeper/ui/settings/SettingsViewModel.kt:36-53 | empty chat, not analysing, not saved; trend and forecast of the current series |
| SettingsViewModel.SettingsViewModel.CalculatePrediction | app/src/main/java/com/example/pennykeeper/ui/settings/SettingsViewModel.kt:80-104 | the trend is the series' last six months and the forecast is made from the whole series; nothing else changes |
| SettingsViewModel.SettingsViewModel.ToggleTheme | app/src/main/java/com/example/pennykeeper/ui/settings/SettingsViewModel.kt:56-58 | the dark-mode flag flips |
| SettingsViewModel.SettingsViewModel.SaveBudget | app/src/main/java/com/example/pennykeeper/ui/settings/SettingsViewModel.kt:71-78 | a new budget row is stored and becomes the daily budget; the saved flag is down again at the end |
| SettingsViewModel.SettingsViewModel.SendMessage | app/src/main/java/com/example/pennykeeper/ui/settings/SettingsViewModel.kt:137-172 | the chat becomes `Sent` of the old history with the service's reply to the message over the expense context; `isAnalyzing` is down afterwards |
| SettingsViewModel.SettingsViewModel.Ask | app/src/main/java/com/example/pennykeeper/ui/settings/SettingsViewModel.kt:154-160 | the reply is `None` when `getResponse` throws, otherwise the service's `Answer` over `buildExpenseContext` of the expenses |
| SettingsViewModel.SettingsViewModel.PostExchange | app/src/main/java/com/example/pennykeeper/ui/settings/SettingsViewModel.kt:142-162 | the user's message and then the answer are appended |
| SettingsViewModel.SettingsViewModel.PostAnswer | app/src/main/java/com/example/pennykeeper/ui/settings/SettingsViewModel.kt:144-167 | exactly the answer is appended |
| SettingsViewModel.SettingsViewModel.AnalyzeAllData | app/src/main/java/com/example/pennykeeper/ui/settings/SettingsViewModel.kt:106-135 | the chat becomes `Analyzed` of the old history with the service's reply to the fixed question over the expense context; `isAnalyzing` is down afterwards |
| SettingsViewModel.SettingsViewModel.PostAnalysis | app/src/main/java/com/example/pennykeeper/ui/settings/SettingsViewModel.kt:110-130 | the chat becomes `Analyzed` of the history, given the read's outcome |
| StatisticsViewModel.Pairs | app/src/main/java/com/example/pennykeeper/ui/stats/StatisticsViewModel.kt:146-148 | each expense's category name with its amount, in order |
| StatisticsViewModel.GroupsCoverExpenses | app/src/main/java/com/example/pennykeeper/ui/stats/StatisticsViewModel.kt:146-148 | no category groups exactly when there are no expenses |
| StatisticsViewModel.AssignOne | app/src/main/java/com/example/pennykeeper/ui/stats/StatisticsViewModel.kt:152-155 | one step of the colour loop adds exactly that category's key |
| StatisticsViewModel.AssignedGrows | app/src/main/java/com/example/pennykeeper/ui/stats/StatisticsViewModel.kt:151-156 | the loop gives every category a colour and never changes one given before |
| StatisticsViewModel.AssignedFromPalette | app/src/main/java/com/example/pennykeeper/ui/stats/StatisticsViewModel.kt:153 | every colour handed out comes from the palette |
| StatisticsViewModel.AssignedAgain | app/src/main/java/com/example/pennykeeper/ui/stats/StatisticsViewModel.kt:151-156 | running the loop again over coloured categories changes nothing |
| StatisticsViewModel.PaletteNotGray | app/src/main/java/com/example/pennykeeper/ui/stats/StatisticsViewModel.kt:46-53 | the Gray fallback is not in the palette |
| StatisticsViewModel.AssignedStep | app/src/main/java/com/example/pennykeeper/ui/stats/StatisticsViewModel.kt:151-156 | the loop after one more category is one more step |
| StatisticsViewModel.AssignedInOrder | app/src/main/java/com/example/pennykeeper/ui/stats/StatisticsViewModel.kt:151-156 | from an empty map, distinct categories get the palette in order of first appearance, cycling after six |
| StatisticsViewModel.Entries | app/src/main/java/com/example/pennykeeper/ui/stats/StatisticsViewModel.kt:158-167 | one entry per category with a positive sum, in grouped order |
| StatisticsViewModel.FilterKeepsDistinct | app/src/main/java/com/example/pennykeeper/ui/stats/StatisticsViewModel.kt:159 | filtering keeps the category keys distinct |
| StatisticsViewModel.EntriesDistinct | app/src/main/java/com/example/pennykeeper/ui/stats/StatisticsViewModel.kt:158-167 | distinct grouped categories give entries with distinct names |
| StatisticsViewModel.SumForAbsent | app/src/main/java/com/example/pennykeeper/ui/stats/StatisticsViewModel.kt:148 | a category no expense names sums to zero |
| StatisticsViewModel.EntryOfGroup | app/src/main/java/com/example/pennykeeper/ui/stats/StatisticsViewModel.kt:158-168 | every listed entry is the entry of a group with a positive sum |
| StatisticsViewModel.GroupHasEntry | app/src/main/java/com/example/pennykeeper/ui/stats/StatisticsViewModel.kt:158-168 | every group with a positive sum is listed |
| StatisticsViewModel.StatisticsSortedAndDistinct | app/src/main/java/com/example/pennykeeper/ui/stats/StatisticsViewModel.kt:146-168 | the entries are sorted by amount, largest first, at most one per category |
| StatisticsViewModel.EntryIsCategorySum | app/src/main/java/com/example/pennykeeper/ui/stats/StatisticsViewModel.kt:146-168 | a listed entry carries its category's positive sum and its share of a positive total, 0 otherwise |
| StatisticsViewModel.StatisticsAmounts | app/src/main/java/com/example/pennykeeper/ui/stats/StatisticsViewModel.kt:146-168 | the same for every position of the list |
| StatisticsViewModel.StatisticsComplete | app/src/main/java/com/example/pennykeeper/ui/stats/StatisticsViewModel.kt:146-168 | every category whose expenses sum to a positive amount is listed |
| StatisticsViewModel.StatisticsColored | app/src/main/java/com/example/pennykeeper/ui/stats/StatisticsViewModel.kt:164 | with every category coloured from the palette, no entry gets Gray |
| StatisticsViewModel.EmptyStatistics | app/src/androidTest/java/com/example/pennykeeper/StatisticsScreenTest.kt:122-134 | no expenses give total 0 and no entries |
| StatisticsViewModel.StatisticsViewModel.constructor | app/src/main/java/com/example/pennykeeper/ui/stats/StatisticsViewModel.kt:28-55 | no colours, no entries, total 0 |
| StatisticsViewModel.StatisticsViewModel.AssignColors | app/src/main/java/com/example/pennykeeper/ui/stats/StatisticsViewModel.kt:151-156 | the colour map becomes the loop's result; entries and total stay |
| StatisticsViewModel.StatisticsViewModel.UpdateStatistics | app/src/main/java/com/example/pennykeeper/ui/stats/StatisticsViewModel.kt:141-169 | the total is the sum, colours are assigned over the grouped categories, and the entries are the sorted list of positive groups |
| StatisticsViewModel.ThreeExpensesTotal | app/src/androidTest/java/com/example/pennykeeper/StatisticsScreenTest.kt:71-101 | the three test expenses sum to 1000 |
| StatisticsViewModel.ThreeExpensesGrouped | app/src/androidTest/java/com/example/pennykeeper/StatisticsScreenTest.kt:71-79 | they group into three categories in order |
| StatisticsViewModel.ThreeCategoriesColored | app/src/androidTest/java/com/example/pennykeeper/StatisticsScreenTest.kt:116-119 | the three categories get the first three palette colours |
| StatisticsViewModel.AssignedThree | app/src/main/java/com/example/pennykeeper/ui/stats/StatisticsViewModel.kt:151-156 | three distinct new categories get the first three colours |
| StatisticsViewModel.AssignNew | app/src/main/java/com/example/pennykeeper/ui/stats/StatisticsViewModel.kt:152-154 | a new category gets the palette colour at the map's size |
| StatisticsViewModel.ThreeEntriesSorted | app/src/main/java/com/example/pennykeeper/ui/stats/StatisticsViewModel.kt:158-168 | the three entries come largest first with shares 0.5, 0.3, 0.2 |
| StatisticsViewModel.ThreeCategoryScenario | app/src/androidTest/java/com/example/pennykeeper/StatisticsScreenTest.kt:81-120 | the test's expectations: total 1000, shares 0.5, 0.3, 0.2, palette colours in order of first appearance |
| StatisticsViewModel.UpdateColorsEveryEntry | app/src/main/java/com/example/pennykeeper/ui/stats/StatisticsViewModel.kt:151-167 | after an update every listed entry has a palette colour and earlier colours stand |
| OpenRouterInferenceSvc.GreetingText | app/src/main/java/com/example/pennykeeper/utils/ai/OpenRouterAPISvc.kt:326 | the normalised question holds none of `!.,?` |
| OpenRouterInferenceSvc.IsGreetingIgnoresCase | app/src/main/java/com/example/pennykeeper/utils/ai/OpenRouterAPISvc.kt:326-331 | letter case never changes whether a question is a greeting |
| OpenRouterInferenceSvc.RemoveNothing | app/src/main/java/com/example/pennykeeper/utils/ai/OpenRouterAPISvc.kt:326 | deleting characters a text does not hold leaves it unchanged |
| OpenRouterInferenceSvc.RemoveCharsSnoc | app/src/main/java/com/example/pennykeeper/utils/ai/OpenRouterAPISvc.kt:326 | deletion keeps or drops a last character on its own |
| OpenRouterInferenceSvc.PlainText | app/src/main/java/com/example/pennykeeper/utils/ai/OpenRouterAPISvc.kt:326 | a lower-case text without surrounding white space is its own trimmed lower-case form |
| OpenRouterInferenceSvc.PlainGreeting | app/src/main/java/com/example/pennykeeper/utils/ai/OpenRouterAPISvc.kt:326-331 | such a question matching one greeting as it stands is a greeting |
| OpenRouterInferenceSvc.TrimStartSnoc | app/src/main/java/com/example/pennykeeper/utils/ai/OpenRouterAPISvc.kt:326 | trimming the front keeps a visible last character |
| OpenRouterInferenceSvc.TrailingPunctuation | app/src/main/java/com/example/pennykeeper/utils/ai/OpenRouterAPISvc.kt:326-331 | one trailing `!.,?` after a visible character changes neither the normalised text nor the verdict |
| OpenRouterInferenceSvc.GreetingsRecognised | app/src/main/java/com/example/pennykeeper/utils/ai/OpenRouterAPISvc.kt:321-331 | every listed greeting is a greeting on its own, as the first word and as the last word of a plain question |
| OpenRouterInferenceSvc.NoGreetingInEmpty | app/src/main/java/com/example/pennykeeper/utils/ai/OpenRouterAPISvc.kt:327-331 | the empty question is no greeting |
| OpenRouterInferenceSvc.Min3 | app/src/main/java/com/example/pennykeeper/utils/ai/OpenRouterAPISvc.kt:308-312 | the least of three values, and one of them |
| OpenRouterInferenceSvc.Inner | app/src/main/java/com/example/pennykeeper/utils/ai/OpenRouterAPISvc.kt:307-315 | the inner loop keeps the array's length |
| OpenRouterInferenceSvc.Row | app/src/main/java/com/example/pennykeeper/utils/ai/OpenRouterAPISvc.kt:303-317 | one row keeps the array's length |
| OpenRouterInferenceSvc.Identity | app/src/main/java/com/example/pennykeeper/utils/ai/OpenRouterAPISvc.kt:300 | `IntArray(n) { it }` holds 0..n-1 |
| OpenRouterInferenceSvc.Costs | app/src/main/java/com/example/pennykeeper/utils/ai/OpenRouterAPISvc.kt:300-317 | the array keeps `|s2| + 1` cells through all rows |
| OpenRouterInferenceSvc.LevenshteinDistance | app/src/main/java/com/example/pennykeeper/utils/ai/OpenRouterAPISvc.kt:299-319 | the array loop returns `Distance` of the two strings |
| OpenRouterInferenceSvc.UpdateRow | app/src/main/java/com/example/pennykeeper/utils/ai/OpenRouterAPISvc.kt:304-316 | one outer pass turns the array into the next row |
| OpenRouterInferenceSvc.InnerStep | app/src/main/java/com/example/pennykeeper/utils/ai/OpenRouterAPISvc.kt:308-314 | one inner step stores `lastValue` at j and takes the least of the three costs |
| OpenRouterInferenceSvc.DistanceFromEmpty | app/src/main/java/com/example/pennykeeper/utils/ai/OpenRouterAPISvc.kt:299-319 | from an empty first string the distance is the other's length |
| OpenRouterInferenceSvc.CostsToEmpty | app/src/main/java/com/example/pennykeeper/utils/ai/OpenRouterAPISvc.kt:303-317 | against an empty second string each row leaves only its own index |
| OpenRouterInferenceSvc.DistanceToEmpty | app/src/main/java/com/example/pennykeeper/utils/ai/OpenRouterAPISvc.kt:299-319 | to an empty second string the distance is one less than the first's length |
| OpenRouterInferenceSvc.InnerNonNegative | app/src/main/java/com/example/pennykeeper/utils/ai/OpenRouterAPISvc.kt:307-315 | the inner loop keeps every cost non-negative |
| OpenRouterInferenceSvc.CostsNonNegative | app/src/main/java/com/example/pennykeeper/utils/ai/OpenRouterAPISvc.kt:300-317 | every row's costs are non-negative |
| OpenRouterInferenceSvc.DistanceNonNegative | app/src/main/java/com/example/pennykeeper/utils/ai/OpenRouterAPISvc.kt:299-319 | the distance is never negative |
| OpenRouterInferenceSvc.DistanceAtLeast | app/src/main/java/com/example/pennykeeper/utils/ai/OpenRouterAPISvc.kt:299-319 | a non-empty first string is at distance at least its length less one from any string |
| OpenRouterInferenceSvc.DistanceToItself | app/src/main/java/com/example/pennykeeper/utils/ai/OpenRouterAPISvc.kt:299-319 | a string is at distance its length less one from itself when non-empty, and "" at 0 |
| OpenRouterInferenceSvc.KeywordNeedsShortQuestion | app/src/main/java/com/example/pennykeeper/utils/ai/OpenRouterAPISvc.kt:282-286 | the keyword test can only hold for a question of at most three characters |
| OpenRouterInferenceSvc.DistanceOfAbcToEmpty | app/src/main/java/com/example/pennykeeper/utils/ai/OpenRouterAPISvc.kt:299-319 | "abc" is at distance 2 from "" |
| OpenRouterInferenceSvc.KeywordTestIsOneLoop | app/src/main/java/com/example/pennykeeper/utils/ai/OpenRouterAPISvc.kt:282-286 | the nested keyword test holds exactly when the whole question is within 2 of some keyword |
| OpenRouterInferenceSvc.GreetingWordInsideWord | app/src/main/java/com/example/pennykeeper/utils/ai/OpenRouterAPISvc.kt:276-280 | "what is this" gets no analysis: "this" holds "hi" |
| OpenRouterInferenceSvc.PlainWhatIsThis | app/src/main/java/com/example/pennykeeper/utils/ai/OpenRouterAPISvc.kt:276 | "what is this" is its own trimmed lower-case form |
| OpenRouterInferenceSvc.GreetingInThis | app/src/main/java/com/example/pennykeeper/utils/ai/OpenRouterAPISvc.kt:278 | "what is this" contains a greeting word |
| OpenRouterInferenceSvc.HiInThis | app/src/main/java/com/example/pennykeeper/utils/ai/OpenRouterAPISvc.kt:278 | "what is this" contains "hi" |
| OpenRouterInferenceSvc.NoFinancialDataNoAnalysis | app/src/main/java/com/example/pennykeeper/utils/ai/OpenRouterAPISvc.kt:288-292 | without "$", "dollar" or "spent" in the context there is no analysis |
| OpenRouterInferenceSvc.RequestParameters | app/src/main/java/com/example/pennykeeper/utils/ai/OpenRouterAPISvc.kt:86-95 | a greeting gets (0.7, 150) even when it also reads as analysis, an analysis question (0.3, 1000), anything else (0.5, 250) |
| OpenRouterInferenceSvc.LowerNames | app/src/main/java/com/example/pennykeeper/utils/ai/OpenRouterAPISvc.kt:189 | each category name lowercased, in order |
| OpenRouterInferenceSvc.FindCategory | app/src/main/java/com/example/pennykeeper/utils/ai/OpenRouterAPISvc.kt:202-204 | the first listed category the line contains, none exactly when it contains none |
| OpenRouterInferenceSvc.SpaceRunEnd | app/src/main/java/com/example/pennykeeper/utils/ai/OpenRouterAPISvc.kt:207 | the end of the white-space run: all white space before it and none at it |
| OpenRouterInferenceSvc.FirstDollar | app/src/main/java/com/example/pennykeeper/utils/ai/OpenRouterAPISvc.kt:207-209 | the first position where `\$\s*[0-9]` matches, none exactly when it matches nowhere |
| OpenRouterInferenceSvc.DollarDigits | app/src/main/java/com/example/pennykeeper/utils/ai/OpenRouterAPISvc.kt:207-211 | the captured amount passes the amount filter and holds a digit |
| OpenRouterInferenceSvc.AmountToken | app/src/main/java/com/example/pennykeeper/utils/ai/OpenRouterAPISvc.kt:207 | digits with an optional '.' and two digits form an accepted amount |
| OpenRouterInferenceSvc.DollarAmount | app/src/main/java/com/example/pennykeeper/utils/ai/OpenRouterAPISvc.kt:207-212 | an amount exactly when the pattern matches somewhere, and it is non-negative |
| OpenRouterInferenceSvc.ParseFinancialData | app/src/main/java/com/example/pennykeeper/utils/ai/OpenRouterAPISvc.kt:183-233 | the loop returns `Parsed` of the context |
| OpenRouterInferenceSvc.ParseStep | app/src/main/java/com/example/pennykeeper/utils/ai/OpenRouterAPISvc.kt:199-224 | one more line credits its amount, if any, to its category or the fallback |
| OpenRouterInferenceSvc.ParsedSums | app/src/main/java/com/example/pennykeeper/utils/ai/OpenRouterAPISvc.kt:183-233 | each category appears once, with the sum of its credits |
| OpenRouterInferenceSvc.CreditFromLine | app/src/main/java/com/example/pennykeeper/utils/ai/OpenRouterAPISvc.kt:193-224 | each credit comes from a data line with a `$` amount and goes to the first category it names or the fallback |
| OpenRouterInferenceSvc.ParsedKeys | app/src/main/java/com/example/pennykeeper/utils/ai/OpenRouterAPISvc.kt:202-218 | every key is a lowercased category name or the fallback |
| OpenRouterInferenceSvc.SummaryLinesSkipped | app/src/main/java/com/example/pennykeeper/utils/ai/OpenRouterAPISvc.kt:193-197 | summary lines never contribute |
| OpenRouterInferenceSvc.DollarExample | app/src/main/java/com/example/pennykeeper/utils/ai/OpenRouterAPISvc.kt:207-212 | "- $12.50 spent" reads 12.5 |
| OpenRouterInferenceSvc.DollarExamplePosition | app/src/main/java/com/example/pennykeeper/utils/ai/OpenRouterAPISvc.kt:207-209 | in that line the match starts at the '$' |
| OpenRouterInferenceSvc.DollarExampleDigits | app/src/main/java/com/example/pennykeeper/utils/ai/OpenRouterAPISvc.kt:207-211 | the captured amount there is "12.50" |
| OpenRouterInferenceSvc.Capitalize | app/src/main/java/com/example/pennykeeper/utils/ai/OpenRouterAPISvc.kt:261-263 | length and tail kept; the first character upper-cased only when it is lower-case |
| OpenRouterInferenceSvc.CapitalizeIdempotent | app/src/main/java/com/example/pennykeeper/utils/ai/OpenRouterAPISvc.kt:261-263 | capitalising twice is capitalising once |
| OpenRouterInferenceSvc.TopEntries | app/src/main/java/com/example/pennykeeper/utils/ai/OpenRouterAPISvc.kt:172-174 | the first three (or fewer) of the stable descending sort of the map |
| OpenRouterInferenceSvc.TopCategories | app/src/main/java/com/example/pennykeeper/utils/ai/OpenRouterAPISvc.kt:172-178 | each top entry with its percentage of the total |
| OpenRouterInferenceSvc.TopEntriesSorted | app/src/main/java/com/example/pennykeeper/utils/ai/OpenRouterAPISvc.kt:173 | the top entries are largest first |
| OpenRouterInferenceSvc.TopEntriesFromMap | app/src/main/java/com/example/pennykeeper/utils/ai/OpenRouterAPISvc.kt:172-174 | every top entry is in the map |
| OpenRouterInferenceSvc.TopEntriesLargest | app/src/main/java/com/example/pennykeeper/utils/ai/OpenRouterAPISvc.kt:172-174 | no entry left out is larger than one shown |
| OpenRouterInferenceSvc.TopCategoriesLargest | app/src/main/java/com/example/pennykeeper/utils/ai/OpenRouterAPISvc.kt:171-178 | largest first, drawn from the map, none left out larger than one shown |
| OpenRouterInferenceSvc.TopPercentagesBounded | app/src/main/java/com/example/pennykeeper/utils/ai/OpenRouterAPISvc.kt:176 | with non-negative amounts every percentage lies in 0..100 |
| OpenRouterInferenceSvc.SumAtLeastEntry | app/src/main/java/com/example/pennykeeper/utils/ai/OpenRouterAPISvc.kt:150 | with non-negative amounts each amount is at most the total |
| OpenRouterInferenceSvc.Repeat | app/src/main/java/com/example/pennykeeper/utils/ai/OpenRouterAPISvc.kt:154 | `repeat(n)` has n times the length |
| OpenRouterInferenceSvc.FormatAnalysisResponse | app/src/main/java/com/example/pennykeeper/utils/ai/OpenRouterAPISvc.kt:149-181 | starts with the header and the reply |
| OpenRouterInferenceSvc.Breakdown | app/src/main/java/com/example/pennykeeper/utils/ai/OpenRouterAPISvc.kt:252-256 | one line per category, in map order, with its share of the total |
| OpenRouterInferenceSvc.GenericResponse | app/src/main/java/com/example/pennykeeper/utils/ai/OpenRouterAPISvc.kt:235-259 | starts with the generic header |
| OpenRouterInferenceSvc.AnswerCases | app/src/main/java/com/example/pennykeeper/utils/ai/OpenRouterAPISvc.kt:112-145 | no usable reply gives the generic summary; otherwise the trimmed reply, framed with the figures for an analysis question |
| OpenRouterInferenceSvc.TrimBlank | app/src/main/java/com/example/pennykeeper/utils/ai/OpenRouterAPISvc.kt:133 | a trimmed text is blank exactly when the text was |
| OpenRouterInferenceSvc.GetResponse | app/src/main/java/com/example/pennykeeper/utils/ai/OpenRouterAPISvc.kt:24-31 | the method returns `Answer` of the question, context and reply |
| Text.LowerChar | app/src/main/java/com/example/pennykeeper/utils/ai/OpenRouterAPISvc.kt:326 | an ASCII capital becomes its small letter, every other character stays |
| Text.UpperChar | app/src/main/java/com/example/pennykeeper/utils/ai/OpenRouterAPISvc.kt:262 | an ASCII small letter becomes its capital, every other character stays |
| Text.Lower | app/src/main/java/com/example/pennykeeper/utils/ai/OpenRouterAPISvc.kt:326 | same length, each character lowered on its own |
| Text.LowerIdempotent | app/src/main/java/com/example/pennykeeper/utils/ai/OpenRouterAPISvc.kt:276 | lowering twice is lowering once |
| Text.TrimStart | app/src/main/java/com/example/pennykeeper/utils/ai/OpenRouterAPISvc.kt:326 | a suffix of the text that starts with a visible character, having dropped only white space |
| Text.TrimEnd | app/src/main/java/com/example/pennykeeper/utils/ai/OpenRouterAPISvc.kt:326 | a prefix of the text that ends with a visible character, having dropped only white space |
| Text.RemoveChars | app/src/main/java/com/example/pennykeeper/utils/ai/OpenRouterAPISvc.kt:326 | no removed character is left, and the text never grows |
| Text.DigitRunEnd | app/src/main/java/com/example/pennykeeper/ui/home/HomeScreen.kt:77 | the end of the run of digits: digits before it and none at it |
| Text.NatToString | app/src/main/java/com/example/pennykeeper/ui/home/AddScreen.kt:62 | decimal digits without a leading zero |
| Text.NatToStringValue | app/src/main/java/com/example/pennykeeper/ui/home/AddScreen.kt:62 | the digits read back as the number |
| Text.IntToStringRoundTrip | app/src/main/java/com/example/pennykeeper/ui/navigation/NavigationDestination.kt:12 | the text of an `Int` reads back as that number |
| Text.IntToStringInjective | app/src/main/java/com/example/pennykeeper/ui/navigation/NavigationDestination.kt:12 | distinct numbers print differently |
| Text.LeftZeros | app/src/main/java/com/example/pennykeeper/ui/home/AddScreen.kt:62 | padded on the left to the width with zeros |
| Text.ZeroPadValue | app/src/main/java/com/example/pennykeeper/ui/home/AddScreen.kt:62 | `%0wd` of a non-negative number has at least the width and reads back as it |
| Text.NatToStringWidth | app/src/main/java/com/example/pennykeeper/ui/home/AddScreen.kt:62 | a number below 10^k has at most k digits |
| Text.ZeroPadWidth | app/src/main/java/com/example/pennykeeper/ui/home/AddScreen.kt:62 | a number that fits is padded to exactly the width |
| Text.Lines | app/src/main/java/com/example/pennykeeper/utils/ai/OpenRouterAPISvc.kt:193-194 | at least one line, none holding a line break |
| Text.LineBreakAt | app/src/main/java/com/example/pennykeeper/utils/ai/OpenRouterAPISvc.kt:194 | the first line break at or after a position |
| Seqs.SumAppend | app/src/main/java/com/example/pennykeeper/ui/stats/StatisticsViewModel.kt:142 | `sumOf` distributes over concatenation |
| Seqs.SumNonNegative | app/src/main/java/com/example/pennykeeper/ui/stats/StatisticsViewModel.kt:142 | non-negative terms give a non-negative sum |
| Seqs.Filter | app/src/main/java/com/example/pennykeeper/ui/stats/StatisticsViewModel.kt:159 | the kept elements all satisfy the test, come from the input, and every satisfying element is kept |
| Seqs.FilterAppend | app/src/main/java/com/example/pennykeeper/ui/stats/StatisticsViewModel.kt:159 | `filter` distributes over concatenation, so order is kept |
| Seqs.FilterSnoc | app/src/main/java/com/example/pennykeeper/ui/stats/StatisticsViewModel.kt:159 | one more element is kept exactly when it passes |
| Seqs.MapNotNull | app/src/main/java/com/example/pennykeeper/utils/ai/OpenRouterAPISvc.kt:199-224 | the present results, none lost |
| Seqs.MapNotNullFrom | app/src/main/java/com/example/pennykeeper/utils/ai/OpenRouterAPISvc.kt:199-224 | every result comes from an input element |
| Seqs.MapNotNullAppend | app/src/main/java/com/example/pennykeeper/utils/ai/OpenRouterAPISvc.kt:199-224 | results keep input order |
| Seqs.TakeLast | app/src/main/java/com/example/pennykeeper/ui/settings/SettingsViewModel.kt:94 | the last `min(n, size)` elements, in order |
| Seqs.Insert | app/src/main/java/com/example/pennykeeper/ui/stats/StatisticsViewModel.kt:168 | one step of the stable sort: one more element, the same multiset |
| Seqs.InsertSorted | app/src/main/java/com/example/pennykeeper/ui/stats/StatisticsViewModel.kt:168 | inserting into a descending sequence keeps it descending |
| Seqs.SortDesc | app/src/main/java/com/example/pennykeeper/ui/stats/StatisticsViewModel.kt:168 | `sortedByDescending` is a descending permutation |
| Seqs.InsertWithKey | app/src/main/java/com/example/pennykeeper/ui/stats/StatisticsViewModel.kt:168 | inserting puts the element before those with an equal key |
| Seqs.SortDescStable | app/src/main/java/com/example/pennykeeper/ui/stats/StatisticsViewModel.kt:168 | equal keys keep their relative order |
| Seqs.InsertDistinctBy | app/src/main/java/com/example/pennykeeper/ui/stats/StatisticsViewModel.kt:168 | inserting keeps a list free of duplicates |
| Seqs.SortDescDistinctBy | app/src/main/java/com/example/pennykeeper/ui/stats/StatisticsViewModel.kt:168 | sorting keeps a list free of duplicates |
| Seqs.KeysOf | app/src/main/java/com/example/pennykeeper/ui/stats/StatisticsViewModel.kt:151 | the keys of an entry list, in order |
| Seqs.CreditKeys | app/src/main/java/com/example/pennykeeper/utils/ai/OpenRouterAPISvc.kt:223 | a known key keeps its place, a new key goes last |
| Seqs.CreditLookup | app/src/main/java/com/example/pennykeeper/utils/ai/OpenRouterAPISvc.kt:223 | the credited key's value grows by the amount, the others stay |
| Seqs.GroupSumsSnoc | app/src/main/java/com/example/pennykeeper/ui/stats/StatisticsViewModel.kt:146-148 | one more pair is credited to the groups of the earlier ones |
| Seqs.FirstKeysDistinct | app/src/main/java/com/example/pennykeeper/ui/stats/StatisticsViewModel.kt:147 | the keys in order of first appearance are distinct and are exactly the keys present |
| Seqs.GroupSumsSpec | app/src/main/java/com/example/pennykeeper/ui/stats/StatisticsViewModel.kt:146-148 | one entry per distinct key in order of first appearance, each holding that key's sum |
| Seqs.LookupAt | app/src/main/java/com/example/pennykeeper/ui/stats/StatisticsViewModel.kt:148 | with distinct keys each entry is found by its key |
| Seqs.GroupSumsEntry | app/src/main/java/com/example/pennykeeper/ui/stats/StatisticsViewModel.kt:146-148 | each group is a key of the pairs with the sum of its values |
| Seqs.GroupSumsHas | app/src/main/java/com/example/pennykeeper/ui/stats/StatisticsViewModel.kt:146-148 | each key of the pairs has its group |
| Seqs.FirstKeysOrder | app/src/main/java/com/example/pennykeeper/ui/settings/SettingsViewModel.kt:189 | `groupBy` lists keys in order of first appearance: a key listed no later than the key of pair j first appears at or before pair j |
| Seqs.GroupSumsTotal | app/src/main/java/com/example/pennykeeper/ui/settings/SettingsViewModel.kt:89 | grouping keeps the grand total |
| Seqs.CreditTotal | app/src/main/java/com/example/pennykeeper/utils/ai/OpenRouterAPISvc.kt:223 | crediting adds the amount to the grand total |
| Seqs.FirstMax | app/src/main/java/com/example/pennykeeper/ui/settings/SettingsViewModel.kt:190-191 | `maxByOrNull`: the first entry with the largest value |
| CategoryDao.CategoryDao.constructor | app/src/main/java/com/example/pennykeeper/data/dao/CategoryDao.kt:11 | a new table is empty and valid, its id sequence at 0 |
| ExpenseDao.ExpenseDao.constructor | app/src/main/java/com/example/pennykeeper/data/dao/ExpenseDao.kt:12 | a new table is empty and valid, its id sequence at 0 |
| SettingsDao.SettingsDao.constructor | app/src/main/java/com/example/pennykeeper/data/dao/SettingsDao.kt:14 | a new table is empty and valid, its id sequence at 0 |
| ThemeRepository.ThemeRepository.constructor | app/src/main/java/com/example/pennykeeper/data/repository/ThemeRepository.kt:10-21 | the flag starts as the stored preference, false when none is stored, and agrees with the store |
| HomeViewModel.HomeViewModel.constructor | app/src/main/java/com/example/pennykeeper/ui/home/HomeViewModel.kt:78-80 | `isExpenseAdded` starts false |

## Left out

- Compose layout and drawing, navigation wiring, dependency injection and the activity: these are UI only. EditExpenseScreen's amount filter is the one `AddScreen` models.
- The HTTP request, its headers, the JSON body and response parsing, and the prompt texts of `makeRequest`: these are network I/O. The reply's content is an input, `None` when the call throws or the reply has neither candidates nor choices.
- The text `String.format`, `NumberFormat.getCurrencyInstance`, `Double.toString` and `Date.toString` produce: this is library formatting, taken as function parameters.
- Coroutines, `Flow`/`StateFlow` plumbing, `flatMapLatest` and the two-second `delay` in `saveBudget`: these are about asynchrony. Each operation is one synchronous step on a snapshot, so `isBudgetSaved` is only observed after the delay.
- The `WEEK` bounds of `getExpensesByPeriod` (first day of the week and six days on), `getWeekOfMonth`/`getWeeksInMonth`, and StatisticsViewModel's `setPeriod`/`setMonth`/`setYear`: these are locale-dependent `Calendar` arithmetic. The week's first and last instants are inputs of the WEEK view.
- The month labels of the six-month trend (`getDisplayName`): this is locale text. The trend keeps the amounts.
- Room's database singletons, migrations and the `SET_DEFAULT` foreign key: this is library machinery. The prefill is modelled as an initial table.
- The speech intent and the regex clean-up of the spoken text into a place: a platform call and a replacement chain. The place is an input of `HomeScreen.OnSpeechResult`.
- `themepreferences.kt`, a thin wrapper over SharedPreferences: the preferences store is a `map<string, bool>`.
- `SetBudgetScreen`'s parsing of the budget text: general Kotlin number parsing.
- CategoryRepository's one-line delegations (`updateCategory`, `deleteCategory`, `getCategoryById`, `getCategoryByName`, `getDefaultCategory`, `deleteNonDefaultCategories`) are the DAO members they call. The `categories` flow is a snapshot of the table.
- The budget `StateFlow`s' initial value before the first emission: this is asynchrony.
- Calendar: the device time zone and the Julian calendar before 1582 are left out. Dates are UTC proleptic Gregorian, which matches `java.util.Calendar` only for UTC and for dates after the Gregorian switch.
- Tables: a query without `ORDER BY` returns rows in ascending id order here. SQLite does not promise this, but it is what a rowid table scan gives.
- Tables.FreshIdIsFree: ids are unbounded, so the model leaves out SQLite's 64-bit limit on `AUTOINCREMENT`.
- Numbers.ToDoubleOrNull: reads digit texts with at most one '.' and an optional exponent `[eE][+-]?digits`. A leading sign, surrounding white space, "NaN", "Infinity", hexadecimal forms and an `f`/`d` suffix, which Kotlin also accepts, give null here. The amount filters only let digits and '.' through, and `Double.toString` of a non-negative amount writes none of these forms. A huge exponent gives an exact `real` where Kotlin gives `Infinity`.
- Numbers.PercentOf: Double rounding is left out, so a percentage that lands just below a whole number in floating point may differ by one.
- StatisticsViewModel.Entry: the `toFloat()` of the percentage is left out; the share is an exact `real`.
- Text.Lower: lowercases the ASCII letters only. Kotlin's `lowercase()` also maps other scripts. The same holds for the date phrases in HomeScreen.HasOrdinalPhrase and HomeScreen.FindWeekday: Kotlin's `RegexOption.IGNORE_CASE` also turns on Unicode case folding, while the model matches against `Text.Lower`, so non-ASCII case is not folded there.
- OpenRouterInferenceSvc.Capitalize: title-cases ASCII letters only.
- AddScreen.ParseDate: reads only the `yyyy-MM-dd` texts the date picker writes. `SimpleDateFormat`'s lenient parsing of other text is left out, since the field is read-only.
- OpenRouterInferenceSvc.Distance: is modelled as the code computes it, which is not the textbook edit distance. A non-empty string is at distance its length less one from itself, and from "". So the keyword test only ever holds for a question of at most three characters.
- OpenRouterInferenceSvc.FormatAnalysisResponse: the "Transactions" figure is the number of categories in the parsed map, as in the code.
- Double arithmetic is exact `real` arithmetic throughout, so IEEE rounding is left out everywhere it happens:
  - the forecast (`Prediction.Predict`) and the statistics sums and shares;
  - HomeScreen's spent-today sum (`HomeScreen.SpentToday`) and the spent/limit ratio behind `HomeScreen.MessageTier` and `HomeScreen.Progress`;
  - the per-category sums of `parseFinancialData` (`OpenRouterInferenceSvc.ParsedSums`);
  - the yearly amount divided by 12 in the month view (`ExpenseRepository.MonthView`);
  - the values `Numbers.ToDoubleOrNull` and `Numbers.ToDouble` read from decimal text.
  For example, 0.1 + 0.2 is exactly 0.3 here but 0.30000000000000004 in Kotlin. So a tier or progress boundary, a sum compared with a limit, or a total that lands exactly on a threshold can fall on the other side in the app.
