/** The navigation routes of the app and the builder of the edit route. */
module Navigation {
  import Text

  const Home := "home"
  const Statistics := "statistics"
  const Settings := "settings"
  const SetBudget := "settings/budget"
  const ManageCategories := "settings/categories"
  const ExpensePrediction := "settings/prediction"
  const DisplayMode := "settings/displaymode"
  const EditExpense := "edit/{expenseId}"
  const AddExpense := "add"
  const ChatAnalysis := "settings/chat"

  /** The name of the route argument that carries the expense id. */
  const ExpenseIdArg := "expenseId"

  const EditPrefix := "edit/"

  /** Every destination's route, in declaration order. */
  const AllRoutes: seq<string> := [Home, Statistics, Settings, SetBudget, ManageCategories,
    ExpensePrediction, DisplayMode, EditExpense, AddExpense, ChatAnalysis]

  /** `EditExpense.createRoute(id)`: the edit prefix, then the id in decimal. */
  function CreateRoute(expenseId: int): (r: string)
    ensures Text.StartsWith(r, EditPrefix)
    ensures r[|EditPrefix|..] == Text.IntToString(expenseId)
  {
    EditPrefix + Text.IntToString(expenseId)
  }

  /** The id can be read back from a built route. */
  lemma CreateRouteParses(expenseId: int)
    ensures Text.ParseInt(CreateRoute(expenseId)[|EditPrefix|..]) == expenseId
  {
    Text.IntToStringRoundTrip(expenseId);
  }

  /** Distinct ids give distinct routes. */
  lemma CreateRouteInjective(a: int, b: int)
    requires a != b
    ensures CreateRoute(a) != CreateRoute(b)
  {
    CreateRouteParses(a);
    CreateRouteParses(b);
  }

  /** The edit template's placeholder is named by `ExpenseIdArg`. */
  lemma EditTemplatePlaceholder()
    ensures EditExpense == EditPrefix + "{" + ExpenseIdArg + "}"
  {
  }

  /** The ten routes are pairwise distinct, and the five sub-settings routes
      start with "settings/". */
  lemma RoutesDistinct()
    ensures |AllRoutes| == 10
    ensures forall i, j :: 0 <= i < j < |AllRoutes| ==> AllRoutes[i] != AllRoutes[j]
    ensures forall r :: r in [SetBudget, ManageCategories, ExpensePrediction, DisplayMode, ChatAnalysis]
              ==> Text.StartsWith(r, "settings/")
  {
  }
}
