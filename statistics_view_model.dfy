/** The statistics screen's view model: the period total, one entry per
    category with a positive sum (largest first, with its share of the
    total), and a colour per category that, once handed out, stays. */
module StatisticsViewModel {
  import Seqs
  import Calendar
  import opened Wrappers
  import opened Entities

  /** `CategoryExpense`; a colour is its ARGB value. */
  datatype CategoryExpense = CategoryExpense(categoryName: string, amount: real, color: int, percentage: real)

  /** `availableColors`: green, blue, red, orange, purple, blue-grey. */
  const AvailableColors: seq<int> := [0xFF4CAF50, 0xFF2196F3, 0xFFF44336, 0xFFFF9800, 0xFF9C27B0, 0xFF607D8B]

  /** `Color.Gray`, the fallback for a category without a colour. */
  const Gray: int := 0xFF888888

  function EntryAmount(c: CategoryExpense): real { c.amount }

  function EntryName(c: CategoryExpense): string { c.categoryName }

  /** The (category name, amount) pair of each expense, in order. */
  function Pairs(expenses: seq<ExpenseUiModel>): (r: seq<(string, real)>)
    ensures |r| == |expenses|
    ensures forall i :: 0 <= i < |r| ==> r[i] == (expenses[i].categoryName, expenses[i].amount)
  {
    seq(|expenses|, i requires 0 <= i < |expenses| => (expenses[i].categoryName, expenses[i].amount))
  }

  /** `categoryAmounts`: `groupBy { categoryName }.mapValues { sumOf { amount } }`. */
  function CategoryAmounts(expenses: seq<ExpenseUiModel>): seq<(string, real)> {
    Seqs.GroupSums(Pairs(expenses))
  }

  /** There are no category groups exactly when there are no expenses. */
  lemma GroupsCoverExpenses(expenses: seq<ExpenseUiModel>)
    ensures CategoryAmounts(expenses) == [] <==> expenses == []
  {
    var pairs := Pairs(expenses);
    Seqs.GroupSumsSpec(pairs);
    Seqs.FirstKeysDistinct(pairs);
    if expenses != [] {
      assert pairs[0].0 in Seqs.FirstKeys(pairs);
    }
  }

  // ---------------------------------------------------------------------
  // The colour map

  /** One step of the colour loop: a category without a colour gets the
      palette entry at the map's size modulo the palette's length. */
  function AssignOne(m: map<string, int>, name: string): (r: map<string, int>)
    ensures r.Keys == m.Keys + {name}
    ensures forall k :: k in m ==> r[k] == m[k]
    ensures name !in m ==> r[name] == AvailableColors[|m| % |AvailableColors|]
  {
    if name in m then m else m[name := AvailableColors[|m| % |AvailableColors|]]
  }

  /** The colour map after the loop has visited `names` in order. */
  function Assigned(m: map<string, int>, names: seq<string>): map<string, int> {
    if names == [] then m else AssignOne(Assigned(m, names[..|names| - 1]), names[|names| - 1])
  }

  predicate FromPalette(m: map<string, int>) {
    forall k :: k in m ==> m[k] in AvailableColors
  }

  /** The loop only adds entries: every category gets a colour, and a
      colour once given never changes. */
  lemma {:induction false} AssignedGrows(m: map<string, int>, names: seq<string>)
    ensures forall k :: k in Assigned(m, names) <==> k in m || k in names
    ensures forall k :: k in m ==> Assigned(m, names)[k] == m[k]
  {
    if names != [] {
      AssignedGrows(m, names[..|names| - 1]);
      assert names == names[..|names| - 1] + [names[|names| - 1]];
    }
  }

  /** Colours all come from the palette, so none is the Gray fallback. */
  lemma {:induction false} AssignedFromPalette(m: map<string, int>, names: seq<string>)
    requires FromPalette(m)
    ensures FromPalette(Assigned(m, names))
  {
    if names != [] {
      AssignedFromPalette(m, names[..|names| - 1]);
    }
  }

  /** Running the loop again over categories it has seen changes nothing. */
  lemma {:induction false} AssignedAgain(m: map<string, int>, more: seq<string>)
    requires forall i :: 0 <= i < |more| ==> more[i] in m
    ensures Assigned(m, more) == m
  {
    if more != [] {
      AssignedAgain(m, more[..|more| - 1]);
    }
  }

  lemma PaletteNotGray()
    ensures Gray !in AvailableColors
  {
  }

  /** The loop's step from `names[..i]` to `names[..i + 1]`. */
  lemma AssignedStep(m: map<string, int>, names: seq<string>, i: nat)
    requires i < |names|
    ensures Assigned(m, names[..i + 1]) == AssignOne(Assigned(m, names[..i]), names[i])
  {
    assert names[..i + 1][..i] == names[..i];
  }

  /** The last of distinct names has no colour yet when the loop reaches it. */
  lemma LastIsNew(names: seq<string>)
    requires Seqs.Distinct(names) && names != []
    ensures names[|names| - 1] !in Assigned(map[], names[..|names| - 1])
  {
    var init := names[..|names| - 1];
    AssignedGrows(map[], init);
    assert names[|names| - 1] !in init;
  }

  /** From an empty map, distinct categories get the palette in order of
      first appearance, cycling after six. */
  lemma {:induction false} AssignedInOrder(names: seq<string>)
    requires Seqs.Distinct(names)
    ensures |Assigned(map[], names)| == |names|
    ensures forall i :: 0 <= i < |names| ==>
              names[i] in Assigned(map[], names) && Assigned(map[], names)[names[i]] == AvailableColors[i % |AvailableColors|]
  {
    if names != [] {
      var init := names[..|names| - 1];
      var last := names[|names| - 1];
      var before := Assigned(map[], init);
      assert Seqs.Distinct(init);
      AssignedInOrder(init);
      LastIsNew(names);
      var after := Assigned(map[], names);
      assert after == before[last := AvailableColors[|before| % |AvailableColors|]];
      forall i | 0 <= i < |names|
        ensures names[i] in after && after[names[i]] == AvailableColors[i % |AvailableColors|]
      {
        if i < |init| {
          assert names[i] == init[i] && init[i] in before;
          assert after[names[i]] == before[init[i]];
        } else {
          assert names[i] == last && |before| == i;
        }
      }
    }
  }

  // ---------------------------------------------------------------------
  // The category entries

  /** One `CategoryExpense`: the category's colour or Gray, and its share
      of a positive total or 0. */
  function Entry(group: (string, real), colors: map<string, int>, total: real): CategoryExpense {
    CategoryExpense(group.0, group.1, if group.0 in colors then colors[group.0] else Gray,
                    if total > 0.0 then group.1 / total else 0.0)
  }

  predicate PositiveSum(group: (string, real)) { group.1 > 0.0 }

  /** `filter { it.value > 0 }`. */
  function Positive(amounts: seq<(string, real)>): seq<(string, real)> {
    Seqs.Filter(amounts, PositiveSum)
  }

  /** `filter { it.value > 0 }.map { ... }`: the entries of the categories
      with a positive sum, in the grouped order. */
  function Entries(amounts: seq<(string, real)>, colors: map<string, int>, total: real): (r: seq<CategoryExpense>)
    ensures |r| == |Positive(amounts)|
    ensures forall i :: 0 <= i < |r| ==> r[i] == Entry(Positive(amounts)[i], colors, total)
  {
    var ps := Positive(amounts);
    seq(|ps|, i requires 0 <= i < |ps| => Entry(ps[i], colors, total))
  }

  /** Filtering keeps the keys of an association list distinct. */
  lemma {:induction false} FilterKeepsDistinct<K>(g: seq<(K, real)>, p: ((K, real)) -> bool)
    requires Seqs.Distinct(Seqs.KeysOf(g))
    ensures Seqs.Distinct(Seqs.KeysOf(Seqs.Filter(g, p)))
  {
    if g != [] {
      var tail := g[1..];
      DistinctKeysTail(g);
      FilterKeepsDistinct(tail, p);
      if p(g[0]) {
        var f := Seqs.Filter(tail, p);
        forall i | 0 <= i < |f| ensures f[i].0 != g[0].0 {
          var j :| 0 <= j < |tail| && tail[j] == f[i];
          assert g[j + 1] == tail[j];
        }
        DistinctKeysCons(g[0], f);
      }
    }
  }

  /** The keys after the first of a list with distinct keys are distinct
      and differ from the first. */
  lemma DistinctKeysTail<K>(g: seq<(K, real)>)
    requires g != [] && Seqs.Distinct(Seqs.KeysOf(g))
    ensures Seqs.Distinct(Seqs.KeysOf(g[1..]))
    ensures forall j :: 1 <= j < |g| ==> g[j].0 != g[0].0
  {
    var tail := g[1..];
    forall a, b | 0 <= a < b < |tail| ensures Seqs.KeysOf(tail)[a] != Seqs.KeysOf(tail)[b] {
      assert Seqs.KeysOf(g)[a + 1] != Seqs.KeysOf(g)[b + 1];
    }
    forall j | 1 <= j < |g| ensures g[j].0 != g[0].0 {
      assert Seqs.KeysOf(g)[0] != Seqs.KeysOf(g)[j];
    }
  }

  /** A new key in front of a list with distinct keys keeps them distinct. */
  lemma DistinctKeysCons<K>(x: (K, real), f: seq<(K, real)>)
    requires Seqs.Distinct(Seqs.KeysOf(f))
    requires forall i :: 0 <= i < |f| ==> f[i].0 != x.0
    ensures Seqs.Distinct(Seqs.KeysOf([x] + f))
  {
    KeysOfCons(x, f);
    assert x.0 !in Seqs.KeysOf(f);
    DistinctCons(x.0, Seqs.KeysOf(f));
  }

  lemma KeysOfCons<K>(x: (K, real), f: seq<(K, real)>)
    ensures Seqs.KeysOf([x] + f) == [x.0] + Seqs.KeysOf(f)
  {
    assert ([x] + f)[1..] == f;
  }

  lemma DistinctCons<K>(k: K, s: seq<K>)
    requires Seqs.Distinct(s) && k !in s
    ensures Seqs.Distinct([k] + s)
  {
    var r := [k] + s;
    forall a, b | 0 <= a < b < |r| ensures r[a] != r[b] {
      assert r[b] == s[b - 1];
      if a > 0 {
        assert r[a] == s[a - 1];
      }
    }
  }

  /** Distinct grouped categories give entries with distinct names. */
  lemma EntriesDistinct(amounts: seq<(string, real)>, colors: map<string, int>, total: real)
    requires Seqs.Distinct(Seqs.KeysOf(amounts))
    ensures Seqs.DistinctBy(Entries(amounts, colors, total), EntryName)
  {
    FilterKeepsDistinct(amounts, PositiveSum);
    var ps := Positive(amounts);
    var e := Entries(amounts, colors, total);
    forall a, b | 0 <= a < b < |e| ensures EntryName(e[a]) != EntryName(e[b]) {
      assert Seqs.KeysOf(ps)[a] != Seqs.KeysOf(ps)[b];
    }
  }

  /** `sortedByDescending { it.amount }` of the entries. */
  function Statistics(amounts: seq<(string, real)>, colors: map<string, int>, total: real): seq<CategoryExpense> {
    Seqs.SortDesc(Entries(amounts, colors, total), EntryAmount)
  }

  /** A category no expense names sums to zero. */
  lemma {:induction false} SumForAbsent(pairs: seq<(string, real)>, name: string)
    requires forall i :: 0 <= i < |pairs| ==> pairs[i].0 != name
    ensures Seqs.SumFor(pairs, name) == 0.0
  {
    if pairs != [] {
      SumForAbsent(pairs[..|pairs| - 1], name);
    }
  }

  /** Every listed entry is the entry of a group with a positive sum. */
  lemma EntryOfGroup(g: seq<(string, real)>, colors: map<string, int>, total: real, c: CategoryExpense)
    requires c in Statistics(g, colors, total)
    ensures exists j :: 0 <= j < |g| && g[j].1 > 0.0 && c == Entry(g[j], colors, total)
  {
    var e := Entries(g, colors, total);
    assert c in multiset(Statistics(g, colors, total));
    assert c in e;
    var m :| 0 <= m < |e| && e[m] == c;
    var ps := Positive(g);
    assert ps[m] in g && PositiveSum(ps[m]);
    var j :| 0 <= j < |g| && g[j] == ps[m];
  }

  /** Every group with a positive sum is listed. */
  lemma GroupHasEntry(g: seq<(string, real)>, colors: map<string, int>, total: real, j: nat)
    requires j < |g| && g[j].1 > 0.0
    ensures Entry(g[j], colors, total) in Statistics(g, colors, total)
  {
    var ps := Positive(g);
    assert g[j] in ps;
    var m :| 0 <= m < |ps| && ps[m] == g[j];
    var e := Entries(g, colors, total);
    assert e[m] == Entry(g[j], colors, total);
    assert e[m] in multiset(Statistics(g, colors, total));
  }

  /** The entries are sorted by amount, largest first, with at most one
      per category. */
  lemma StatisticsSortedAndDistinct(expenses: seq<ExpenseUiModel>, colors: map<string, int>, total: real)
    ensures var s := Statistics(CategoryAmounts(expenses), colors, total);
            Seqs.SortedDesc(s, EntryAmount) && Seqs.DistinctBy(s, EntryName)
  {
    var g := CategoryAmounts(expenses);
    Seqs.GroupSumsSpec(Pairs(expenses));
    EntriesDistinct(g, colors, total);
    Seqs.SortDescDistinctBy(Entries(g, colors, total), EntryAmount, EntryName);
  }

  /** One listed entry carries its category's summed amount, which is
      positive, and its share of a positive total (0 otherwise). */
  lemma EntryIsCategorySum(expenses: seq<ExpenseUiModel>, colors: map<string, int>, total: real, c: CategoryExpense)
    requires c in Statistics(CategoryAmounts(expenses), colors, total)
    ensures c.amount == Seqs.SumFor(Pairs(expenses), c.categoryName) && c.amount > 0.0
    ensures c.percentage == if total > 0.0 then c.amount / total else 0.0
  {
    var g := CategoryAmounts(expenses);
    EntryOfGroup(g, colors, total, c);
    var j :| 0 <= j < |g| && g[j].1 > 0.0 && c == Entry(g[j], colors, total);
    Seqs.GroupSumsSpec(Pairs(expenses));
    Seqs.LookupAt(g, j);
  }

  lemma StatisticsAmounts(expenses: seq<ExpenseUiModel>, colors: map<string, int>, total: real)
    ensures var s := Statistics(CategoryAmounts(expenses), colors, total);
            forall i :: 0 <= i < |s| ==>
              s[i].amount == Seqs.SumFor(Pairs(expenses), s[i].categoryName) && s[i].amount > 0.0
              && s[i].percentage == (if total > 0.0 then s[i].amount / total else 0.0)
  {
    var s := Statistics(CategoryAmounts(expenses), colors, total);
    forall i | 0 <= i < |s|
      ensures s[i].amount == Seqs.SumFor(Pairs(expenses), s[i].categoryName) && s[i].amount > 0.0
              && s[i].percentage == (if total > 0.0 then s[i].amount / total else 0.0)
    {
      EntryIsCategorySum(expenses, colors, total, s[i]);
    }
  }

  /** Every category whose expenses sum to a positive amount is listed. */
  lemma StatisticsComplete(expenses: seq<ExpenseUiModel>, colors: map<string, int>, total: real, name: string)
    requires Seqs.SumFor(Pairs(expenses), name) > 0.0
    ensures var s := Statistics(CategoryAmounts(expenses), colors, total);
            exists i :: 0 <= i < |s| && s[i].categoryName == name
  {
    var pairs := Pairs(expenses);
    var g := CategoryAmounts(expenses);
    var s := Statistics(g, colors, total);
    if forall i :: 0 <= i < |pairs| ==> pairs[i].0 != name {
      SumForAbsent(pairs, name);
    }
    Seqs.FirstKeysDistinct(pairs);
    Seqs.GroupSumsSpec(pairs);
    assert name in Seqs.KeysOf(g);
    var j :| 0 <= j < |g| && Seqs.KeysOf(g)[j] == name;
    Seqs.LookupAt(g, j);
    GroupHasEntry(g, colors, total, j);
    var i :| 0 <= i < |s| && s[i] == Entry(g[j], colors, total);
  }

  /** With every listed category coloured from the palette, no entry gets
      the Gray fallback. */
  lemma StatisticsColored(expenses: seq<ExpenseUiModel>, colors: map<string, int>, total: real)
    requires FromPalette(colors)
    requires forall i :: 0 <= i < |CategoryAmounts(expenses)| ==> CategoryAmounts(expenses)[i].0 in colors
    ensures var s := Statistics(CategoryAmounts(expenses), colors, total);
            forall i :: 0 <= i < |s| ==>
              s[i].categoryName in colors && s[i].color == colors[s[i].categoryName] && s[i].color in AvailableColors
  {
    var g := CategoryAmounts(expenses);
    var s := Statistics(g, colors, total);
    forall i | 0 <= i < |s|
      ensures s[i].categoryName in colors && s[i].color == colors[s[i].categoryName] && s[i].color in AvailableColors
    {
      EntryOfGroup(g, colors, total, s[i]);
    }
  }

  /** An empty period list has total 0 and no entries. */
  lemma EmptyStatistics(colors: map<string, int>)
    ensures Seqs.Sum([], UiAmount) == 0.0
    ensures Statistics(CategoryAmounts([]), colors, 0.0) == []
  {
    assert Pairs([]) == [];
  }

  class StatisticsViewModel {
    var categoryColorMap: map<string, int>
    /** `categoryExpenses`. */
    var categoryExpenses: seq<CategoryExpense>
    /** `totalAmount`. */
    var totalAmount: real

    ghost predicate Valid()
      reads this
    {
      FromPalette(categoryColorMap)
    }

    constructor ()
      ensures Valid()
      ensures categoryColorMap == map[] && categoryExpenses == [] && totalAmount == 0.0
    {
      categoryColorMap := map[];
      categoryExpenses := [];
      totalAmount := 0.0;
    }

    /** The colour loop of `updateStatistics`. */
    method AssignColors(names: seq<string>)
      requires Valid()
      modifies this
      ensures Valid()
      ensures categoryColorMap == Assigned(old(categoryColorMap), names)
      ensures categoryExpenses == old(categoryExpenses) && totalAmount == old(totalAmount)
    {
      ghost var start := categoryColorMap;
      var i := 0;
      while i < |names|
        invariant 0 <= i <= |names|
        invariant categoryColorMap == Assigned(start, names[..i])
        invariant FromPalette(categoryColorMap)
        invariant categoryExpenses == old(categoryExpenses) && totalAmount == old(totalAmount)
      {
        AssignedStep(start, names, i);
        var name := names[i];
        ghost var prev := categoryColorMap;
        if name !in categoryColorMap {
          categoryColorMap := categoryColorMap[name := AvailableColors[|categoryColorMap| % |AvailableColors|]];
        }
        assert categoryColorMap == AssignOne(prev, name);
        i := i + 1;
      }
      assert names[..i] == names;
    }

    /** `updateStatistics(expenses)`. */
    method UpdateStatistics(expenses: seq<ExpenseUiModel>)
      requires Valid()
      modifies this
      ensures Valid()
      ensures totalAmount == Seqs.Sum(expenses, UiAmount)
      ensures categoryColorMap == Assigned(old(categoryColorMap), Seqs.KeysOf(CategoryAmounts(expenses)))
      ensures categoryExpenses == Statistics(CategoryAmounts(expenses), categoryColorMap, totalAmount)
    {
      var total := Seqs.Sum(expenses, UiAmount);
      totalAmount := total;
      var amounts := CategoryAmounts(expenses);
      var names := Seqs.KeysOf(amounts);
      AssignColors(names);
      categoryExpenses := Statistics(amounts, categoryColorMap, total);
    }
  }

  /** The statistics screen's scenario: one expense each of 200, 300 and
      500 in three categories. */
  function ThreeExpenses(d: Calendar.Date): seq<ExpenseUiModel> {
    [ExpenseUiModel(1, 200.0, "Supermarket", "Groceries", d, false, None, None),
     ExpenseUiModel(2, 300.0, "Train Ticket", "Transport", d, false, None, None),
     ExpenseUiModel(3, 500.0, "Cinema", "Entertainment", d, false, None, None)]
  }

  lemma ThreeExpensesTotal(d: Calendar.Date)
    ensures Seqs.Sum(ThreeExpenses(d), UiAmount) == 1000.0
  {
    var e := ThreeExpenses(d);
    assert e[..2][..1] == e[..1] && e[..1][..0] == [];
    assert Seqs.Sum(e[..1], UiAmount) == 200.0;
    assert Seqs.Sum(e[..2], UiAmount) == 500.0;
  }

  lemma ThreeExpensesGrouped(d: Calendar.Date)
    ensures CategoryAmounts(ThreeExpenses(d))
            == [("Groceries", 200.0), ("Transport", 300.0), ("Entertainment", 500.0)]
  {
    var pairs := Pairs(ThreeExpenses(d));
    assert pairs == [("Groceries", 200.0), ("Transport", 300.0), ("Entertainment", 500.0)];
    assert pairs[..2][..1] == pairs[..1] && pairs[..1][..0] == [];
    assert Seqs.GroupSums(pairs[..1]) == [("Groceries", 200.0)];
    var g1: seq<(string, real)> := [("Groceries", 200.0)];
    assert g1[1..] == [];
    assert Seqs.Credit(g1, "Transport", 300.0) == [("Groceries", 200.0), ("Transport", 300.0)];
    assert Seqs.GroupSums(pairs[..2]) == [("Groceries", 200.0), ("Transport", 300.0)];
    var g2: seq<(string, real)> := [("Groceries", 200.0), ("Transport", 300.0)];
    assert g2[1..] == [("Transport", 300.0)] && g2[1..][1..] == [];
    assert Seqs.Credit(g2[1..], "Entertainment", 500.0) == [("Transport", 300.0), ("Entertainment", 500.0)];
  }

  lemma ThreeCategoriesColored()
    ensures Assigned(map[], ["Groceries", "Transport", "Entertainment"])
            == map["Groceries" := AvailableColors[0], "Transport" := AvailableColors[1],
                   "Entertainment" := AvailableColors[2]]
  {
    DistinctNames("Groceries", "Transport", "Entertainment");
    AssignedThree("Groceries", "Transport", "Entertainment");
  }

  lemma DistinctNames(a: string, b: string, c: string)
    requires a == "Groceries" && b == "Transport" && c == "Entertainment"
    ensures a != b && b != c && a != c
  {
    assert a[0] != b[0] && a[0] != c[0];
    assert |b| != |c|;
  }

  /** Three distinct categories met first get the first three colours. */
  lemma AssignedThree(a: string, b: string, c: string)
    requires a != b && b != c && a != c
    ensures Assigned(map[], [a, b, c]) == map[a := AvailableColors[0], b := AvailableColors[1], c := AvailableColors[2]]
  {
    var names := [a, b, c];
    var m0: map<string, int> := map[];
    assert names[..0] == [] && names[..3] == names;
    AssignedStep(m0, names, 0);
    AssignNew(m0, a, 0);
    var m1 := m0[a := AvailableColors[0]];
    AssignedStep(m0, names, 1);
    AssignNew(m1, b, 1);
    var m2 := m1[b := AvailableColors[1]];
    AssignedStep(m0, names, 2);
    AssignNew(m2, c, 2);
  }

  /** A new category gets the colour at the map's size. */
  lemma AssignNew(m: map<string, int>, name: string, k: nat)
    requires name !in m && |m| == k < |AvailableColors|
    ensures AssignOne(m, name) == m[name := AvailableColors[k]]
  {
    assert |m| % |AvailableColors| == k;
  }

  lemma ThreeEntriesSorted()
    ensures var g := [("Groceries", 200.0), ("Transport", 300.0), ("Entertainment", 500.0)];
            var colors := map["Groceries" := AvailableColors[0], "Transport" := AvailableColors[1],
                              "Entertainment" := AvailableColors[2]];
            Statistics(g, colors, 1000.0)
            == [CategoryExpense("Entertainment", 500.0, AvailableColors[2], 0.5),
                CategoryExpense("Transport", 300.0, AvailableColors[1], 0.3),
                CategoryExpense("Groceries", 200.0, AvailableColors[0], 0.2)]
  {
    var g := [("Groceries", 200.0), ("Transport", 300.0), ("Entertainment", 500.0)];
    var colors := map["Groceries" := AvailableColors[0], "Transport" := AvailableColors[1],
                      "Entertainment" := AvailableColors[2]];
    assert g[1..][1..] == [g[2]];
    assert Positive(g) == g;
    var entries := [CategoryExpense("Groceries", 200.0, AvailableColors[0], 0.2),
                    CategoryExpense("Transport", 300.0, AvailableColors[1], 0.3),
                    CategoryExpense("Entertainment", 500.0, AvailableColors[2], 0.5)];
    assert Entries(g, colors, 1000.0) == entries;
    ThreeSort(entries);
  }

  lemma ThreeSort(entries: seq<CategoryExpense>)
    requires |entries| == 3
    requires entries[0].amount < entries[1].amount < entries[2].amount
    ensures Seqs.SortDesc(entries, EntryAmount) == [entries[2], entries[1], entries[0]]
  {
    SortThree(entries, EntryAmount);
  }

  lemma SortThree<T>(s: seq<T>, key: T -> real)
    requires |s| == 3 && key(s[0]) < key(s[1]) < key(s[2])
    ensures Seqs.SortDesc(s, key) == [s[2], s[1], s[0]]
  {
    SortTwo(s[1..], key);
    SortUnfold(s, key);
    var u := [s[2], s[1]];
    InsertAbove(s[0], u, key);
    assert u[1..] == [s[1]];
    InsertAbove(s[0], [s[1]], key);
    assert [s[1]][1..] == [];
    InsertBelow(s[0], [], key);
  }

  lemma SortTwo<T>(s: seq<T>, key: T -> real)
    requires |s| == 2 && key(s[0]) < key(s[1])
    ensures Seqs.SortDesc(s, key) == [s[1], s[0]]
  {
    SortUnfold(s, key);
    SortUnfold(s[1..], key);
    assert s[1..][1..] == [];
    InsertBelow(s[1], [], key);
    assert s[1..][0] == s[1];
    InsertAbove(s[0], [s[1]], key);
    assert [s[1]][1..] == [];
    InsertBelow(s[0], [], key);
  }

  lemma SortUnfold<T>(s: seq<T>, key: T -> real)
    requires s != []
    ensures Seqs.SortDesc(s, key) == Seqs.Insert(s[0], Seqs.SortDesc(s[1..], key), key)
  {
  }

  lemma InsertBelow<T>(x: T, t: seq<T>, key: T -> real)
    requires t == [] || key(t[0]) <= key(x)
    ensures Seqs.Insert(x, t, key) == [x] + t
  {
  }

  lemma InsertAbove<T>(x: T, t: seq<T>, key: T -> real)
    requires t != [] && key(t[0]) > key(x)
    ensures Seqs.Insert(x, t, key) == [t[0]] + Seqs.Insert(x, t[1..], key)
  {
  }

  /** The screen test's expectations: a total of 1000, the entries largest
      first with shares 0.5, 0.3 and 0.2, and palette colours (none Gray)
      handed out in order of first appearance. */
  lemma ThreeCategoryScenario(d: Calendar.Date)
    ensures var e := ThreeExpenses(d);
            var total := Seqs.Sum(e, UiAmount);
            var colors := Assigned(map[], Seqs.KeysOf(CategoryAmounts(e)));
            total == 1000.0
            && Statistics(CategoryAmounts(e), colors, total)
               == [CategoryExpense("Entertainment", 500.0, AvailableColors[2], 0.5),
                   CategoryExpense("Transport", 300.0, AvailableColors[1], 0.3),
                   CategoryExpense("Groceries", 200.0, AvailableColors[0], 0.2)]
  {
    var e := ThreeExpenses(d);
    ThreeExpensesTotal(d);
    ThreeExpensesGrouped(d);
    var g := [("Groceries", 200.0), ("Transport", 300.0), ("Entertainment", 500.0)];
    assert Seqs.KeysOf(g) == ["Groceries", "Transport", "Entertainment"];
    ThreeCategoriesColored();
    ThreeEntriesSorted();
  }

  /** After an update every listed category has a palette colour, and the
      colours given before are unchanged. */
  lemma UpdateColorsEveryEntry(before: map<string, int>, expenses: seq<ExpenseUiModel>)
    requires FromPalette(before)
    ensures var colors := Assigned(before, Seqs.KeysOf(CategoryAmounts(expenses)));
            var s := Statistics(CategoryAmounts(expenses), colors, Seqs.Sum(expenses, UiAmount));
            (forall k :: k in before ==> k in colors && colors[k] == before[k])
            && (forall i :: 0 <= i < |s| ==> s[i].color in AvailableColors)
  {
    var names := Seqs.KeysOf(CategoryAmounts(expenses));
    AssignedGrows(before, names);
    AssignedFromPalette(before, names);
    var colors := Assigned(before, names);
    forall i | 0 <= i < |CategoryAmounts(expenses)| ensures CategoryAmounts(expenses)[i].0 in colors {
      assert names[i] == CategoryAmounts(expenses)[i].0;
    }
    StatisticsColored(expenses, colors, Seqs.Sum(expenses, UiAmount));
  }
}
