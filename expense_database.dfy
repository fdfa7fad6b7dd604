/** `ExpenseDatabase`'s on-create callback, which prefills the category
    table, and what a fresh install holds once the default categories have
    also been ensured. */
module ExpenseDatabase {
  import opened Entities
  import Tables
  import CategoryDao
  import CategoryRepository

  /** The categories inserted when the database file is created. */
  const PrefillNames: seq<string> := ["Groceries", "Subscriptions", "Taxes", "Entertainment", "Utilities", "Other"]

  /** The rows the prefill appends to a table whose sequence value is `lastId`:
      one default category per name, with consecutive fresh ids. */
  function PrefillRows(lastId: int, names: seq<string>): (r: seq<CategoryEntity>)
    ensures |r| == |names|
    ensures forall i :: 0 <= i < |r| ==> r[i] == CategoryEntity(lastId + 1 + i, names[i], true)
  {
    seq(|names|, i requires 0 <= i < |names| => CategoryEntity(lastId + 1 + i, names[i], true))
  }

  /** The on-create callback: `insertCategory` of each prefill name with
      `isDefault = true`. */
  method Prefill(dao: CategoryDao.CategoryDao)
    requires dao.Valid()
    modifies dao
    ensures dao.Valid()
    ensures dao.rows == old(dao.rows) + PrefillRows(old(dao.lastId), PrefillNames)
    ensures dao.lastId == old(dao.lastId) + |PrefillNames|
  {
    var i := 0;
    while i < |PrefillNames|
      invariant 0 <= i <= |PrefillNames| && dao.Valid()
      invariant dao.rows == old(dao.rows) + PrefillRows(old(dao.lastId), PrefillNames[..i])
      invariant dao.lastId == old(dao.lastId) + i
    {
      var r := dao.InsertCategory(CategoryEntity(0, PrefillNames[i], true));
      assert PrefillRows(old(dao.lastId), PrefillNames[..i + 1])
        == PrefillRows(old(dao.lastId), PrefillNames[..i]) + [CategoryEntity(old(dao.lastId) + 1 + i, PrefillNames[i], true)];
      i := i + 1;
    }
    assert PrefillNames[..i] == PrefillNames;
  }

  /** In a table whose names are unique there are as many rows as names. */
  lemma {:induction false} UniqueNamesCount(rows: seq<CategoryEntity>)
    requires CategoryDao.NamesUnique(rows)
    ensures |CategoryDao.Names(rows)| == |rows|
  {
    if rows != [] {
      var init := rows[..|rows| - 1];
      var last := rows[|rows| - 1];
      assert rows == init + [last];
      assert CategoryDao.NamesUnique(init);
      UniqueNamesCount(init);
      CategoryDao.NamesAppend(init, last);
      assert last.name !in CategoryDao.Names(init) by {
        CategoryDao.NamesHasName(init, last.name);
        forall i | 0 <= i < |init| ensures init[i].name != last.name {
          assert init[i] == rows[i];
        }
      }
    }
  }

  /** A fresh install holds nine categories: the six prefilled ones, then
      Transportation, Bills and Shopping from the default list (Groceries,
      Entertainment and Other are already present). */
  lemma FreshInstallHoldsNine()
    ensures |CategoryRepository.WithDefaults(Tables.Table(PrefillRows(0, PrefillNames), 6), CategoryRepository.DefaultNames).rows| == 9
  {
    PrefillTableNames();
    NineNames();
    WithDefaultsCount(Tables.Table(PrefillRows(0, PrefillNames), 6), CategoryRepository.DefaultNames);
  }

  /** Ensuring names on a table with unique names leaves one row per name. */
  lemma WithDefaultsCount(t: Tables.Table<CategoryEntity>, names: seq<string>)
    requires Tables.Valid(t, CategoryDao.Id) && CategoryDao.NamesUnique(t.rows)
    ensures |CategoryRepository.WithDefaults(t, names).rows| == |CategoryDao.Names(t.rows) + set n | n in names|
  {
    CategoryRepository.WithDefaultsNames(t, names);
    CategoryRepository.WithDefaultsKeepsNamesUnique(t, names);
    UniqueNamesCount(CategoryRepository.WithDefaults(t, names).rows);
  }

  lemma PrefillTableNames()
    ensures Tables.Valid(Tables.Table(PrefillRows(0, PrefillNames), 6), CategoryDao.Id)
    ensures CategoryDao.NamesUnique(PrefillRows(0, PrefillNames))
    ensures CategoryDao.Names(PrefillRows(0, PrefillNames)) == set n | n in PrefillNames
  {
    var rows := PrefillRows(0, PrefillNames);
    forall n | n in PrefillNames ensures n in CategoryDao.Names(rows) {
      var i :| 0 <= i < |PrefillNames| && PrefillNames[i] == n;
      assert rows[i].name == n;
    }
  }

  lemma NineNames()
    ensures |(set n | n in PrefillNames) + (set n | n in CategoryRepository.DefaultNames)| == 9
  {
    var all := PrefillNames + ["Transportation", "Bills", "Shopping"];
    assert (set n | n in PrefillNames) + (set n | n in CategoryRepository.DefaultNames) == set n | n in all;
    AllNineDistinct();
    DistinctCount(all);
  }

  lemma AllNineDistinct()
    ensures Distinct(PrefillNames + ["Transportation", "Bills", "Shopping"])
  {
  }

  predicate Distinct(s: seq<string>) {
    forall i, j :: 0 <= i < j < |s| ==> s[i] != s[j]
  }

  lemma {:induction false} DistinctCount(s: seq<string>)
    requires Distinct(s)
    ensures |set n | n in s| == |s|
  {
    if s != [] {
      var init := s[..|s| - 1];
      DistinctCount(init);
      assert s == init + [s[|s| - 1]];
      assert (set n | n in s) == (set n | n in init) + {s[|s| - 1]};
    }
  }

  /** The same, carried out on the DAO: create the database, then let the
      editor's view model ensure the defaults. */
  method FreshInstallScenario() returns (count: int)
    ensures count == 9
  {
    var dao := new CategoryDao.CategoryDao();
    Prefill(dao);
    assert dao.State() == Tables.Table(PrefillRows(0, PrefillNames), 6);
    var repo := new CategoryRepository.CategoryRepository(dao);
    repo.EnsureDefaultCategoriesExist();
    FreshInstallHoldsNine();
    count := |repo.Categories()|;
  }
}
