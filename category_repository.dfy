/** `CategoryRepository`: adding a category only under a new name, and
    making sure the six default categories exist. */
module CategoryRepository {
  import opened Wrappers
  import opened Entities
  import Tables
  import CategoryDao

  type CategoryTable = Tables.Table<CategoryEntity>

  /** The categories `ensureDefaultCategoriesExist` creates. */
  const DefaultNames: seq<string> := ["Groceries", "Transportation", "Entertainment", "Bills", "Shopping", "Other"]

  /** The table after `addCategory(name, isDefault)`. */
  function Added(t: CategoryTable, name: string, isDefault: bool): (r: CategoryTable)
    requires Tables.Valid(t, CategoryDao.Id)
    ensures Tables.Valid(r, CategoryDao.Id)
    ensures r.rows == if CategoryDao.HasName(t.rows, name) then t.rows
                      else t.rows + [CategoryEntity(t.lastId + 1, name, isDefault)]
    ensures r.lastId == if CategoryDao.HasName(t.rows, name) then t.lastId else t.lastId + 1
  {
    var c := CategoryEntity(0, name, isDefault);
    CategoryDao.InsertIfNewSpec(t, c);
    if CategoryDao.HasName(t.rows, name) then CategoryDao.InsertedIfNew(t, c).value
    else CategoryDao.InsertNewCategory(t, c); CategoryDao.InsertedIfNew(t, c).value
  }

  /** The table after `addCategory(n, isDefault = true)` for each name in turn. */
  function WithDefaults(t: CategoryTable, names: seq<string>): (r: CategoryTable)
    requires Tables.Valid(t, CategoryDao.Id)
    ensures Tables.Valid(r, CategoryDao.Id)
  {
    if names == [] then t else Added(WithDefaults(t, names[..|names| - 1]), names[|names| - 1], true)
  }

  /** Afterwards every listed name is present. */
  lemma {:induction false} WithDefaultsHasAll(t: CategoryTable, names: seq<string>)
    requires Tables.Valid(t, CategoryDao.Id)
    ensures forall n :: n in names ==> CategoryDao.HasName(WithDefaults(t, names).rows, n)
  {
    if names != [] {
      var init := names[..|names| - 1];
      WithDefaultsHasAll(t, init);
      var before := WithDefaults(t, init);
      var after := WithDefaults(t, names);
      forall n | n in names ensures CategoryDao.HasName(after.rows, n) {
        if n == names[|names| - 1] {
          if !CategoryDao.HasName(before.rows, n) {
            assert after.rows[|before.rows|].name == n;
          }
        } else {
          assert n in init;
          var i :| 0 <= i < |before.rows| && before.rows[i].name == n;
          assert after.rows[i] == before.rows[i];
        }
      }
    }
  }

  /** Pre-existing rows are never altered: the old table is a prefix of the
      new one. */
  lemma {:induction false} WithDefaultsExtends(t: CategoryTable, names: seq<string>)
    requires Tables.Valid(t, CategoryDao.Id)
    ensures |t.rows| <= |WithDefaults(t, names).rows|
    ensures WithDefaults(t, names).rows[..|t.rows|] == t.rows
  {
    if names != [] {
      WithDefaultsExtends(t, names[..|names| - 1]);
    }
  }

  /** When every name is already present nothing changes. */
  lemma {:induction false} WithDefaultsNoop(t: CategoryTable, names: seq<string>)
    requires Tables.Valid(t, CategoryDao.Id)
    requires forall n :: n in names ==> CategoryDao.HasName(t.rows, n)
    ensures WithDefaults(t, names) == t
  {
    if names != [] {
      WithDefaultsNoop(t, names[..|names| - 1]);
    }
  }

  /** `ensureDefaultCategoriesExist` is idempotent. */
  lemma WithDefaultsIdempotent(t: CategoryTable, names: seq<string>)
    requires Tables.Valid(t, CategoryDao.Id)
    ensures WithDefaults(WithDefaults(t, names), names) == WithDefaults(t, names)
  {
    WithDefaultsHasAll(t, names);
    WithDefaultsNoop(WithDefaults(t, names), names);
  }

  /** A name that is already present never gets a second row. */
  lemma {:induction false} WithDefaultsKeepsNamesUnique(t: CategoryTable, names: seq<string>)
    requires Tables.Valid(t, CategoryDao.Id) && CategoryDao.NamesUnique(t.rows)
    ensures CategoryDao.NamesUnique(WithDefaults(t, names).rows)
  {
    if names != [] {
      var before := WithDefaults(t, names[..|names| - 1]);
      WithDefaultsKeepsNamesUnique(t, names[..|names| - 1]);
      CategoryDao.InsertIfNewKeepsNamesUnique(before, CategoryEntity(0, names[|names| - 1], true));
      CategoryDao.InsertIfNewSpec(before, CategoryEntity(0, names[|names| - 1], true));
    }
  }

  /** The names after `WithDefaults` are the old names and the listed ones. */
  lemma {:induction false} WithDefaultsNames(t: CategoryTable, names: seq<string>)
    requires Tables.Valid(t, CategoryDao.Id)
    ensures CategoryDao.Names(WithDefaults(t, names).rows) == CategoryDao.Names(t.rows) + set n | n in names
  {
    if names != [] {
      var init := names[..|names| - 1];
      var last := names[|names| - 1];
      WithDefaultsNames(t, init);
      var before := WithDefaults(t, init);
      AddedNames(before, last);
      NameSetSnoc(init, last);
      assert names == init + [last];
      UnionSnoc(CategoryDao.Names(WithDefaults(t, names).rows), CategoryDao.Names(before.rows),
                CategoryDao.Names(t.rows), (set n | n in init), last);
    }
  }

  /** One `addCategory` adds its name to the set of names. */
  lemma AddedNames(t: CategoryTable, name: string)
    requires Tables.Valid(t, CategoryDao.Id)
    ensures CategoryDao.Names(Added(t, name, true).rows) == CategoryDao.Names(t.rows) + {name}
  {
    var after := Added(t, name, true);
    if CategoryDao.HasName(t.rows, name) {
      CategoryDao.NamesHasName(t.rows, name);
      AddPresent(CategoryDao.Names(t.rows), name);
    } else {
      CategoryDao.NamesAppend(t.rows, CategoryEntity(t.lastId + 1, name, true));
    }
  }

  lemma UnionSnoc<T>(x: set<T>, a: set<T>, b: set<T>, s: set<T>, l: T)
    requires x == a + {l} && a == b + s
    ensures x == b + (s + {l})
  {
  }

  lemma AddPresent<T>(s: set<T>, x: T)
    requires x in s
    ensures s + {x} == s
  {
  }

  lemma NameSetSnoc(init: seq<string>, last: string)
    ensures (set n | n in init + [last]) == (set n | n in init) + {last}
  {
  }

  class CategoryRepository {
    const dao: CategoryDao.CategoryDao

    constructor (dao: CategoryDao.CategoryDao)
      ensures this.dao == dao
    {
      this.dao := dao;
    }

    /** `categories`: every category, in id order. */
    function Categories(): (r: seq<CategoryEntity>)
      reads dao
      requires dao.Valid()
      ensures Tables.Ascending(r, CategoryDao.Id) && r == dao.rows
    {
      dao.GetAllCategories()
    }

    /** `defaultCategories`. */
    function DefaultCategories(): (r: seq<CategoryEntity>)
      reads dao
      ensures forall c :: c in r <==> c in dao.rows && c.isDefault
    {
      dao.GetDefaultCategories()
    }

    /** `addCategory(name, isDefault = false)`. */
    method AddCategory(name: string, isDefault: bool := false)
      requires dao.Valid()
      modifies dao
      ensures dao.Valid()
      ensures dao.State() == Added(old(dao.State()), name, isDefault)
      ensures CategoryDao.HasName(dao.rows, name)
    {
      var r := dao.InsertIfNotExists(CategoryEntity(0, name, isDefault));
      CategoryDao.InsertIfNewSpec(old(dao.State()), CategoryEntity(0, name, isDefault));
    }

    /** `ensureDefaultCategoriesExist()`. */
    method EnsureDefaultCategoriesExist()
      requires dao.Valid()
      modifies dao
      ensures dao.Valid()
      ensures dao.State() == WithDefaults(old(dao.State()), DefaultNames)
      ensures forall n :: n in DefaultNames ==> CategoryDao.HasName(dao.rows, n)
      ensures |old(dao.rows)| <= |dao.rows| && dao.rows[..|old(dao.rows)|] == old(dao.rows)
    {
      AddDefaults(DefaultNames);
      WithDefaultsHasAll(old(dao.State()), DefaultNames);
      WithDefaultsExtends(old(dao.State()), DefaultNames);
    }

    /** The loop of `ensureDefaultCategoriesExist`: each name in turn is
        added as a default category unless present. */
    method AddDefaults(names: seq<string>)
      requires dao.Valid()
      modifies dao
      ensures dao.Valid()
      ensures dao.State() == WithDefaults(old(dao.State()), names)
    {
      var i := 0;
      while i < |names|
        invariant 0 <= i <= |names| && dao.Valid()
        invariant dao.State() == WithDefaults(old(dao.State()), names[..i])
      {
        assert names[..i + 1][..i] == names[..i];
        AddCategory(names[i], true);
        i := i + 1;
      }
      assert names[..i] == names;
    }
  }
}
