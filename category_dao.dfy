/** The `categories` table and the queries of `CategoryDao`. */
module CategoryDao {
  import opened Wrappers
  import opened Entities
  import Seqs
  import Tables

  function Id(c: CategoryEntity): int { c.id }

  predicate IsDefaultRow(c: CategoryEntity) { c.isDefault }

  predicate IsCustomRow(c: CategoryEntity) { !c.isDefault }

  function Named(name: string): CategoryEntity -> bool {
    (c: CategoryEntity) => c.name == name
  }

  predicate HasName(rows: seq<CategoryEntity>, name: string) {
    exists i :: 0 <= i < |rows| && rows[i].name == name
  }

  /** The names present in the table. */
  function Names(rows: seq<CategoryEntity>): set<string> {
    set i | 0 <= i < |rows| :: rows[i].name
  }

  lemma NamesHasName(rows: seq<CategoryEntity>, name: string)
    ensures name in Names(rows) <==> HasName(rows, name)
  {
  }

  lemma NamesAppend(rows: seq<CategoryEntity>, c: CategoryEntity)
    ensures Names(rows + [c]) == Names(rows) + {c.name}
  {
    var r := rows + [c];
    assert r[|rows|] == c;
    forall n | n in Names(rows) ensures n in Names(r) {
      var i :| 0 <= i < |rows| && rows[i].name == n;
      assert r[i] == rows[i];
    }
  }

  /** No two rows share a name. */
  predicate NamesUnique(rows: seq<CategoryEntity>) {
    forall i, j :: 0 <= i < j < |rows| ==> rows[i].name != rows[j].name
  }

  /** The table after `insertCategory(c)`: id 0 takes the next sequence value. */
  function Inserted(t: Tables.Table<CategoryEntity>, c: CategoryEntity): Result<Tables.Table<CategoryEntity>> {
    Tables.Insert(t, c.(id := Tables.NewId(t, c.id)), Id)
  }

  /** The table after `insertIfNotExists(c)`: unchanged when the name is taken. */
  function InsertedIfNew(t: Tables.Table<CategoryEntity>, c: CategoryEntity): Result<Tables.Table<CategoryEntity>> {
    if HasName(t.rows, c.name) then Ok(t) else Inserted(t, c)
  }

  /** A new category (id 0) is appended under a fresh id. */
  lemma InsertNewCategory(t: Tables.Table<CategoryEntity>, c: CategoryEntity)
    requires Tables.Valid(t, Id) && c.id == 0
    ensures Inserted(t, c).Ok?
    ensures Inserted(t, c).value == Tables.Table(t.rows + [c.(id := t.lastId + 1)], t.lastId + 1)
    ensures Tables.Valid(Inserted(t, c).value, Id)
  {
    Tables.InsertFresh(t, c.(id := t.lastId + 1), Id);
    Tables.InsertSpec(t, c.(id := t.lastId + 1), Id);
  }

  /** `insertIfNotExists` inserts only when no row has the name, and then
      the name is present. */
  lemma InsertIfNewSpec(t: Tables.Table<CategoryEntity>, c: CategoryEntity)
    requires Tables.Valid(t, Id)
    ensures HasName(t.rows, c.name) ==> InsertedIfNew(t, c) == Ok(t)
    ensures InsertedIfNew(t, c).Ok? ==> HasName(InsertedIfNew(t, c).value.rows, c.name)
    ensures InsertedIfNew(t, c).Ok? ==> Tables.Valid(InsertedIfNew(t, c).value, Id)
    ensures c.id == 0 ==> InsertedIfNew(t, c).Ok?
  {
    if !HasName(t.rows, c.name) {
      var row := c.(id := Tables.NewId(t, c.id));
      if c.id == 0 {
        InsertNewCategory(t, c);
      }
      if !Tables.HasId(t.rows, Id, row.id) {
        Tables.InsertSpec(t, row, Id);
        var u := Inserted(t, c).value;
        assert row in multiset(u.rows);
        var i :| 0 <= i < |u.rows| && u.rows[i] == row;
      }
    }
  }

  /** `insertIfNotExists` is idempotent. */
  lemma InsertIfNewIdempotent(t: Tables.Table<CategoryEntity>, c: CategoryEntity)
    requires Tables.Valid(t, Id) && InsertedIfNew(t, c).Ok?
    ensures InsertedIfNew(InsertedIfNew(t, c).value, c) == InsertedIfNew(t, c)
  {
    InsertIfNewSpec(t, c);
  }

  /** `insertIfNotExists` never gives a name a second row. */
  lemma InsertIfNewKeepsNamesUnique(t: Tables.Table<CategoryEntity>, c: CategoryEntity)
    requires Tables.Valid(t, Id) && NamesUnique(t.rows) && c.id == 0
    ensures NamesUnique(InsertedIfNew(t, c).value.rows)
  {
    if !HasName(t.rows, c.name) {
      InsertNewCategory(t, c);
      var r := InsertedIfNew(t, c).value.rows;
      forall i, j | 0 <= i < j < |r| ensures r[i].name != r[j].name {
        if j == |t.rows| {
          assert r[i] == t.rows[i];
        } else {
          assert r[i] == t.rows[i] && r[j] == t.rows[j];
        }
      }
    }
  }

  class CategoryDao {
    var rows: seq<CategoryEntity>
    var lastId: int

    function State(): Tables.Table<CategoryEntity>
      reads this
    {
      Tables.Table(rows, lastId)
    }

    ghost predicate Valid()
      reads this
    {
      Tables.Valid(State(), Id)
    }

    constructor ()
      ensures Valid() && rows == [] && lastId == 0
    {
      rows := [];
      lastId := 0;
    }

    /** `getAllCategories()`, in id order. */
    function GetAllCategories(): (r: seq<CategoryEntity>)
      reads this
      requires Valid()
      ensures Tables.Ascending(r, Id) && r == rows
    {
      rows
    }

    /** `getCategoryByName(name)`: the first row with that name (LIMIT 1). */
    function GetCategoryByName(name: string): (r: Option<CategoryEntity>)
      reads this
      ensures r.Some? ==> r.value in rows && r.value.name == name
      ensures r.None? <==> !HasName(rows, name)
    {
      Tables.First(rows, Named(name))
    }

    /** `getCategoryById(id)`. */
    function GetCategoryById(id: int): (r: Option<CategoryEntity>)
      reads this
      ensures r.Some? ==> r.value in rows && r.value.id == id
      ensures r.None? <==> forall i :: 0 <= i < |rows| ==> rows[i].id != id
    {
      Tables.Find(rows, Id, id)
    }

    /** `getDefaultCategory()`: the first default row (LIMIT 1). */
    function GetDefaultCategory(): (r: Option<CategoryEntity>)
      reads this
      ensures r.Some? ==> r.value in rows && r.value.isDefault
      ensures r.None? <==> forall i :: 0 <= i < |rows| ==> !rows[i].isDefault
    {
      Tables.First(rows, IsDefaultRow)
    }

    /** `categoryExists(name)`. */
    function CategoryExists(name: string): (b: bool)
      reads this
      ensures b <==> exists i :: 0 <= i < |rows| && rows[i].name == name
    {
      GetCategoryByName(name).Some?
    }

    /** `getDefaultCategories()`. */
    function GetDefaultCategories(): (r: seq<CategoryEntity>)
      reads this
      ensures forall c :: c in r <==> c in rows && c.isDefault
    {
      Seqs.Filter(rows, IsDefaultRow)
    }

    /** `insertCategory(c)`: ABORT on a duplicate id. */
    method InsertCategory(c: CategoryEntity) returns (r: Result<()>)
      requires Valid()
      modifies this
      ensures Valid()
      ensures Inserted(old(State()), c).Ok? ==> r == Ok(()) && State() == Inserted(old(State()), c).value
      ensures Inserted(old(State()), c).Err? ==> r == Err(ConstraintViolation) && State() == old(State())
      ensures c.id == 0 ==> r.Ok? && rows == old(rows) + [c.(id := old(lastId) + 1)] && lastId == old(lastId) + 1
    {
      if c.id == 0 {
        InsertNewCategory(State(), c);
      }
      var k := Tables.NewId(State(), c.id);
      match Inserted(State(), c)
      case Err(f) =>
        r := Err(f);
      case Ok(next) =>
        Tables.InsertSpec(State(), c.(id := k), Id);
        rows, lastId := next.rows, next.lastId;
        r := Ok(());
    }

    /** `insertIfNotExists(c)`: checks the name, then inserts. */
    method InsertIfNotExists(c: CategoryEntity) returns (r: Result<()>)
      requires Valid()
      modifies this
      ensures Valid()
      ensures InsertedIfNew(old(State()), c).Ok? ==> r == Ok(()) && State() == InsertedIfNew(old(State()), c).value
      ensures InsertedIfNew(old(State()), c).Err? ==> r.Err? && State() == old(State())
      ensures c.id == 0 ==> r.Ok? && rows == (if HasName(old(rows), c.name) then old(rows)
                                              else old(rows) + [c.(id := old(lastId) + 1)])
    {
      InsertIfNewSpec(State(), c);
      var found := CategoryExists(c.name);
      if !found {
        r := InsertCategory(c);
      } else {
        r := Ok(());
      }
    }

    /** `updateCategory(c)`: replaces the row with c's id, if any. */
    method UpdateCategory(c: CategoryEntity)
      requires Valid()
      modifies this
      ensures Valid() && lastId == old(lastId)
      ensures rows == Tables.Replace(old(rows), c, Id)
    {
      Tables.ReplaceSpec(State(), c, Id);
      rows := Tables.Replace(rows, c, Id);
    }

    /** `deleteCategory(c)`: removes the row with c's id, if any. */
    method DeleteCategory(c: CategoryEntity)
      requires Valid()
      modifies this
      ensures Valid() && lastId == old(lastId)
      ensures rows == Tables.Remove(old(rows), Id, c.id)
      ensures forall j :: j != c.id ==> Tables.Find(rows, Id, j) == Tables.Find(old(rows), Id, j)
    {
      Tables.RemoveSpec(State(), Id, c.id);
      rows := Tables.Remove(rows, Id, c.id);
    }

    /** `deleteNonDefaultCategories()`: keeps exactly the default rows. */
    method DeleteNonDefaultCategories()
      requires Valid()
      modifies this
      ensures Valid() && lastId == old(lastId)
      ensures rows == Seqs.Filter(old(rows), IsDefaultRow)
      ensures forall c :: c in rows <==> c in old(rows) && c.isDefault
    {
      Tables.FilterAscending(rows, Id, IsDefaultRow);
      rows := Seqs.Filter(rows, IsDefaultRow);
    }
  }
}
