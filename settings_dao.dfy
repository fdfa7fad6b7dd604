/** `SettingsDao` over `settings_table`: the latest saved budget, and an
    insert that replaces a row with the same id. */
module SettingsDao {
  import opened Wrappers
  import opened Entities
  import Tables

  type BudgetTable = Tables.Table<Budget>

  function Id(b: Budget): int { b.id }

  /** `ORDER BY id DESC LIMIT 1`: the row with the largest id, or null. */
  function Latest(rows: seq<Budget>): (r: Option<Budget>)
    requires Tables.Ascending(rows, Id)
    ensures r.None? <==> rows == []
    ensures r.Some? ==> r.value in rows && forall i :: 0 <= i < |rows| ==> rows[i].id <= r.value.id
  {
    if rows == [] then None else Some(rows[|rows| - 1])
  }

  /** The table after `insert(budget)` with the REPLACE strategy: a row with
      the same id is overwritten in place, otherwise the row is added, and id
      0 takes the next sequence value. */
  function Stored(t: BudgetTable, b: Budget): (r: BudgetTable)
    requires Tables.Valid(t, Id)
    ensures Tables.Valid(r, Id)
  {
    var row := b.(id := Tables.NewId(t, b.id));
    if Tables.HasId(t.rows, Id, row.id) then
      Tables.ReplaceSpec(t, row, Id);
      Tables.Table(Tables.Replace(t.rows, row, Id), t.lastId)
    else
      Tables.InsertSpec(t, row, Id);
      Tables.Insert(t, row, Id).value
  }

  /** Replacing a row keeps the table size and stores the new values under
      that id. */
  lemma StoredReplaces(t: BudgetTable, b: Budget)
    requires Tables.Valid(t, Id) && b.id != 0 && Tables.HasId(t.rows, Id, b.id)
    ensures |Stored(t, b).rows| == |t.rows|
    ensures Tables.Find(Stored(t, b).rows, Id, b.id) == Some(b)
  {
    Tables.ReplaceSpec(t, b, Id);
  }

  /** Inserting with id 0 adds one row, under an id above every stored one,
      and that row is what `getBudget` returns next. */
  lemma StoredFresh(t: BudgetTable, b: Budget)
    requires Tables.Valid(t, Id) && b.id == 0
    ensures Stored(t, b).rows == t.rows + [b.(id := t.lastId + 1)]
    ensures forall i :: 0 <= i < |t.rows| ==> t.rows[i].id < Stored(t, b).rows[|t.rows|].id
    ensures Latest(Stored(t, b).rows) == Some(b.(id := t.lastId + 1))
  {
    Tables.FreshIdIsFree(t, Id);
    Tables.InsertFresh(t, b.(id := t.lastId + 1), Id);
  }

  /** Every row under another id is left as it was. */
  lemma StoredKeepsOthers(t: BudgetTable, b: Budget, j: int)
    requires Tables.Valid(t, Id) && j != Tables.NewId(t, b.id)
    ensures Tables.Find(Stored(t, b).rows, Id, j) == Tables.Find(t.rows, Id, j)
  {
    var row := b.(id := Tables.NewId(t, b.id));
    var u := Stored(t, b);
    var x := Tables.Find(u.rows, Id, j);
    var y := Tables.Find(t.rows, Id, j);
    if Tables.HasId(t.rows, Id, row.id) {
      Tables.ReplaceKeepsOthers(t.rows, row, Id, j);
    } else {
      Tables.InsertSpec(t, row, Id);
      Tables.InsertKeepsOthers(t, row, Id, j);
    }
  }

  class SettingsDao {
    var rows: seq<Budget>
    var lastId: int

    function State(): BudgetTable
      reads this
    {
      Tables.Table(rows, lastId)
    }

    ghost predicate Valid()
      reads this
    {
      Tables.Valid(State(), Id)
    }

    constructor ()
      ensures Valid() && rows == [] && lastId == 0
    {
      rows := [];
      lastId := 0;
    }

    /** `getBudget()`: the latest budget, or null when none was saved. */
    function GetBudget(): (r: Option<Budget>)
      reads this
      requires Valid()
      ensures r.None? <==> rows == []
      ensures r.Some? ==> r.value in rows && forall i :: 0 <= i < |rows| ==> rows[i].id <= r.value.id
    {
      Latest(rows)
    }

    /** `insert(budget)` with `OnConflictStrategy.REPLACE`. */
    method Insert(b: Budget)
      requires Valid()
      modifies this
      ensures Valid()
      ensures State() == Stored(old(State()), b)
      ensures b.id == 0 ==> rows == old(rows) + [b.(id := old(lastId) + 1)] && lastId == old(lastId) + 1
    {
      if b.id == 0 {
        StoredFresh(State(), b);
      }
      var u := Stored(State(), b);
      rows := u.rows;
      lastId := u.lastId;
    }
  }
}
