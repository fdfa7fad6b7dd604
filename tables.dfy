/** A Room table with an `INTEGER PRIMARY KEY AUTOINCREMENT` column, as
    values: the rows in ascending id order (the order a plain `SELECT *`
    scans them in) and the largest id ever used (SQLite's
    `sqlite_sequence` entry, which `DELETE` does not lower). */
module Tables {
  import opened Wrappers
  import Seqs

  datatype Table<T> = Table(rows: seq<T>, lastId: int)

  predicate Ascending<T>(rows: seq<T>, id: T -> int) {
    forall i, j :: 0 <= i < j < |rows| ==> id(rows[i]) < id(rows[j])
  }

  /** Ids ascend and none exceeds the sequence value. */
  predicate Valid<T>(t: Table<T>, id: T -> int) {
    Ascending(t.rows, id) && forall i :: 0 <= i < |t.rows| ==> id(t.rows[i]) <= t.lastId
  }

  predicate HasId<T>(rows: seq<T>, id: T -> int, k: int) {
    exists i :: 0 <= i < |rows| && id(rows[i]) == k
  }

  /** `SELECT * ... WHERE id = :k`: the row with that id, or null. */
  function Find<T>(rows: seq<T>, id: T -> int, k: int): (r: Option<T>)
    ensures r.Some? ==> r.value in rows && id(r.value) == k
    ensures r.None? <==> !HasId(rows, id, k)
  {
    if rows == [] then None
    else if id(rows[0]) == k then Some(rows[0])
    else
      var r := Find(rows[1..], id, k);
      assert HasId(rows, id, k) ==> HasId(rows[1..], id, k) by {
        if HasId(rows, id, k) {
          var i :| 0 <= i < |rows| && id(rows[i]) == k;
          assert rows[1..][i - 1] == rows[i];
        }
      }
      assert HasId(rows[1..], id, k) ==> HasId(rows, id, k) by {
        if HasId(rows[1..], id, k) {
          var i :| 0 <= i < |rows[1..]| && id(rows[1..][i]) == k;
          assert rows[i + 1] == rows[1..][i];
        }
      }
      r
  }

  /** The id a row is stored under: 0 asks for the next sequence value. */
  function NewId<T>(t: Table<T>, requested: int): int {
    if requested == 0 then t.lastId + 1 else requested
  }

  /** The next sequence value never clashes with a stored row. */
  lemma FreshIdIsFree<T>(t: Table<T>, id: T -> int)
    requires Valid(t, id)
    ensures !HasId(t.rows, id, NewId(t, 0))
  {
  }

  /** Places `row` among rows in ascending id order. */
  function InsertSorted<T>(rows: seq<T>, row: T, id: T -> int): (r: seq<T>)
    ensures |r| == |rows| + 1
    ensures multiset(r) == multiset(rows) + multiset{row}
  {
    if rows == [] || id(row) < id(rows[0]) then [row] + rows
    else
      var r := [rows[0]] + InsertSorted(rows[1..], row, id);
      assert rows == [rows[0]] + rows[1..];
      r
  }

  lemma {:induction false} InsertSortedAscending<T>(rows: seq<T>, row: T, id: T -> int)
    requires Ascending(rows, id) && !HasId(rows, id, id(row))
    ensures Ascending(InsertSorted(rows, row, id), id)
  {
    if rows != [] && id(row) >= id(rows[0]) {
      assert id(row) != id(rows[0]);
      assert !HasId(rows[1..], id, id(row)) by {
        forall i | 0 <= i < |rows[1..]| ensures id(rows[1..][i]) != id(row) {
          assert rows[1..][i] == rows[i + 1];
        }
      }
      InsertSortedAscending(rows[1..], row, id);
      var r := InsertSorted(rows, row, id);
      var m := InsertSorted(rows[1..], row, id);
      assert r == [rows[0]] + m;
      forall j | 0 < j < |r| ensures id(r[0]) < id(r[j]) {
        assert r[j] == m[j - 1];
        assert m[j - 1] in multiset(rows[1..]) + multiset{row};
        if m[j - 1] != row {
          assert m[j - 1] in rows[1..];
          var k :| 0 <= k < |rows[1..]| && rows[1..][k] == m[j - 1];
          assert rows[k + 1] == m[j - 1];
        }
      }
    }
  }

  /** A row whose id exceeds every stored id goes last. */
  lemma {:induction false} InsertSortedLast<T>(rows: seq<T>, row: T, id: T -> int)
    requires forall i :: 0 <= i < |rows| ==> id(rows[i]) < id(row)
    ensures InsertSorted(rows, row, id) == rows + [row]
  {
    if rows != [] {
      InsertSortedLast(rows[1..], row, id);
      assert rows == [rows[0]] + rows[1..];
    }
  }

  /** Inserting with id 0 appends the row under the next sequence value,
      which becomes the new sequence value. */
  lemma InsertFresh<T>(t: Table<T>, row: T, id: T -> int)
    requires Valid(t, id) && id(row) == NewId(t, 0)
    ensures Insert(t, row, id) == Ok(Table(t.rows + [row], id(row)))
  {
    InsertSortedLast(t.rows, row, id);
  }

  /** `@Insert` with the default ABORT conflict strategy: a row whose id
      is already stored raises a constraint violation and changes nothing. */
  function Insert<T>(t: Table<T>, row: T, id: T -> int): (r: Result<Table<T>>)
    ensures r.Err? <==> HasId(t.rows, id, id(row))
    ensures r.Err? ==> r.error == ConstraintViolation
  {
    if HasId(t.rows, id, id(row)) then Err(ConstraintViolation)
    else Ok(Table(InsertSorted(t.rows, row, id), if id(row) > t.lastId then id(row) else t.lastId))
  }

  /** A successful insert adds exactly the new row, keeps the table valid,
      and makes the row findable by its id. */
  lemma InsertSpec<T>(t: Table<T>, row: T, id: T -> int)
    requires Valid(t, id) && !HasId(t.rows, id, id(row))
    ensures Insert(t, row, id).Ok?
    ensures Valid(Insert(t, row, id).value, id)
    ensures multiset(Insert(t, row, id).value.rows) == multiset(t.rows) + multiset{row}
    ensures |Insert(t, row, id).value.rows| == |t.rows| + 1
    ensures Find(Insert(t, row, id).value.rows, id, id(row)) == Some(row)
    ensures id(row) <= Insert(t, row, id).value.lastId
  {
    var u := Insert(t, row, id).value;
    InsertSortedAscending(t.rows, row, id);
    forall i | 0 <= i < |u.rows| ensures id(u.rows[i]) <= u.lastId {
      assert u.rows[i] in multiset(t.rows) + multiset{row};
      if u.rows[i] != row {
        assert u.rows[i] in t.rows;
      }
    }
    assert row in u.rows by {
      assert row in multiset(u.rows);
    }
    var f := Find(u.rows, id, id(row));
    assert HasId(u.rows, id, id(row)) by {
      var i :| 0 <= i < |u.rows| && u.rows[i] == row;
    }
    UniqueById(u.rows, id, f.value, row);
  }

  /** In an ascending table two rows with the same id are the same row. */
  lemma UniqueById<T>(rows: seq<T>, id: T -> int, a: T, b: T)
    requires Ascending(rows, id) && a in rows && b in rows && id(a) == id(b)
    ensures a == b
  {
    var i :| 0 <= i < |rows| && rows[i] == a;
    var j :| 0 <= j < |rows| && rows[j] == b;
    if i < j {
      assert id(rows[i]) < id(rows[j]);
    } else if j < i {
      assert id(rows[j]) < id(rows[i]);
    }
  }

  /** `@Update`: the row with the same id as `row` is replaced; when there is
      none, nothing changes. */
  function Replace<T>(rows: seq<T>, row: T, id: T -> int): (r: seq<T>)
    ensures |r| == |rows|
    ensures forall i :: 0 <= i < |rows| ==> r[i] == if id(rows[i]) == id(row) then row else rows[i]
  {
    if rows == [] then []
    else [if id(rows[0]) == id(row) then row else rows[0]] + Replace(rows[1..], row, id)
  }

  /** An update keeps the table valid and the set of ids, and changes only
      the target row. */
  lemma ReplaceSpec<T>(t: Table<T>, row: T, id: T -> int)
    requires Valid(t, id)
    ensures Valid(Table(Replace(t.rows, row, id), t.lastId), id)
    ensures HasId(t.rows, id, id(row)) ==> Find(Replace(t.rows, row, id), id, id(row)) == Some(row)
    ensures !HasId(t.rows, id, id(row)) ==> Replace(t.rows, row, id) == t.rows
  {
    var r := Replace(t.rows, row, id);
    ReplaceIds(t.rows, row, id);
    ReplaceValid(t, row, id);
    if HasId(t.rows, id, id(row)) {
      var i :| 0 <= i < |t.rows| && id(t.rows[i]) == id(row);
      assert r[i] == row;
      assert HasId(r, id, id(row));
      UniqueById(r, id, Find(r, id, id(row)).value, r[i]);
    } else {
      assert forall i :: 0 <= i < |r| ==> r[i] == t.rows[i];
    }
  }

  /** An update keeps every position's id. */
  lemma ReplaceIds<T>(rows: seq<T>, row: T, id: T -> int)
    ensures forall i :: 0 <= i < |rows| ==> id(Replace(rows, row, id)[i]) == id(rows[i])
  {
    var r := Replace(rows, row, id);
    forall i | 0 <= i < |rows| ensures id(r[i]) == id(rows[i]) {
      assert r[i] == if id(rows[i]) == id(row) then row else rows[i];
    }
  }

  lemma ReplaceValid<T>(t: Table<T>, row: T, id: T -> int)
    requires Valid(t, id)
    requires forall i :: 0 <= i < |t.rows| ==> id(Replace(t.rows, row, id)[i]) == id(t.rows[i])
    ensures Valid(Table(Replace(t.rows, row, id), t.lastId), id)
  {
    var r := Replace(t.rows, row, id);
    forall i, j | 0 <= i < j < |r| ensures id(r[i]) < id(r[j]) {
      assert id(t.rows[i]) < id(t.rows[j]);
    }
  }

  /** An update leaves the rows under every other id as they were. */
  lemma ReplaceKeepsOthers<T>(rows: seq<T>, row: T, id: T -> int, j: int)
    requires Ascending(rows, id) && j != id(row)
    ensures Find(Replace(rows, row, id), id, j) == Find(rows, id, j)
  {
    var r := Replace(rows, row, id);
    var a := Find(r, id, j);
    var b := Find(rows, id, j);
    assert forall i :: 0 <= i < |r| ==> id(r[i]) == id(rows[i]);
    assert Ascending(r, id);
    if a.Some? {
      var i :| 0 <= i < |r| && r[i] == a.value;
      assert r[i] == rows[i];
      assert HasId(rows, id, j);
      UniqueById(rows, id, rows[i], b.value);
    }
    if b.Some? {
      var i :| 0 <= i < |rows| && rows[i] == b.value;
      assert r[i] == rows[i];
      assert HasId(r, id, j);
    }
  }

  /** A successful insert leaves the rows under every other id as they were. */
  lemma InsertKeepsOthers<T>(t: Table<T>, row: T, id: T -> int, j: int)
    requires Valid(t, id) && !HasId(t.rows, id, id(row)) && j != id(row)
    ensures Find(Insert(t, row, id).value.rows, id, j) == Find(t.rows, id, j)
  {
    InsertSpec(t, row, id);
    var u := Insert(t, row, id).value.rows;
    var a := Find(u, id, j);
    var b := Find(t.rows, id, j);
    if a.Some? {
      assert a.value in multiset(t.rows) + multiset{row};
      assert a.value in t.rows;
      var i :| 0 <= i < |t.rows| && t.rows[i] == a.value;
      assert HasId(t.rows, id, j);
      UniqueById(t.rows, id, a.value, b.value);
    }
    if b.Some? {
      assert b.value in multiset(u);
      var i :| 0 <= i < |u| && u[i] == b.value;
      assert HasId(u, id, j);
    }
  }

  /** `@Delete`: removes the row whose id is `k`. */
  function Remove<T>(rows: seq<T>, id: T -> int, k: int): (r: seq<T>)
    ensures forall i :: 0 <= i < |r| ==> r[i] in rows && id(r[i]) != k
    ensures forall i :: 0 <= i < |rows| && id(rows[i]) != k ==> rows[i] in r
  {
    Seqs.Filter(rows, (x: T) => id(x) != k)
  }

  lemma {:induction false} FilterAscending<T>(rows: seq<T>, id: T -> int, p: T -> bool)
    requires Ascending(rows, id)
    ensures Ascending(Seqs.Filter(rows, p), id)
  {
    if rows != [] {
      FilterAscending(rows[1..], id, p);
      var r := Seqs.Filter(rows, p);
      if p(rows[0]) {
        forall j | 0 < j < |r| ensures id(r[0]) < id(r[j]) {
          assert r[j] in rows[1..];
        }
      }
    }
  }

  /** A delete keeps the table valid, drops exactly the target id, and
      keeps every other row. */
  lemma RemoveSpec<T>(t: Table<T>, id: T -> int, k: int)
    requires Valid(t, id)
    ensures Valid(Table(Remove(t.rows, id, k), t.lastId), id)
    ensures !HasId(Remove(t.rows, id, k), id, k)
    ensures forall j :: j != k ==> Find(Remove(t.rows, id, k), id, j) == Find(t.rows, id, j)
  {
    var r := Remove(t.rows, id, k);
    FilterAscending(t.rows, id, (x: T) => id(x) != k);
    forall j | j != k ensures Find(r, id, j) == Find(t.rows, id, j) {
      var a := Find(r, id, j);
      var b := Find(t.rows, id, j);
      if a.Some? {
        var i :| 0 <= i < |t.rows| && t.rows[i] == a.value;
        assert HasId(t.rows, id, j);
      }
      if b.Some? {
        assert b.value in r;
        assert HasId(r, id, j) by {
          var i :| 0 <= i < |r| && r[i] == b.value;
        }
        assert a.value in t.rows;
        UniqueById(t.rows, id, a.value, b.value);
      }
    }
  }

  /** The row a `SELECT ... LIMIT 1` in scan order returns: the first row
      satisfying `p`. */
  function First<T>(rows: seq<T>, p: T -> bool): (r: Option<T>)
    ensures r.Some? ==> r.value in rows && p(r.value)
    ensures r.None? ==> forall i :: 0 <= i < |rows| ==> !p(rows[i])
  {
    if rows == [] then None
    else if p(rows[0]) then Some(rows[0])
    else First(rows[1..], p)
  }
}
