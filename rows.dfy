/** Arrays of ledger rows and the three ways the ledger edits them by id:
    `findIndex`/`find` on `x.id === id`, the replace-or-push of `upsert`
    (app.js:803-812) and of `addOrUpdateAlumno` (app.js:1048-1050), and the
    `filter(x => x.id !== id)` of `delRow` (app.js:518) and `deleteAlumno`
    (app.js:1079). */
module Rows {
  import opened Json

  /** Some row has the id. */
  predicate AnyHasId(rows: seq<Row>, id: string)
  {
    exists i :: 0 <= i < |rows| && HasId(rows[i], id)
  }

  /** `rows.findIndex(x => x.id === id)`: the first row with the id, or -1. */
  function FindIndex(rows: seq<Row>, id: string): (i: int)
    ensures -1 <= i < |rows|
    ensures i == -1 <==> !AnyHasId(rows, id)
    ensures 0 <= i ==> HasId(rows[i], id) && forall j :: 0 <= j < i ==> !HasId(rows[j], id)
  {
    if rows == [] then -1
    else if HasId(rows[0], id) then 0
    else
      var j := FindIndex(rows[1..], id);
      assert forall k :: 0 < k < |rows| ==> rows[k] == rows[1..][k - 1];
      if j == -1 then -1 else j + 1
  }

  /** The write of `upsert`: with an edit id (`editId` non-empty) the first
      row carrying it is replaced and an unknown id changes nothing; without
      one the row is pushed. */
  function Upserted(rows: seq<Row>, data: Row, editId: string): (r: seq<Row>)
    ensures editId == "" ==> |r| == |rows| + 1 && r[..|rows|] == rows && r[|rows|] == data
    ensures editId != "" && !AnyHasId(rows, editId) ==> r == rows
    ensures editId != "" && AnyHasId(rows, editId) ==>
      var i := FindIndex(rows, editId);
      |r| == |rows| && r[i] == data && forall j :: 0 <= j < |rows| && j != i ==> r[j] == rows[j]
  {
    if editId != "" then
      var i := FindIndex(rows, editId);
      if i >= 0 then rows[i := data] else rows
    else rows + [data]
  }

  /** The replace-or-push of `addOrUpdateAlumno`: the first row with the id is
      replaced, otherwise the row is pushed. */
  function ReplaceOrPush(rows: seq<Row>, row: Row, id: string): (r: seq<Row>)
    ensures AnyHasId(rows, id) ==>
      var i := FindIndex(rows, id);
      |r| == |rows| && r[i] == row && forall j :: 0 <= j < |rows| && j != i ==> r[j] == rows[j]
    ensures !AnyHasId(rows, id) ==> |r| == |rows| + 1 && r[..|rows|] == rows && r[|rows|] == row
  {
    var i := FindIndex(rows, id);
    if i >= 0 then rows[i := row] else rows + [row]
  }

  /** `rows.filter(x => x.id !== id)`. */
  function WithoutId(rows: seq<Row>, id: string): (r: seq<Row>)
    ensures |r| <= |rows|
    ensures forall x :: x in r <==> x in rows && !HasId(x, id)
  {
    if rows == [] then []
    else
      var rest := WithoutId(rows[..|rows| - 1], id);
      var last := rows[|rows| - 1];
      assert forall x :: x in rows <==> x in rows[..|rows| - 1] || x == last;
      if HasId(last, id) then rest else rest + [last]
  }

  /** The filter works row by row: filtering a concatenation filters each
      part, so the rows that remain keep their relative order. */
  lemma {:induction false} WithoutIdAppend(a: seq<Row>, b: seq<Row>, id: string)
    ensures WithoutId(a + b, id) == WithoutId(a, id) + WithoutId(b, id)
  {
    if b != [] {
      var b' := b[..|b| - 1];
      WithoutIdAppend(a, b', id);
      assert (a + b)[..|a + b| - 1] == a + b';
      assert (a + b)[|a + b| - 1] == b[|b| - 1];
    } else {
      assert a + b == a;
    }
  }

  /** After the filter no row carries the id. */
  lemma WithoutIdNoneLeft(rows: seq<Row>, id: string)
    ensures !AnyHasId(WithoutId(rows, id), id)
  {
    var r := WithoutId(rows, id);
    forall j | 0 <= j < |r| ensures !HasId(r[j], id) {
      assert r[j] in r;
    }
  }

  /** A single row is kept exactly when it does not carry the id. */
  lemma WithoutIdOne(x: Row, id: string)
    ensures WithoutId([x], id) == if HasId(x, id) then [] else [x]
  {
    assert [x][..0] == [];
  }

  /** With no row carrying the id, the filter changes nothing. */
  lemma {:induction false} WithoutIdAbsent(rows: seq<Row>, id: string)
    requires !AnyHasId(rows, id)
    ensures WithoutId(rows, id) == rows
  {
    if rows != [] {
      var init := rows[..|rows| - 1];
      assert !AnyHasId(init, id) by {
        forall i | 0 <= i < |init| ensures !HasId(init[i], id) {
          assert init[i] == rows[i];
        }
      }
      WithoutIdAbsent(init, id);
      assert !HasId(rows[|rows| - 1], id);
      assert init + [rows[|rows| - 1]] == rows;
    }
  }
}
