/** The persisted `tasks` table. `persist` + `flush` appends a row, `flush` after a
    change writes the changed row back, `remove` + `flush` deletes it. */
module TaskTable {
  import opened Wrappers
  import opened TaskEntity

  /** Every row has a generated id and no two rows share one. */
  ghost predicate UniqueIds(rows: seq<TaskData>) {
    && (forall i :: 0 <= i < |rows| ==> rows[i].id.Some?)
    && (forall i, j :: 0 <= i < j < |rows| ==> rows[i].id != rows[j].id)
  }

  /** Every row fits the columns and has a generated id, below the next one to hand
      out, and no two rows share an id. */
  ghost predicate WellFormed(rows: seq<TaskData>, nextId: int) {
    && (forall i :: 0 <= i < |rows| ==> rows[i].id.Some? && rows[i].id.value < nextId)
    && (forall i :: 0 <= i < |rows| ==> ColumnsFit(rows[i]))
    && (forall i, j :: 0 <= i < j < |rows| ==> rows[i].id != rows[j].id)
  }

  /** `UPDATE tasks ... WHERE id = :id` with the new field values. */
  function ReplaceById(rows: seq<TaskData>, d: TaskData): (r: seq<TaskData>)
    ensures |r| == |rows|
    ensures forall i :: 0 <= i < |rows| && rows[i].id != d.id ==> r[i] == rows[i]
  {
    seq(|rows|, i requires 0 <= i < |rows| => if rows[i].id == d.id then d else rows[i])
  }

  /** `DELETE FROM tasks WHERE id = :id`. */
  function RemoveById(rows: seq<TaskData>, id: int): (r: seq<TaskData>)
    ensures |r| <= |rows|
    ensures forall i :: 0 <= i < |r| ==> r[i] in rows && r[i].id != Some(id)
    ensures forall i :: 0 <= i < |rows| && rows[i].id != Some(id) ==> rows[i] in r
  {
    if rows == [] then []
    else (if rows[0].id == Some(id) then [] else [rows[0]]) + RemoveById(rows[1..], id)
  }

  /** The row with the given id, if any (ids are unique). */
  function FindById(rows: seq<TaskData>, id: int): (r: Option<TaskData>)
    ensures r.Some? ==> r.value in rows && r.value.id == Some(id)
    ensures r.None? ==> forall i :: 0 <= i < |rows| ==> rows[i].id != Some(id)
  {
    if rows == [] then None
    else if rows[0].id == Some(id) then Some(rows[0])
    else FindById(rows[1..], id)
  }

  lemma {:induction false} FindByIdAt(rows: seq<TaskData>, k: nat)
    requires UniqueIds(rows) && k < |rows|
    ensures FindById(rows, rows[k].id.value) == Some(rows[k])
  {
    if k > 0 {
      assert UniqueIds(rows[1..]);
      FindByIdAt(rows[1..], k - 1);
    }
  }

  /** Deleting a stored task removes exactly that row: the rows before and after it stay,
      in order. */
  lemma {:induction false} RemoveByIdExact(rows: seq<TaskData>, k: nat)
    requires UniqueIds(rows) && k < |rows|
    ensures RemoveById(rows, rows[k].id.value) == rows[..k] + rows[k + 1..]
  {
    var id := rows[k].id.value;
    if k == 0 {
      KeepsAllOthers(rows[1..], id);
    } else {
      var tail := rows[1..];
      assert UniqueIds(tail);
      assert tail[k - 1] == rows[k];
      RemoveByIdExact(tail, k - 1);
      assert rows[0].id != rows[k].id;
      RemoveKeepsHead(rows, id);
      SplitAround(rows, k);
    }
  }

  /** A first row with another id survives a delete, ahead of the rest. */
  lemma RemoveKeepsHead(rows: seq<TaskData>, id: int)
    requires rows != [] && rows[0].id != Some(id)
    ensures RemoveById(rows, id) == [rows[0]] + RemoveById(rows[1..], id)
  {
  }

  /** Cutting position k out of a sequence is keeping its head and cutting k - 1 out of
      its tail. */
  lemma SplitAround(rows: seq<TaskData>, k: nat)
    requires 0 < k < |rows|
    ensures rows[..k] + rows[k + 1..] == [rows[0]] + (rows[1..][..k - 1] + rows[1..][k..])
  {
    assert rows[1..][..k - 1] == rows[1..k];
    assert rows[1..][k..] == rows[k + 1..];
    assert rows[..k] == [rows[0]] + rows[1..k];
  }

  lemma {:induction false} KeepsAllOthers(rows: seq<TaskData>, id: int)
    requires forall i :: 0 <= i < |rows| ==> rows[i].id != Some(id)
    ensures RemoveById(rows, id) == rows
  {
    if rows != [] {
      KeepsAllOthers(rows[1..], id);
    }
  }

  /** Writing a stored task back replaces that row and no other. */
  lemma ReplaceByIdExact(rows: seq<TaskData>, nextId: int, k: nat, d: TaskData)
    requires WellFormed(rows, nextId) && k < |rows| && d.id == rows[k].id
    ensures ReplaceById(rows, d) == rows[k := d]
  {
  }

  class TaskTable {
    var rows: seq<TaskData>
    var nextId: int

    ghost predicate Valid()
      reads this
    {
      WellFormed(rows, nextId)
    }

    constructor ()
      ensures Valid() && rows == []
    {
      rows, nextId := [], 1;
    }

    /** `find($id)`: what the route's parameter converter loads. */
    function Find(id: int): Option<TaskData>
      reads this
    {
      FindById(rows, id)
    }

    /** `persist` + `flush`: a row that fits the columns is stored with the next
        generated id; one that does not is refused by the database (`None`), and no
        row is added. A refused INSERT may still have drawn a value from the id
        sequence. */
    method Insert(d: TaskData) returns (stored: Option<TaskData>)
      requires Valid()
      modifies this
      ensures Valid()
      ensures ColumnsFit(d) ==>
        && stored == Some(d.(id := Some(old(nextId))))
        && rows == old(rows) + [stored.value]
        && nextId > old(nextId)
      ensures !ColumnsFit(d) ==> stored.None? && rows == old(rows) && nextId >= old(nextId)
    {
      if !ColumnsFit(d) {
        nextId := nextId + 1;
        return None;
      }
      var row := d.(id := Some(nextId));
      rows := rows + [row];
      nextId := nextId + 1;
      stored := Some(row);
    }

    /** `flush` of a changed managed entity: the UPDATE succeeds (`true`) and replaces
        the row exactly when the new values fit the columns. */
    method Write(d: TaskData) returns (written: bool)
      requires Valid() && d.id.Some? && Find(d.id.value).Some?
      modifies this
      ensures Valid() && nextId == old(nextId)
      ensures written <==> ColumnsFit(d)
      ensures written ==> rows == ReplaceById(old(rows), d)
      ensures !written ==> rows == old(rows)
    {
      if !ColumnsFit(d) {
        return false;
      }
      rows := ReplaceById(rows, d);
      assert forall i :: 0 <= i < |rows| ==> rows[i].id == old(rows)[i].id;
      written := true;
    }

    /** `remove` + `flush`. */
    method Delete(id: int)
      requires Valid()
      modifies this
      ensures Valid()
      ensures rows == RemoveById(old(rows), id) && nextId == old(nextId)
    {
      RemoveKeepsWellFormed(rows, nextId, id);
      rows := RemoveById(rows, id);
    }
  }

  lemma {:induction false} RemoveKeepsWellFormed(rows: seq<TaskData>, nextId: int, id: int)
    requires WellFormed(rows, nextId)
    ensures WellFormed(RemoveById(rows, id), nextId)
  {
    if rows != [] {
      assert WellFormed(rows[1..], nextId);
      RemoveKeepsWellFormed(rows[1..], nextId, id);
      var rest := RemoveById(rows[1..], id);
      forall i | 0 <= i < |rest| ensures rest[i].id != rows[0].id {
        assert rest[i] in rows[1..];
      }
    }
  }
}
