/** ORDER BY: the selected rows, once each, by a column. */
module Ordering {
  import opened Schema
  import opened Scopes

  ghost predicate Ordered(ids: seq<Id>, rows: set<Id>, column: map<Id, int>)
    requires rows <= column.Keys
  {
    && NoDuplicates(ids)
    && (forall id :: id in ids <==> id in rows)
    && (forall i, j | 0 <= i < j < |ids| :: column[ids[i]] <= column[ids[j]])
  }

  method Least(rows: set<Id>, column: map<Id, int>) returns (id: Id)
    requires rows != {} && rows <= column.Keys
    ensures id in rows && forall j :: j in rows ==> column[id] <= column[j]
  {
    id :| id in rows;
    var left := rows - {id};
    while left != {}
      invariant left <= rows && id in rows
      invariant forall j :: j in rows && j !in left ==> column[id] <= column[j]
      decreases left
    {
      var j :| j in left;
      left := left - {j};
      if column[j] < column[id] {
        id := j;
      }
    }
  }

  method OrderBy(rows: set<Id>, column: map<Id, int>) returns (ids: seq<Id>)
    requires rows <= column.Keys
    ensures NoDuplicates(ids) && (forall id :: id in ids <==> id in rows)
    ensures forall i, j | 0 <= i < j < |ids| :: column[ids[i]] <= column[ids[j]]
  {
    var left := rows;
    ids := [];
    while left != {}
      invariant left <= rows && NoDuplicates(ids)
      invariant forall id :: id in ids <==> id in rows && id !in left
      invariant forall i, j | 0 <= i < j < |ids| :: column[ids[i]] <= column[ids[j]]
      invariant forall i, j | 0 <= i < |ids| && j in left :: column[ids[i]] <= column[j]
      decreases left
    {
      var id := Least(left, column);
      left := left - {id};
      ids := ids + [id];
    }
  }
}
