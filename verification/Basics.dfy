// Small shared vocabulary: optional values with Python's truthiness.
module Basics {

  datatype Option<+T> = None | Some(value: T)

  // A string field counts as present only when it is neither null nor empty.
  predicate Truthy(s: Option<string>) {
    s.Some? && s.value != ""
  }

  // The `a or b` of two optional strings.
  function Or(a: Option<string>, b: Option<string>): Option<string> {
    if Truthy(a) then a else b
  }

  // The result of a query read with scalar_one_or_none: more than one row raises.
  datatype Rows<+T> = NoRow | OneRow(row: T) | ManyRows

  ghost function ScalarOneOrNone<T>(ids: set<T>): (r: Rows<T>)
    ensures r.NoRow? <==> ids == {}
    ensures r.OneRow? ==> ids == {r.row}
    ensures forall id | id in ids :: ids == {id} ==> r == OneRow(id)
  {
    if ids == {} then NoRow
    else
      var id :| id in ids;
      if ids == {id} then OneRow(id) else ManyRows
  }

  // The code behind ScalarOneOrNone.
  method ReadScalar<T(==)>(ids: set<T>) returns (r: Rows<T>)
    ensures r == ScalarOneOrNone(ids)
  {
    if ids == {} {
      return NoRow;
    }
    var id :| id in ids;
    r := if ids == {id} then OneRow(id) else ManyRows;
  }

  lemma OnlyElement<T>(ids: set<T>, id: T)
    requires id in ids
    requires forall other :: other in ids ==> other == id
    ensures ScalarOneOrNone(ids) == OneRow(id)
  {
    assert ids == {id};
  }
}
