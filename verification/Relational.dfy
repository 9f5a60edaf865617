/** Evaluation of joins over row sequences, and what the result contains. */
module Relational {
  import opened Wrappers

  function Filter<A(!new)>(rows: seq<A>, keep: A -> bool): (r: seq<A>)
    ensures forall a :: a in r <==> a in rows && keep(a)
  {
    if rows == [] then []
    else
      var rest := Filter(rows[1..], keep);
      assert forall a :: a in rows <==> a == rows[0] || a in rows[1..];
      if keep(rows[0]) then [rows[0]] + rest else rest
  }

  /** NULL padding: a left row without a partner appears once with NULL. */
  function Pad<A(!new), B(!new)>(a: A, partners: seq<B>): (r: seq<(A, Option<B>)>)
    ensures forall p :: p in r <==> p.0 == a && if partners == [] then p.1 == None else p.1.Some? && p.1.value in partners
  {
    if partners == [] then [(a, None)] else Spread(a, partners)
  }

  function Spread<A(!new), B(!new)>(a: A, partners: seq<B>): (r: seq<(A, Option<B>)>)
    ensures forall p :: p in r <==> p.0 == a && p.1.Some? && p.1.value in partners
  {
    if partners == [] then []
    else
      assert forall b :: b in partners <==> b == partners[0] || b in partners[1..];
      [(a, Some(partners[0]))] + Spread(a, partners[1..])
  }

  /** LEFT JOIN. */
  function LeftJoin<A(!new), B(!new)>(left: seq<A>, right: seq<B>, on: (A, B) -> bool): seq<(A, Option<B>)> {
    if left == [] then []
    else Pad(left[0], Filter(right, b => on(left[0], b))) + LeftJoin(left[1..], right, on)
  }

  /** Partners of a in the join: every matching right row, or NULL when there is none. */
  ghost predicate JoinsWith<A(!new), B(!new)>(a: A, b: Option<B>, right: seq<B>, on: (A, B) -> bool) {
    if b.Some? then b.value in right && on(a, b.value) else forall x: B :: x in right ==> !on(a, x)
  }

  lemma {:induction false} LeftJoinRows<A(!new), B(!new)>(left: seq<A>, right: seq<B>, on: (A, B) -> bool, a: A, b: Option<B>)
    ensures (a, b) in LeftJoin(left, right, on) <==> a in left && JoinsWith(a, b, right, on)
  {
    if left != [] {
      var l, rest := left[0], left[1..];
      LeftJoinRows(rest, right, on, a, b);
      var matching := Filter(right, x => on(l, x));
      assert matching == [] <==> forall x: B :: x in right ==> !on(l, x) by {
        if matching != [] { assert matching[0] in matching; }
      }
      assert a in left <==> a == l || a in rest;
    }
  }

  /** No left row is lost: it has at least one row in the join. */
  lemma LeftJoinTotal<A(!new), B(!new)>(left: seq<A>, right: seq<B>, on: (A, B) -> bool, a: A) returns (b: Option<B>)
    requires a in left
    ensures (a, b) in LeftJoin(left, right, on)
  {
    if exists x: B :: x in right && on(a, x) {
      var x: B :| x in right && on(a, x);
      b := Some(x);
    } else {
      b := None;
    }
    LeftJoinRows(left, right, on, a, b);
  }

  /** The distinct values of a column; NULL is not one. */
  function DistinctValues<T(==,!new)>(column: seq<Option<T>>): (r: set<T>)
    ensures forall v :: v in r <==> Some(v) in column
  {
    if column == [] then {}
    else
      assert forall v :: v in column <==> v == column[0] || v in column[1..];
      var rest := DistinctValues(column[1..]);
      if column[0].Some? then rest + {column[0].value} else rest
  }

  /** A selected column of every row. */
  function Column<A(!new), T(!new)>(rows: seq<A>, of: A -> Option<T>): (r: seq<Option<T>>)
    ensures |r| == |rows| && forall i | 0 <= i < |rows| :: r[i] == of(rows[i])
    ensures forall v :: v in r <==> exists a :: a in rows && of(a) == v
  {
    if rows == [] then []
    else
      var rest := Column(rows[1..], of);
      assert forall a :: a in rows <==> a == rows[0] || a in rows[1..];
      [of(rows[0])] + rest
  }
}
