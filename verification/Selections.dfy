/** What a query returns, told by positions in the table: which rows, in which order, and which of them a
    page leaves. */
module Selections {
  import opened Wrappers
  import opened Rows
  import opened Queries
  import opened Orders

  /** One row comes before another: by the order, or by its position if they are tied. */
  predicate Precedes<Row>(rows: seq<Row>, before: (Row, Row) -> bool, i: nat, j: nat)
    requires i < |rows| && j < |rows|
  {
    before(rows[i], rows[j]) || (!before(rows[j], rows[i]) && i < j)
  }

  /** The positions at are those of all rows that satisfy the conditions, each once, in the order. */
  ghost predicate AreSelected<Row>(rows: seq<Row>, predicates: seq<Row -> bool>, before: (Row, Row) -> bool,
                                   at: seq<nat>)
  {
    && (forall k :: 0 <= k < |at| ==> at[k] < |rows|)
    && (forall i :: 0 <= i < |rows| ==> (i in at <==> forall p <- predicates :: p(rows[i])))
    && forall k, l :: 0 <= k < l < |at| ==> Precedes(rows, before, at[k], at[l])
  }

  function Least(a: nat, b: nat): nat {
    if a <= b then a else b
  }

  /** The end of a page that starts at the offset. */
  function PageEnd(n: nat, offset: nat, limit: Option<nat>): (end: nat)
    ensures Least(offset, n) <= end <= n
  {
    if limit.None? then n else Least(Least(offset, n) + limit.value, n)
  }

  // ----- positions are sorted as their rows are -----

  function Positions<Row>(rows: seq<Row>, predicates: seq<Row -> bool>, i: nat): (r: seq<nat>)
    requires i <= |rows|
    decreases |rows| - i
    ensures forall k :: 0 <= k < |r| ==> i <= r[k] < |rows|
    ensures forall k, l :: 0 <= k < l < |r| ==> r[k] < r[l]
  {
    if i == |rows| then []
    else if Satisfies(predicates, rows[i]) then [i] + Positions(rows, predicates, i + 1)
    else Positions(rows, predicates, i + 1)
  }

  function RowsAt<Row>(rows: seq<Row>, at: seq<nat>): (r: seq<Row>)
    requires forall k :: 0 <= k < |at| ==> at[k] < |rows|
    ensures |r| == |at| && forall k :: 0 <= k < |at| ==> r[k] == rows[at[k]]
  {
    seq(|at|, k requires 0 <= k < |at| => rows[at[k]])
  }

  function ByRow<Row>(rows: seq<Row>, before: (Row, Row) -> bool): (nat, nat) -> bool {
    (i: nat, j: nat) => i < |rows| && j < |rows| && before(rows[i], rows[j])
  }

  lemma RowsAtCons<Row>(rows: seq<Row>, i: nat, at: seq<nat>)
    requires i < |rows| && forall k :: 0 <= k < |at| ==> at[k] < |rows|
    ensures RowsAt(rows, [i] + at) == [rows[i]] + RowsAt(rows, at)
  {}

  lemma {:induction false} MatchingAt<Row>(rows: seq<Row>, predicates: seq<Row -> bool>, i: nat)
    requires i <= |rows|
    ensures RowsAt(rows, Positions(rows, predicates, i)) == Matching(rows[i..], predicates)
    decreases |rows| - i
  {
    if i < |rows| {
      MatchingAt(rows, predicates, i + 1);
      assert rows[i..][1..] == rows[i + 1..] && rows[i..][0] == rows[i];
      RowsAtCons(rows, i, Positions(rows, predicates, i + 1));
      var rest := Matching(rows[i + 1..], predicates);
      assert [] + rest == rest;
    }
  }

  lemma {:induction false} PositionIn<Row>(rows: seq<Row>, predicates: seq<Row -> bool>, i: nat, j: nat)
    requires i <= j < |rows|
    ensures j in Positions(rows, predicates, i) <==> forall p <- predicates :: p(rows[j])
    decreases j - i
  {
    if i < j {
      PositionIn(rows, predicates, i + 1, j);
    } else {
      assert Satisfies(predicates, rows[j]) <==> forall p <- predicates :: p(rows[j]);
    }
  }

  ghost predicate InOrder<Row>(rows: seq<Row>, before: (Row, Row) -> bool, at: seq<nat>) {
    && (forall k :: 0 <= k < |at| ==> at[k] < |rows|)
    && forall k, l :: 0 <= k < l < |at| ==> Precedes(rows, before, at[k], at[l])
  }

  lemma {:induction false} InsertRowsAt<Row>(rows: seq<Row>, before: (Row, Row) -> bool, i: nat, at: seq<nat>)
    requires i < |rows| && forall k :: 0 <= k < |at| ==> at[k] < |rows|
    ensures var r := Insert<nat>(i, at, ByRow(rows, before));
            && (forall k :: 0 <= k < |r| ==> r[k] < |rows|)
            && RowsAt(rows, r) == Insert(rows[i], RowsAt(rows, at), before)
  {
    if at == [] || !before(rows[at[0]], rows[i]) {
      RowsAtCons(rows, i, at);
    } else {
      InsertRowsAt(rows, before, i, at[1..]);
      assert RowsAt(rows, at)[1..] == RowsAt(rows, at[1..]);
      RowsAtCons(rows, at[0], Insert<nat>(i, at[1..], ByRow(rows, before)));
    }
  }

  lemma InOrderCons<Row>(rows: seq<Row>, before: (Row, Row) -> bool, i: nat, at: seq<nat>)
    requires i < |rows| && InOrder(rows, before, at)
    requires forall j <- at :: Precedes(rows, before, i, j)
    ensures InOrder(rows, before, [i] + at)
  {}

  lemma {:induction false} InsertInOrder<Row(!new)>(rows: seq<Row>, before: (Row, Row) -> bool, i: nat, at: seq<nat>)
    requires WeakOrder(before) && i < |rows| && InOrder(rows, before, at) && forall j <- at :: i < j
    ensures InOrder(rows, before, Insert<nat>(i, at, ByRow(rows, before)))
  {
    if at == [] || !before(rows[at[0]], rows[i]) {
      forall j <- at ensures Precedes(rows, before, i, j) {
        var k :| 0 <= k < |at| && at[k] == j;
        assert k > 0 ==> Precedes(rows, before, at[0], at[k]);
      }
      InOrderCons(rows, before, i, at);
    } else {
      var rest := Insert<nat>(i, at[1..], ByRow(rows, before));
      assert forall j <- at[1..] :: j in at;
      InsertInOrder(rows, before, i, at[1..]);
      forall j <- rest ensures Precedes(rows, before, at[0], j) {
        InsertIn<nat>(i, at[1..], ByRow(rows, before), j);
        if j != i {
          var k :| 0 <= k < |at[1..]| && at[1..][k] == j;
          assert at[k + 1] == j;
        }
      }
      InOrderCons(rows, before, at[0], rest);
    }
  }

  lemma {:induction false} SortAt<Row(!new)>(rows: seq<Row>, before: (Row, Row) -> bool, at: seq<nat>)
    requires WeakOrder(before)
    requires forall k :: 0 <= k < |at| ==> at[k] < |rows|
    requires forall k, l :: 0 <= k < l < |at| ==> at[k] < at[l]
    ensures InOrder(rows, before, Sort<nat>(at, ByRow(rows, before)))
    ensures RowsAt(rows, Sort<nat>(at, ByRow(rows, before))) == Sort(RowsAt(rows, at), before)
  {
    if at != [] {
      SortAt(rows, before, at[1..]);
      var rest := Sort<nat>(at[1..], ByRow(rows, before));
      forall j <- rest ensures at[0] < j {
        SortIn<nat>(at[1..], ByRow(rows, before), j);
        var k :| 0 <= k < |at[1..]| && at[1..][k] == j;
        assert at[k + 1] == j;
      }
      InsertInOrder(rows, before, at[0], rest);
      InsertRowsAt(rows, before, at[0], rest);
      assert RowsAt(rows, at)[1..] == RowsAt(rows, at[1..]);
    }
  }

  /** A query returns the page of the rows that satisfy all of its conditions, in its order, tied rows as
      they are in the table. */
  lemma SelectedIs<Row(!new)>(rows: seq<Row>, s: Selection<Row>) returns (at: seq<nat>)
    requires WeakOrder(s.before)
    ensures AreSelected(rows, s.predicates, s.before, at)
    ensures IsPage(Selected(rows, s), rows, at, s.offset, s.limit)
  {
    var positions := Positions(rows, s.predicates, 0);
    MatchingAt(rows, s.predicates, 0);
    assert rows[0..] == rows;
    SortAt(rows, s.before, positions);
    at := Sort<nat>(positions, ByRow(rows, s.before));
    forall i | 0 <= i < |rows| ensures i in at <==> forall p <- s.predicates :: p(rows[i]) {
      SortIn<nat>(positions, ByRow(rows, s.before), i);
      PositionIn(rows, s.predicates, 0, i);
    }
    PageIs(RowsAt(rows, at), s.offset, s.limit);
  }

  /** The rows are those at the positions from the offset on, up to the limit. */
  ghost predicate IsPage<Row>(page: seq<Row>, rows: seq<Row>, at: seq<nat>, offset: nat, limit: Option<nat>)
    requires forall k :: 0 <= k < |at| ==> at[k] < |rows|
  {
    var first := Least(offset, |at|);
    && |page| == PageEnd(|at|, offset, limit) - first
    && forall k :: 0 <= k < |page| ==> page[k] == rows[at[first + k]]
  }

  lemma PageIs<Row>(rows: seq<Row>, offset: nat, limit: Option<nat>)
    ensures Page(rows, offset, limit) == rows[Least(offset, |rows|)..PageEnd(|rows|, offset, limit)]
  {}

  /** Without an order the rows come as they are in the table. */
  lemma UnorderedKeepsTableOrder<Row(!new)>(rows: seq<Row>, s: Selection<Row>) returns (at: seq<nat>)
    requires s.before == Unordered
    ensures AreSelected(rows, s.predicates, s.before, at)
    ensures IsPage(Selected(rows, s), rows, at, s.offset, s.limit)
    ensures forall k, l :: 0 <= k < l < |at| ==> at[k] < at[l]
  {
    at := SelectedIs(rows, s);
    forall k, l | 0 <= k < l < |at| ensures at[k] < at[l] {
      assert Precedes(rows, s.before, at[k], at[l]);
    }
  }
}
