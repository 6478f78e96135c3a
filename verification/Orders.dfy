/** The order of a query: sorting is stable, and choosing rows commutes with it. */
module Orders {
  import opened Rows
  import opened Joins
  import opened Queries

  /** A strict order whose ties are transitive, as ordering by columns is. */
  ghost predicate WeakOrder<Row(!new)>(before: (Row, Row) -> bool) {
    && (forall a, b :: before(a, b) ==> !before(b, a))
    && (forall a, b, c :: before(a, b) ==> before(a, c) || before(c, b))
  }

  ghost predicate SortedBy<Row>(rows: seq<Row>, before: (Row, Row) -> bool) {
    forall i, j :: 0 <= i < j < |rows| ==> !before(rows[j], rows[i])
  }

  /** Breaking the ties of one such order by another gives such an order. */
  lemma ThenIsWeakOrder<Row(!new)>(before: (Row, Row) -> bool, more: (Row, Row) -> bool)
    requires WeakOrder(before) && WeakOrder(more)
    ensures WeakOrder(Then(before, more))
  {
    var both := Then(before, more);
    forall a, b, c | both(a, b) ensures both(a, c) || both(c, b) {
      assert before(a, b) ==> before(a, c) || before(c, b);
      assert before(c, a) ==> before(c, b) || before(b, a);
      assert before(b, c) ==> before(b, a) || before(a, c);
    }
  }

  /** Rows that come no earlier than the first of a sorted sequence. */
  lemma NoneBefore<Row(!new)>(r: Row, rows: seq<Row>, before: (Row, Row) -> bool, x: Row)
    requires WeakOrder(before) && SortedBy(rows, before)
    requires x in rows && !before(rows[0], r)
    ensures !before(x, r)
  {
    var j :| 0 <= j < |rows| && rows[j] == x;
    assert j > 0 ==> !before(rows[j], rows[0]);
  }

  lemma {:induction false} InsertSorted<Row(!new)>(r: Row, rows: seq<Row>, before: (Row, Row) -> bool)
    requires WeakOrder(before) && SortedBy(rows, before)
    ensures SortedBy(Insert(r, rows, before), before)
  {
    if rows == [] {
    } else if !before(rows[0], r) {
      forall x <- rows ensures !before(x, r) {
        NoneBefore(r, rows, before, x);
      }
    } else {
      var rest := Insert(r, rows[1..], before);
      InsertSorted(r, rows[1..], before);
      forall j | 0 <= j < |rest| ensures !before(rest[j], rows[0]) {
        InsertIn(r, rows[1..], before, rest[j]);
        assert rest[j] in rest;
      }
    }
  }

  lemma {:induction false} SortIsSorted<Row(!new)>(rows: seq<Row>, before: (Row, Row) -> bool)
    requires WeakOrder(before)
    ensures SortedBy(Sort(rows, before), before)
  {
    if rows != [] {
      SortIsSorted(rows[1..], before);
      InsertSorted(rows[0], Sort(rows[1..], before), before);
    }
  }

  lemma {:induction false} KeepAppend<T>(a: seq<T>, b: seq<T>, p: T -> bool)
    ensures Keep(a + b, p) == Keep(a, p) + Keep(b, p)
    decreases |b|
  {
    if b == [] {
      assert a + b == a;
    } else {
      var n := |b| - 1;
      KeepAppend(a, b[..n], p);
      assert (a + b)[..|a + b| - 1] == a + b[..n];
    }
  }

  lemma KeepCons<T>(x: T, s: seq<T>, p: T -> bool)
    ensures Keep([x] + s, p) == if p(x) then [x] + Keep(s, p) else Keep(s, p)
  {
    KeepAppend([x], s, p);
    assert Keep([x], p) == if p(x) then [x] else [];
  }

  lemma KeepInsertFirst<Row(!new)>(r: Row, rows: seq<Row>, before: (Row, Row) -> bool, p: Row -> bool)
    requires WeakOrder(before) && SortedBy(rows, before) && rows != [] && !before(rows[0], r)
    ensures Keep([r] + rows, p) == if p(r) then Insert(r, Keep(rows, p), before) else Keep(rows, p)
  {
    var kept := Keep(rows, p);
    KeepCons(r, rows, p);
    if kept != [] {
      KeepIn(rows, p, kept[0]);
      NoneBefore(r, rows, before, kept[0]);
    }
  }

  lemma InsertCons<Row>(r: Row, x: Row, rows: seq<Row>, before: (Row, Row) -> bool)
    requires before(x, r)
    ensures Insert(r, [x] + rows, before) == [x] + Insert(r, rows, before)
  {
    assert ([x] + rows)[1..] == rows;
  }

  lemma KeepInsertLater<Row>(r: Row, x: Row, rows: seq<Row>, before: (Row, Row) -> bool, p: Row -> bool)
    requires before(x, r)
    requires Keep(Insert(r, rows, before), p) == if p(r) then Insert(r, Keep(rows, p), before) else Keep(rows, p)
    ensures Keep(Insert(r, [x] + rows, before), p) ==
            if p(r) then Insert(r, Keep([x] + rows, p), before) else Keep([x] + rows, p)
  {
    InsertCons(r, x, rows, before);
    InsertCons(r, x, Keep(rows, p), before);
    KeepCons(x, rows, p);
    KeepCons(x, Insert(r, rows, before), p);
  }

  lemma {:induction false} KeepInsert<Row(!new)>(r: Row, rows: seq<Row>, before: (Row, Row) -> bool, p: Row -> bool)
    requires WeakOrder(before) && SortedBy(rows, before)
    ensures Keep(Insert(r, rows, before), p) == if p(r) then Insert(r, Keep(rows, p), before) else Keep(rows, p)
  {
    if rows == [] {
    } else if !before(rows[0], r) {
      KeepInsertFirst(r, rows, before, p);
    } else {
      KeepInsert(r, rows[1..], before, p);
      KeepInsertLater(r, rows[0], rows[1..], before, p);
      assert rows == [rows[0]] + rows[1..];
    }
  }

  /** Choosing rows before sorting gives what choosing them afterwards gives: sorting is stable. */
  lemma {:induction false} KeepSort<Row(!new)>(rows: seq<Row>, before: (Row, Row) -> bool, p: Row -> bool)
    requires WeakOrder(before)
    ensures Keep(Sort(rows, before), p) == Sort(Keep(rows, p), before)
  {
    if rows != [] {
      KeepSort(rows[1..], before, p);
      SortIsSorted(rows[1..], before);
      KeepInsert(rows[0], Sort(rows[1..], before), before, p);
      KeepCons(rows[0], rows[1..], p);
      assert rows == [rows[0]] + rows[1..];
      var rest := Keep(rows[1..], p);
      assert Keep(rows, p) == if p(rows[0]) then [rows[0]] + rest else rest;
      if p(rows[0]) {
        assert ([rows[0]] + rest)[1..] == rest;
      }
    }
  }

  lemma {:induction false} MatchingKeep<Row(!new)>(rows: seq<Row>, predicates: seq<Row -> bool>, p: Row -> bool)
    ensures Matching(rows, predicates + [p]) == Keep(Matching(rows, predicates), p)
  {
    if rows != [] {
      MatchingKeep(rows[1..], predicates, p);
      AndSatisfies(predicates, [p]);
      OneSatisfies(p);
      KeepAppend(if Satisfies(predicates, rows[0]) then [rows[0]] else [], Matching(rows[1..], predicates), p);
    }
  }

  /** A query without a page that has one more condition returns the rows of the query that meet it. */
  lemma SelectedKeep<Row(!new)>(rows: seq<Row>, s: Selection<Row>, p: Row -> bool)
    requires Unpaged(s) && WeakOrder(s.before)
    ensures Selected(rows, And(s, p)) == Keep(Selected(rows, s), p)
  {
    MatchingKeep(rows, s.predicates, p);
    KeepSort(Matching(rows, s.predicates), s.before, p);
  }

  // ----- ordering by one order and then by another -----

  /** An order that has nothing to say about where a row goes changes nothing. */
  lemma {:induction false} InsertSame<Row>(x: Row, rows: seq<Row>, before: (Row, Row) -> bool, more: (Row, Row) -> bool)
    requires forall z <- rows :: !more(z, x)
    ensures Insert(x, rows, before) == Insert(x, rows, Then(before, more))
  {
    if rows != [] {
      assert rows[0] in rows;
      InsertSame(x, rows[1..], before, more);
    }
  }

  /** Rows that are not tied can be inserted in either sequence. */
  lemma {:induction false} InsertCommutes<Row(!new)>(x: Row, y: Row, rows: seq<Row>, before: (Row, Row) -> bool)
    requires WeakOrder(before) && before(y, x)
    ensures Insert(x, Insert(y, rows, before), before) == Insert(y, Insert(x, rows, before), before)
  {
    if rows == [] {
      assert [y][1..] == [];
    } else if !before(rows[0], y) {
      assert ([y] + rows)[1..] == rows;
      InsertedFirst(x, y, rows, before);
    } else {
      assert before(rows[0], x);
      InsertCommutes(x, y, rows[1..], before);
      var first := rows[0];
      InsertCons(x, first, Insert(y, rows[1..], before), before);
      InsertCons(y, first, Insert(x, rows[1..], before), before);
    }
  }

  lemma InsertedFirst<Row>(x: Row, y: Row, rows: seq<Row>, before: (Row, Row) -> bool)
    requires rows != [] && !before(rows[0], y) && !before(x, y)
    ensures Insert(y, Insert(x, rows, before), before) == [y] + Insert(x, rows, before)
  {}

  lemma {:induction false} SortInserted<Row(!new)>(x: Row, rows: seq<Row>, before: (Row, Row) -> bool,
                                                   more: (Row, Row) -> bool)
    requires WeakOrder(before) && WeakOrder(more) && SortedBy(rows, more)
    ensures Sort(Insert(x, rows, more), before) == Insert(x, Sort(rows, before), Then(before, more))
    decreases |rows|, 0
  {
    if rows == [] {
      assert [x][1..] == [];
    } else if !more(rows[0], x) {
      forall z <- Sort(rows, before) ensures !more(z, x) {
        SortIn(rows, before, z);
        NoneBefore(x, rows, more, z);
      }
      InsertSame(x, Sort(rows, before), before, more);
      assert ([x] + rows)[1..] == rows;
    } else {
      SortInsertedLater(x, rows[0], rows[1..], before, more);
      assert rows == [rows[0]] + rows[1..];
    }
  }

  lemma {:induction false} SortInsertedLater<Row(!new)>(x: Row, y: Row, rows: seq<Row>, before: (Row, Row) -> bool,
                                                        more: (Row, Row) -> bool)
    requires WeakOrder(before) && WeakOrder(more) && SortedBy([y] + rows, more) && more(y, x)
    ensures Sort(Insert(x, [y] + rows, more), before) == Insert(x, Sort([y] + rows, before), Then(before, more))
    decreases |rows|, 1
  {
    var both := Then(before, more);
    var sorted := Sort(rows, before);
    assert ([y] + rows)[1..] == rows && SortedBy(rows, more) by {
      assert forall i :: 0 <= i < |rows| ==> rows[i] == ([y] + rows)[i + 1];
    }
    InsertCons(x, y, rows, more);
    SortInserted(x, rows, before, more);
    assert Sort([y] + Insert(x, rows, more), before) == Insert(y, Insert(x, sorted, both), before) by {
      assert ([y] + Insert(x, rows, more))[1..] == Insert(x, rows, more);
    }
    forall z <- Insert(x, sorted, both) ensures !more(z, y) {
      InsertIn(x, sorted, both, z);
      SortIn(rows, before, z);
      if z != x {
        NoneBefore(y, [y] + rows, more, z);
      }
    }
    InsertSame(y, Insert(x, sorted, both), before, more);
    forall z <- sorted ensures !more(z, y) {
      SortIn(rows, before, z);
      NoneBefore(y, [y] + rows, more, z);
    }
    InsertSame(y, sorted, before, more);
    ThenIsWeakOrder(before, more);
    if both(y, x) {
      InsertCommutes(x, y, sorted, both);
    } else {
      InsertCommutes(y, x, sorted, both);
    }
  }

  /** A further order breaks the ties of the earlier ones: the rows come as if they had been sorted by the
      further order first, and then, stably, by the earlier ones. */
  lemma {:induction false} OrderThenOrder<Row(!new)>(rows: seq<Row>, before: (Row, Row) -> bool,
                                                     more: (Row, Row) -> bool)
    requires WeakOrder(before) && WeakOrder(more)
    ensures Sort(rows, Then(before, more)) == Sort(Sort(rows, more), before)
    ensures WeakOrder(Then(before, more))
  {
    ThenIsWeakOrder(before, more);
    if rows != [] {
      OrderThenOrder(rows[1..], before, more);
      SortIsSorted(rows[1..], more);
      SortInserted(rows[0], Sort(rows[1..], more), before, more);
    }
  }
}
