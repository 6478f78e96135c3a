/** Tables as sequences of rows, and what a SELECT with conditions, an order and a page returns. */
module Rows {
  import opened Wrappers

  datatype Table<+Row> = Table(columns: seq<string>, rows: seq<Row>)

  /** The conditions, order and page of one query. Rows for which neither comes first in the order stay
      as they are in the table. */
  datatype Selection<!Row> = Selection(
    predicates: seq<Row -> bool>,
    before: (Row, Row) -> bool,
    offset: nat,
    limit: Option<nat>)

  predicate Satisfies<Row>(predicates: seq<Row -> bool>, r: Row) {
    forall i :: 0 <= i < |predicates| ==> predicates[i](r)
  }

  function Matching<Row>(rows: seq<Row>, predicates: seq<Row -> bool>): seq<Row> {
    if rows == [] then []
    else (if Satisfies(predicates, rows[0]) then [rows[0]] else []) + Matching(rows[1..], predicates)
  }

  function Insert<Row>(r: Row, rows: seq<Row>, before: (Row, Row) -> bool): seq<Row> {
    if rows == [] || !before(rows[0], r) then [r] + rows
    else [rows[0]] + Insert(r, rows[1..], before)
  }

  function Sort<Row>(rows: seq<Row>, before: (Row, Row) -> bool): seq<Row> {
    if rows == [] then [] else Insert(rows[0], Sort(rows[1..], before), before)
  }

  function Page<Row>(rows: seq<Row>, offset: nat, limit: Option<nat>): seq<Row> {
    var rest := if offset <= |rows| then rows[offset..] else [];
    if limit.Some? && limit.value < |rest| then rest[..limit.value] else rest
  }

  function Selected<Row>(rows: seq<Row>, s: Selection<Row>): seq<Row> {
    Page(Sort(Matching(rows, s.predicates), s.before), s.offset, s.limit)
  }

  /** No offset and no limit. */
  predicate Unpaged<Row>(s: Selection<Row>) {
    s.offset == 0 && s.limit.None?
  }

  /** No page and no row left out. */
  ghost predicate TakesAll<Row(!new)>(s: Selection<Row>) {
    Unpaged(s) && forall r :: Satisfies(s.predicates, r)
  }

  function Mapped<A, B>(s: seq<A>, f: A -> B): (r: seq<B>)
    ensures |r| == |s|
    ensures forall i :: 0 <= i < |s| ==> r[i] == f(s[i])
  {
    seq(|s|, i requires 0 <= i < |s| => f(s[i]))
  }

  ghost predicate DistinctBy<Row>(rows: seq<Row>, key: Row -> int) {
    forall i, j :: 0 <= i < j < |rows| ==> key(rows[i]) != key(rows[j])
  }

  lemma {:induction false} MatchingIn<Row>(rows: seq<Row>, predicates: seq<Row -> bool>, r: Row)
    ensures r in Matching(rows, predicates) <==> r in rows && Satisfies(predicates, r)
  {
    if rows != [] {
      MatchingIn(rows[1..], predicates, r);
      assert rows == [rows[0]] + rows[1..];
    }
  }

  lemma {:induction false} InsertIn<Row>(x: Row, rows: seq<Row>, before: (Row, Row) -> bool, r: Row)
    ensures r in Insert(x, rows, before) <==> r == x || r in rows
  {
    if rows != [] && before(rows[0], x) {
      InsertIn(x, rows[1..], before, r);
      assert rows == [rows[0]] + rows[1..];
    }
  }

  lemma {:induction false} SortIn<Row>(rows: seq<Row>, before: (Row, Row) -> bool, r: Row)
    ensures r in Sort(rows, before) <==> r in rows
  {
    if rows != [] {
      SortIn(rows[1..], before, r);
      InsertIn(rows[0], Sort(rows[1..], before), before, r);
      assert rows == [rows[0]] + rows[1..];
    }
  }

  /** A query returns rows of the table that satisfy its conditions and, without a page, all of them. */
  lemma SelectedIn<Row>(rows: seq<Row>, s: Selection<Row>, r: Row)
    ensures r in Selected(rows, s) ==> r in rows && Satisfies(s.predicates, r)
    ensures Unpaged(s) ==> (r in Selected(rows, s) <==> r in rows && Satisfies(s.predicates, r))
  {
    var matching := Matching(rows, s.predicates);
    SortIn(matching, s.before, r);
    MatchingIn(rows, s.predicates, r);
  }

  /** Only what the conditions say of each row matters, not how they are written down. */
  lemma {:induction false} MatchingCongruent<Row(!new)>(rows: seq<Row>, p: seq<Row -> bool>, q: seq<Row -> bool>)
    requires forall r :: Satisfies(p, r) <==> Satisfies(q, r)
    ensures Matching(rows, p) == Matching(rows, q)
  {
    if rows != [] {
      MatchingCongruent(rows[1..], p, q);
      assert Satisfies(p, rows[0]) <==> Satisfies(q, rows[0]);
    }
  }

  lemma {:induction false} MatchingDistinct<Row>(rows: seq<Row>, predicates: seq<Row -> bool>, key: Row -> int)
    requires DistinctBy(rows, key)
    ensures DistinctBy(Matching(rows, predicates), key)
  {
    if rows != [] {
      var rest := Matching(rows[1..], predicates);
      assert DistinctBy(rows[1..], key);
      MatchingDistinct(rows[1..], predicates, key);
      forall j | 0 <= j < |rest| ensures key(rows[0]) != key(rest[j]) {
        MatchingIn(rows[1..], predicates, rest[j]);
        assert rest[j] in rest;
        var i :| 0 <= i < |rows[1..]| && rows[1..][i] == rest[j];
        assert rows[i + 1] == rest[j];
      }
    }
  }

  lemma {:induction false} InsertDistinct<Row>(x: Row, rows: seq<Row>, before: (Row, Row) -> bool, key: Row -> int)
    requires DistinctBy(rows, key) && forall r <- rows :: key(r) != key(x)
    ensures DistinctBy(Insert(x, rows, before), key)
  {
    if rows == [] || !before(rows[0], x) {
      assert forall i :: 0 <= i < |rows| ==> rows[i] in rows;
    } else {
      var rest := Insert(x, rows[1..], before);
      assert DistinctBy(rows[1..], key);
      InsertDistinct(x, rows[1..], before, key);
      forall j | 0 <= j < |rest| ensures key(rows[0]) != key(rest[j]) {
        InsertIn(x, rows[1..], before, rest[j]);
        assert rest[j] in rest;
        if rest[j] == x {
          assert rows[0] in rows;
        } else {
          var i :| 0 <= i < |rows[1..]| && rows[1..][i] == rest[j];
          assert rows[i + 1] == rest[j];
        }
      }
    }
  }

  lemma {:induction false} SortDistinct<Row>(rows: seq<Row>, before: (Row, Row) -> bool, key: Row -> int)
    requires DistinctBy(rows, key)
    ensures DistinctBy(Sort(rows, before), key)
  {
    if rows != [] {
      var rest := Sort(rows[1..], before);
      assert DistinctBy(rows[1..], key);
      SortDistinct(rows[1..], before, key);
      forall j | 0 <= j < |rest| ensures key(rows[0]) != key(rest[j]) {
        SortIn(rows[1..], before, rest[j]);
        assert rest[j] in rest;
        var i :| 0 <= i < |rows[1..]| && rows[1..][i] == rest[j];
        assert rows[i + 1] == rest[j];
      }
      InsertDistinct(rows[0], rest, before, key);
    }
  }

  /** A query on a table with distinct keys returns rows with distinct keys. */
  lemma SelectedDistinct<Row>(rows: seq<Row>, s: Selection<Row>, key: Row -> int)
    requires DistinctBy(rows, key)
    ensures DistinctBy(Selected(rows, s), key)
  {
    MatchingDistinct(rows, s.predicates, key);
    SortDistinct(Matching(rows, s.predicates), s.before, key);
  }

  /** The selection with one more condition. */
  function And<Row>(s: Selection<Row>, p: Row -> bool): Selection<Row> {
    s.(predicates := s.predicates + [p])
  }

  lemma AndSatisfies<Row(!new)>(predicates: seq<Row -> bool>, more: seq<Row -> bool>)
    ensures forall r :: Satisfies(predicates + more, r) <==> Satisfies(predicates, r) && Satisfies(more, r)
  {
    var all := predicates + more;
    forall r: Row | Satisfies(all, r) ensures Satisfies(predicates, r) && Satisfies(more, r) {
      forall i | 0 <= i < |predicates| ensures predicates[i](r) {
        assert all[i](r);
      }
      forall i | 0 <= i < |more| ensures more[i](r) {
        assert all[|predicates| + i](r);
      }
    }
  }

  lemma OneSatisfies<Row(!new)>(p: Row -> bool)
    ensures forall r :: Satisfies([p], r) <==> p(r)
  {
    forall r: Row | Satisfies([p], r) ensures p(r) {
      assert [p][0](r);
    }
  }

  /** Two selections that accept the same rows and agree on order and page select the same. */
  lemma SelectedCongruent<Row(!new)>(rows: seq<Row>, s: Selection<Row>, t: Selection<Row>)
    requires forall r :: Satisfies(s.predicates, r) <==> Satisfies(t.predicates, r)
    requires s.before == t.before && s.offset == t.offset && s.limit == t.limit
    ensures Selected(rows, s) == Selected(rows, t)
  {
    MatchingCongruent(rows, s.predicates, t.predicates);
  }

  lemma AndIn<Row(!new)>(rows: seq<Row>, s: Selection<Row>, p: Row -> bool, r: Row)
    ensures r in Selected(rows, And(s, p)) ==> r in rows && Satisfies(s.predicates, r) && p(r)
    ensures Unpaged(s) ==> (r in Selected(rows, And(s, p)) <==> r in rows && Satisfies(s.predicates, r) && p(r))
  {
    SelectedIn(rows, And(s, p), r);
    AndSatisfies(s.predicates, [p]);
    OneSatisfies(p);
  }
}
