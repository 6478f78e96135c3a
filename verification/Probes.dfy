/** Queries that look at one or two rows and say something about all of them. */
module Probes {
  import opened Wrappers
  import opened Rows
  import opened Joins
  import opened Queries
  import opened EagerLoading
  import opened AccountQueries
  import opened IndependentEdges

  /** All rows that the query asks for after its offset, without regard to any limit set on it. */
  ghost function WithoutLimit(db: Database, s: Selection<AccountRow>): seq<AccountRow> {
    Selected(db.accounts.rows, s.(limit := None))
  }

  /** A limited query returns the first rows of the unlimited one. */
  lemma LimitTakesFirst<Row>(rows: seq<Row>, s: Selection<Row>, n: nat)
    ensures var all := Selected(rows, s.(limit := None));
            Selected(rows, s.(limit := Some(n))) == all[..if n < |all| then n else |all|]
  {
    var t := s.(limit := None);
    assert Selected(rows, t) == Page(Sort(Matching(rows, s.predicates), s.before), s.offset, None);
  }

  /** Limits the query and runs it: the nodes are the first of those that it would return without a limit. */
  method AtMost(q: AccountQuery, n: nat, db: Database) returns (r: Result<seq<AccountNode>, QueryError>)
    requires q.Valid() && HasKeyColumns(db) && DistinctBy(db.accounts.rows, AccountRowID)
    modifies q.base`predicates, q.base`limit,
             {q.withGroups}`predicates,
             {q.withGroups}`joins,
             {q.withProxy}`predicates,
             {q.withUsageLogs}`predicates,
             {q.withUsageLogs}`fields,
             {q.JoinBase()}`predicates,
             {q.JoinBase()}`fields,
             {q.JoinGroup()}`predicates
    ensures q.base.limit == Some(n)
    ensures old(Readable(q, db)) ==> r.Success?
    ensures r.Success? ==>
              var all := WithoutLimit(db, old(q.base.Asking()));
              && |r.value| == (if n < |all| then n else |all|)
              && forall i :: 0 <= i < |r.value| ==>
                   r.value[i].row == DecodeAccount(all[i], old(Kept(db.accounts.columns, q.base.fields, q.Needed())))
  {
    ghost var columns := Kept(db.accounts.columns, q.base.fields, q.Needed());
    SetLimit(q, n, db);
    ghost var rows := Selected(db.accounts.rows, q.base.Asking());
    ghost var readable := Readable(q, db);
    r := Decoded(q, db, rows, columns, readable);
  }

  method Decoded(q: AccountQuery, db: Database, ghost rows: seq<AccountRow>, ghost columns: set<string>,
                 ghost readable: bool) returns (r: Result<seq<AccountNode>, QueryError>)
    requires q.Valid() && HasKeyColumns(db) && DistinctBy(db.accounts.rows, AccountRowID)
    requires rows == Selected(db.accounts.rows, q.base.Asking()) && (readable ==> Readable(q, db))
    requires columns == Kept(db.accounts.columns, q.base.fields, q.Needed())
    modifies q.base`predicates,
             {q.withGroups}`predicates,
             {q.withGroups}`joins,
             {q.withProxy}`predicates,
             {q.withUsageLogs}`predicates,
             {q.withUsageLogs}`fields,
             {q.JoinBase()}`predicates,
             {q.JoinBase()}`fields,
             {q.JoinGroup()}`predicates
    ensures readable ==> r.Success?
    ensures r.Success? ==> DecodesAccounts(r.value, rows, columns)
  {
    ghost var f;
    r, f := q.All(db);
  }

  /** A limit changes which accounts are selected, not how they are read or what is loaded for them. */
  method SetLimit(q: AccountQuery, n: nat, ghost db: Database)
    modifies q.base`limit
    ensures q.base.limit == Some(n) && (old(Readable(q, db)) ==> Readable(q, db)) && q.Asks(db) == old(q.Asks(db))
    ensures var all := WithoutLimit(db, old(q.base.Asking()));
            Selected(db.accounts.rows, q.base.Asking()) == all[..if n < |all| then n else |all|]
  {
    ghost var s := q.base.Asking();
    q.base.Limit(n);
    LimitTakesFirst(db.accounts.rows, s, n);
    assert q.base.Asking() == s.(limit := Some(n));
  }

  /** Fails as not found just if the unlimited query is empty, and as not singular just if it has at
      least two rows; a limit that was set before is overridden and the new one stays. */
  method Only(q: AccountQuery, db: Database) returns (r: Result<AccountNode, QueryError>)
    requires q.Valid() && HasKeyColumns(db) && DistinctBy(db.accounts.rows, AccountRowID)
    modifies q.base`predicates, q.base`limit,
             {q.withGroups}`predicates,
             {q.withGroups}`joins,
             {q.withProxy}`predicates,
             {q.withUsageLogs}`predicates,
             {q.withUsageLogs}`fields,
             {q.JoinBase()}`predicates,
             {q.JoinBase()}`fields,
             {q.JoinGroup()}`predicates
    ensures q.base.limit == Some(2)
    ensures old(Readable(q, db)) ==>
              var all := WithoutLimit(db, old(q.base.Asking()));
              && (r.Success? <==> |all| == 1)
              && (r == Failure(NotFound("account")) <==> |all| == 0)
              && (r == Failure(NotSingular("account")) <==> |all| >= 2)
              && (r.Success? ==>
                    r.value.row == DecodeAccount(all[0], old(Kept(db.accounts.columns, q.base.fields, q.Needed()))))
  {
    var nodes := AtMost(q, 2, db);
    if nodes.Failure? {
      return Failure(nodes.error);
    }
    if |nodes.value| == 1 {
      r := Success(nodes.value[0]);
    } else if |nodes.value| == 0 {
      r := Failure(NotFound("account"));
    } else {
      r := Failure(NotSingular("account"));
    }
  }

  /** The first node of the unlimited query; fails as not found just if it has none. */
  method First(q: AccountQuery, db: Database) returns (r: Result<AccountNode, QueryError>)
    requires q.Valid() && HasKeyColumns(db) && DistinctBy(db.accounts.rows, AccountRowID)
    modifies q.base`predicates, q.base`limit,
             {q.withGroups}`predicates,
             {q.withGroups}`joins,
             {q.withProxy}`predicates,
             {q.withUsageLogs}`predicates,
             {q.withUsageLogs}`fields,
             {q.JoinBase()}`predicates,
             {q.JoinBase()}`fields,
             {q.JoinGroup()}`predicates
    ensures q.base.limit == Some(1)
    ensures old(Readable(q, db)) ==>
              var all := WithoutLimit(db, old(q.base.Asking()));
              && (r == Failure(NotFound("account")) <==> |all| == 0)
              && (r.Success? <==> |all| > 0)
              && (r.Success? ==>
                    r.value.row == DecodeAccount(all[0], old(Kept(db.accounts.columns, q.base.fields, q.Needed()))))
  {
    var nodes := AtMost(q, 1, db);
    if nodes.Failure? {
      return Failure(nodes.error);
    }
    if |nodes.value| == 0 {
      return Failure(NotFound("account"));
    }
    r := Success(nodes.value[0]);
  }

  /** The identifiers of the rows. The column is selected in addition to those selected before, and the
      rows do not fit if there were any. */
  method IDs(q: AccountQuery, db: Database) returns (r: Result<seq<int>, QueryError>)
    requires HasKeyColumns(db)
    modifies q.base`fields, q.base`predicates
    ensures q.base.fields == old(q.base.fields) + ["id"]
    ensures q.base.predicates == old(q.base.predicates) + q.base.traversers
    ensures r.Success? <==> old(q.base.fields) == []
    ensures r.Success? ==> r.value == Mapped(Selected(db.accounts.rows, old(q.base.Asking())), AccountRowID)
    ensures r.Failure? ==> r.error != NotFound("account")
  {
    ghost var s := q.base.Asking();
    q.base.fields := q.base.fields + ["id"];
    var err := q.base.Prepare(db.accounts.columns);
    UnknownIsInvalid(q.base.fields, db.accounts.columns);
    if err.Some? {
      return Failure(err.value);
    }
    if |q.base.fields| > 1 {
      return Failure(ColumnMismatch(|q.base.fields|));
    }
    var base := q.base;
    var rows := Selected(db.accounts.rows, Selection(base.predicates, base.before, base.offset, base.limit));
    r := Success(Mapped(rows, AccountRowID));
  }

  lemma {:induction false} UnknownIsInvalid(fields: seq<string>, columns: seq<string>)
    ensures FirstUnknown(fields, columns).Some? ==>
              exists k :: 0 <= k < |fields| && FirstUnknown(fields, columns).value == InvalidField(fields[k])
                && fields[k] !in columns && forall j :: 0 <= j < k ==> fields[j] in columns
    ensures FirstUnknown(fields, columns).None? <==> forall f <- fields :: f in columns
  {
    if fields != [] {
      UnknownIsInvalid(fields[1..], columns);
      assert fields == [fields[0]] + fields[1..];
      if fields[0] in columns && FirstUnknown(fields, columns).Some? {
        var k :| 0 <= k < |fields[1..]| && FirstUnknown(fields, columns).value == InvalidField(fields[1..][k])
          && fields[1..][k] !in columns && forall j :: 0 <= j < k ==> fields[1..][j] in columns;
        assert fields[k + 1] == fields[1..][k];
        forall j | 0 <= j < k + 1 ensures fields[j] in columns {
          assert j > 0 ==> fields[j] == fields[1..][j - 1];
        }
      }
    }
  }

  method FirstID(q: AccountQuery, db: Database) returns (r: Result<int, QueryError>)
    requires HasKeyColumns(db)
    modifies q.base`fields, q.base`predicates, q.base`limit
    ensures q.base.limit == Some(1) && q.base.fields == old(q.base.fields) + ["id"]
    ensures old(q.base.fields) == [] ==>
              var all := WithoutLimit(db, old(q.base.Asking()));
              r == if all == [] then Failure(NotFound("account")) else Success(all[0].id)
    ensures old(q.base.fields) != [] ==> r.Failure? && r.error != NotFound("account")
  {
    ghost var s := q.base.Asking();
    LimitTakesFirst(db.accounts.rows, s, 1);
    q.base.Limit(1);
    assert q.base.Asking() == s.(limit := Some(1));
    var ids := IDs(q, db);
    if ids.Failure? {
      return Failure(ids.error);
    }
    if |ids.value| == 0 {
      return Failure(NotFound("account"));
    }
    r := Success(ids.value[0]);
  }

  /** Says whether the unlimited query has rows, if no columns were selected before; leaves the limit and
      the selected column behind. */
  method Exist(q: AccountQuery, db: Database) returns (r: Result<bool, QueryError>)
    requires HasKeyColumns(db)
    modifies q.base`fields, q.base`predicates, q.base`limit
    ensures q.base.limit == Some(1) && q.base.fields == old(q.base.fields) + ["id"]
    ensures old(q.base.fields) == [] ==> r == Success(WithoutLimit(db, old(q.base.Asking())) != [])
    ensures old(q.base.fields) != [] ==> r.Failure?
  {
    var id := FirstID(q, db);
    if id == Failure(NotFound("account")) {
      r := Success(false);
    } else if id.Failure? {
      r := Failure(id.error);
    } else {
      r := Success(true);
    }
  }
}
