/** Whole runs: what a run returns and what it leaves behind, running the same query object twice, and
    running two queries that differ in the selected columns. */
module Runs {
  import opened Wrappers
  import opened Rows
  import opened Joins
  import opened Queries
  import opened EagerLoading
  import opened AccountQueries
  import opened ManyToMany
  import opened EdgeViews
  import opened IndependentEdges

  function AccountDecoder(columns: set<string>): AccountRow -> AccountRow {
    (r: AccountRow) => DecodeAccount(r, columns)
  }

  /** The views are those that the database and the requests determine for the given rows, read with
      the given columns. Of a rejoined many-to-many edge nothing is said. */
  ghost predicate AsExpected(db: Database, q: Requests, rows: seq<AccountRow>, columns: set<string>, views: seq<View>) {
    var read := Mapped(rows, AccountDecoder(columns));
    && |views| == |rows|
    && forall i :: 0 <= i < |rows| ==>
         var view := Expected(db, q, Mapped(read, AccountRowID), Mapped(read, KeyOfRow), read[i]);
         views[i] == if q.rejoined then view.(groups := views[i].groups) else view
  }

  ghost function JoinNodes(nodes: seq<AccountNode>): (r: set<AccountGroup>)
    reads nodes`accountGroups
    ensures forall i :: 0 <= i < |nodes| ==> forall ag <- nodes[i].accountGroups :: ag in r
  {
    set i, ag | 0 <= i < |nodes| && ag in nodes[i].accountGroups :: ag
  }

  ghost predicate Shows(nodes: seq<AccountNode>, views: seq<View>)
    reads nodes`groups, nodes`proxy, nodes`usageLogs, nodes`accountGroups, JoinNodes(nodes)
  {
    |nodes| == |views| && forall i :: 0 <= i < |nodes| ==> ViewOf(nodes[i]) == views[i]
  }

  ghost function ViewsOf(nodes: seq<AccountNode>): (views: seq<View>)
    reads nodes, JoinNodes(nodes)
    ensures Shows(nodes, views)
  {
    if nodes == [] then [] else
      assert JoinNodes(nodes[1..]) <= JoinNodes(nodes);
      [ViewOf(nodes[0])] + ViewsOf(nodes[1..])
  }

  /** The query selects these rows and reads these columns of them. */
  ghost predicate Selects(q: AccountQuery, db: Database, rows: seq<AccountRow>, columns: set<string>)
    reads q, q.base
  {
    Selected(db.accounts.rows, q.base.Asking()) == rows &&
      Kept(db.accounts.columns, q.base.fields, q.Needed()) == columns
  }

  lemma ViewsAreExpected(db: Database, q: Requests, rows: seq<AccountRow>, columns: set<string>,
                         nodes: seq<AccountNode>, f: Fetched, views: seq<View>)
    requires DecodesAccounts(nodes, rows, columns) && Shows(nodes, views)
    requires nodes != [] ==> EdgesLoaded(db, q, nodes, f) && HasKeys(q)
    ensures AsExpected(db, q, rows, columns, views)
  {
    var read := Mapped(rows, AccountDecoder(columns));
    assert Mapped(read, AccountRowID) == Mapped(nodes, AccountID);
    assert Mapped(read, KeyOfRow) == Mapped(nodes, ProxyKey);
    forall i | 0 <= i < |rows|
      ensures var view := Expected(db, q, Mapped(read, AccountRowID), Mapped(read, KeyOfRow), read[i]);
              views[i] == if q.rejoined then view.(groups := views[i].groups) else view
    {
      LoadedIsExpected(db, q, nodes, f, i);
    }
  }

  /** What the queries of the edges were left with asks for the same of these rows. */
  ghost predicate AsksTheSame(db: Database, s: Requests, t: Requests, ids: seq<int>, keys: seq<Option<int>>) {
    && s.groups.Some? == t.groups.Some?
    && StaysPut(s.proxy, t.proxy, ProxyIDIn(DistinctKeys(keys)))
    && StaysPut(s.usageLogs, t.usageLogs, LogAccountIn(ids))
    && StaysPut(s.accountGroups, t.accountGroups, RowAccountIn(ids))
    && s.joinGroup.Some? == t.joinGroup.Some?
    && (s.accountGroups.Some? ==>
          StaysPut(s.joinGroup, t.joinGroup, GroupsOfJoins(db, s.accountGroups.value.selection, ids)))
  }

  ghost predicate AsksAgain(db: Database, s: Requests, t: Requests, rows: seq<AccountRow>, columns: set<string>) {
    var read := Mapped(rows, AccountDecoder(columns));
    rows != [] ==> AsksTheSame(db, s, t, Mapped(read, AccountRowID), Mapped(read, KeyOfRow))
  }

  lemma StaysPutForRows(db: Database, s: Requests, t: Requests, rows: seq<AccountRow>, columns: set<string>,
                        nodes: seq<AccountNode>, f: Fetched)
    requires DecodesAccounts(nodes, rows, columns)
    requires EdgesLoaded(db, s, nodes, f) && HasKeys(s) && AllStayPut(s, t, nodes, f.accountGroups)
    ensures AsksAgain(db, s, t, rows, columns)
  {
    var read := Mapped(rows, AccountDecoder(columns));
    assert Mapped(read, AccountRowID) == Mapped(nodes, AccountID);
    assert Mapped(read, KeyOfRow) == Mapped(nodes, ProxyKey);
    if s.accountGroups.Some? && s.joinGroup.Some? {
      var joined := JoinRowsOf(db, s.accountGroups.value.selection, Mapped(nodes, AccountID));
      JoinKeysOfRows(f.accountGroups, joined, s.accountGroups.value.columns);
    }
  }

  /** So both determine the same, and fail in the same way. */
  lemma ExpectedStays(db: Database, s: Requests, t: Requests, ids: seq<int>, keys: seq<Option<int>>, r: AccountRow)
    requires AsksTheSame(db, s, t, ids, keys)
    ensures Expected(db, s, ids, keys, r).(groups := []) == Expected(db, t, ids, keys, r).(groups := [])
    ensures s.groups.None? ==> LoadError(db, s, ids, keys) == LoadError(db, t, ids, keys)
  {
    if s.proxy.Some? {
      AgreeSelects(db.proxies.rows, s.proxy.value.selection, t.proxy.value.selection, ProxyIDIn(DistinctKeys(keys)));
    }
    if s.usageLogs.Some? {
      AgreeSelects(db.usageLogs.rows, s.usageLogs.value.selection, t.usageLogs.value.selection, LogAccountIn(ids));
    }
    if s.accountGroups.Some? {
      JoinsStay(db, s, t, ids, r.id);
    }
  }

  lemma JoinsStay(db: Database, s: Requests, t: Requests, ids: seq<int>, id: int)
    requires s.accountGroups.Some? && StaysPut(s.accountGroups, t.accountGroups, RowAccountIn(ids))
    requires StaysPut(s.joinGroup, t.joinGroup, GroupsOfJoins(db, s.accountGroups.value.selection, ids))
    ensures ExpectedJoins(db, s.accountGroups, s.joinGroup, ids, id) ==
            ExpectedJoins(db, t.accountGroups, t.joinGroup, ids, id)
    ensures JoinsError(db, s, ids) == JoinsError(db, t, ids)
  {
    var p, q := s.accountGroups.value, t.accountGroups.value;
    AgreeSelects(db.accountGroups.rows, p.selection, q.selection, RowAccountIn(ids));
    var rows := JoinRowsOf(db, p.selection, ids);
    if s.joinGroup.Some? {
      AgreeSelects(db.groups.rows, s.joinGroup.value.selection, t.joinGroup.value.selection,
                   GroupsOfJoins(db, p.selection, ids));
    }
    forall j: AccountGroupRow
      ensures JoinViewer(db, p.columns, s.joinGroup, rows)(j) == JoinViewer(db, q.columns, t.joinGroup, rows)(j)
    {}
  }

  /** The traversing conditions that a run adds to its own query are the same every time. */
  lemma BaseAsksTheSame(rows: seq<AccountRow>, s: Selection<AccountRow>, predicates: seq<AccountRow -> bool>,
                        traversers: seq<AccountRow -> bool>)
    requires s.predicates == predicates + traversers
    ensures Selected(rows, s.(predicates := predicates + traversers + traversers)) == Selected(rows, s)
  {
    AndSatisfies(predicates, traversers);
    AndSatisfies(predicates + traversers, traversers);
    SelectedCongruent(rows, s.(predicates := predicates + traversers + traversers), s);
  }

  /** The error of a run that selects these rows: that of its own columns, or that of the first edge. */
  ghost function RunError(db: Database, q: Requests, own: Option<QueryError>,
                          rows: seq<AccountRow>): Option<QueryError> {
    OrElse(own, if rows == [] then None else EdgeError(db, q, rows))
  }

  predicate FailsWith(r: Result<seq<AccountNode>, QueryError>, err: Option<QueryError>) {
    (r.Failure? <==> err.Some?) && (r.Failure? ==> r.error == err.value)
  }

  method RunLoaded(q: AccountQuery, db: Database, ghost rows: seq<AccountRow>, ghost columns: set<string>)
      returns (r: Result<seq<AccountNode>, QueryError>, ghost f: Fetched)
    requires q.Valid() && HasKeyColumns(db) && DistinctBy(db.accounts.rows, AccountRowID)
    requires Selects(q, db, rows, columns)
    modifies q.base`predicates,
             {q.withGroups}`predicates,
             {q.withGroups}`joins,
             {q.withProxy}`predicates,
             {q.withUsageLogs}`predicates,
             {q.withUsageLogs}`fields,
             {q.JoinBase()}`predicates,
             {q.JoinBase()}`fields,
             {q.JoinGroup()}`predicates
    ensures Selects(q, db, rows, columns) && q.base.fields == old(q.base.fields)
    ensures !old(q.Asks(db)).rejoined ==>
              FailsWith(r, RunError(db, old(q.Asks(db)), old(FirstUnknown(q.base.fields, db.accounts.columns)), rows))
    ensures r.Success? ==>
              && DecodesAccounts(r.value, rows, columns)
              && (r.value != [] ==>
                    && EdgesLoaded(db, old(q.Asks(db)), r.value, f)
                    && q.Asks(db) == LeftBehind(old(q.Asks(db)), r.value, f.accountGroups))
  {
    ghost var s := q.base.Asking();
    BaseAsksTheSame(db.accounts.rows, s, q.base.predicates, q.base.traversers);
    r, f := q.All(db);
    assert q.base.Asking() == s.(predicates := s.predicates + q.base.traversers);
  }

  lemma LoadedShows(db: Database, s: Requests, t: Requests, rows: seq<AccountRow>, columns: set<string>,
                    nodes: seq<AccountNode>, f: Fetched, views: seq<View>)
    requires DecodesAccounts(nodes, rows, columns) && Shows(nodes, views) && HasKeys(s) && AllContents(s)
    requires nodes != [] ==> EdgesLoaded(db, s, nodes, f) && t == LeftBehind(s, nodes, f.accountGroups)
    ensures AsExpected(db, s, rows, columns, views) && AsksAgain(db, s, t, rows, columns)
  {
    ViewsAreExpected(db, s, rows, columns, nodes, f, views);
    if rows != [] {
      LeftBehindStaysPut(s, nodes, f.accountGroups);
      StaysPutForRows(db, s, t, rows, columns, nodes, f);
    }
  }

  /** A run returns what the database and the requests determine, and leaves a query that asks for the
      same. */
  method RunOnce(q: AccountQuery, db: Database, ghost rows: seq<AccountRow>, ghost columns: set<string>)
      returns (r: Result<seq<AccountNode>, QueryError>, ghost views: seq<View>)
    requires q.Valid() && HasKeyColumns(db) && DistinctBy(db.accounts.rows, AccountRowID)
    requires Selects(q, db, rows, columns)
    modifies q.base`predicates,
             {q.withGroups}`predicates,
             {q.withGroups}`joins,
             {q.withProxy}`predicates,
             {q.withUsageLogs}`predicates,
             {q.withUsageLogs}`fields,
             {q.JoinBase()}`predicates,
             {q.JoinBase()}`fields,
             {q.JoinGroup()}`predicates
    ensures Selects(q, db, rows, columns) && q.base.fields == old(q.base.fields)
    ensures !old(q.Asks(db)).rejoined ==>
              FailsWith(r, RunError(db, old(q.Asks(db)), old(FirstUnknown(q.base.fields, db.accounts.columns)), rows))
    ensures r.Success? ==> Shows(r.value, views) && AsExpected(db, old(q.Asks(db)), rows, columns, views)
    ensures r.Success? ==> AsksAgain(db, old(q.Asks(db)), q.Asks(db), rows, columns)
  {
    ghost var asks := q.Asks(db);
    EveryKeyIsKept(q, db);
    ghost var f;
    r, f := RunLoaded(q, db, rows, columns);
    views := [];
    if r.Success? {
      views := ViewsOf(r.value);
      LoadedShows(db, asks, q.Asks(db), rows, columns, r.value, f, views);
    }
  }

  // ----- running the same query again -----

  /** A run of the query leaves accounts that are there already alone. */
  method RunBeside(nodes: seq<AccountNode>, ghost shown: seq<View>, q: AccountQuery, db: Database,
                   ghost rows: seq<AccountRow>, ghost columns: set<string>)
      returns (r: Result<seq<AccountNode>, QueryError>, ghost views: seq<View>)
    requires q.Valid() && HasKeyColumns(db) && DistinctBy(db.accounts.rows, AccountRowID)
    requires Selects(q, db, rows, columns) && Shows(nodes, shown)
    modifies q.base`predicates,
             {q.withGroups}`predicates,
             {q.withGroups}`joins,
             {q.withProxy}`predicates,
             {q.withUsageLogs}`predicates,
             {q.withUsageLogs}`fields,
             {q.JoinBase()}`predicates,
             {q.JoinBase()}`fields,
             {q.JoinGroup()}`predicates
    ensures !old(q.Asks(db)).rejoined ==>
              FailsWith(r, RunError(db, old(q.Asks(db)), old(FirstUnknown(q.base.fields, db.accounts.columns)), rows))
    ensures r.Success? ==> Shows(r.value, views) && AsExpected(db, old(q.Asks(db)), rows, columns, views)
    ensures Shows(nodes, shown)
  {
    r, views := RunOnce(q, db, rows, columns);
    assert forall i :: 0 <= i < |nodes| ==> ViewOf(nodes[i]) == old(ViewOf(nodes[i]));
  }

  function WithoutGroups(views: seq<View>): (r: seq<View>)
    ensures |r| == |views| && forall i :: 0 <= i < |r| ==> r[i] == views[i].(groups := [])
  {
    seq(|views|, i requires 0 <= i < |views| => views[i].(groups := []))
  }

  /** What both determine is the same, but for the many-to-many edge if it is requested. */
  lemma ExpectedAgain(db: Database, s: Requests, t: Requests, rows: seq<AccountRow>, columns: set<string>,
                      first: seq<View>, second: seq<View>)
    requires AsExpected(db, s, rows, columns, first) && AsExpected(db, t, rows, columns, second)
    requires AsksAgain(db, s, t, rows, columns)
    ensures WithoutGroups(first) == WithoutGroups(second)
    ensures s.groups.None? && !s.rejoined && !t.rejoined ==> first == second
  {
    var read := Mapped(rows, AccountDecoder(columns));
    forall i | 0 <= i < |rows|
      ensures first[i].(groups := []) == second[i].(groups := [])
      ensures s.groups.None? && !s.rejoined && !t.rejoined ==> first[i] == second[i]
    {
      ExpectedStays(db, s, t, Mapped(read, AccountRowID), Mapped(read, KeyOfRow), read[i]);
    }
  }

  lemma ErrorAgain(db: Database, s: Requests, t: Requests, own: Option<QueryError>, rows: seq<AccountRow>,
                   columns: set<string>)
    requires AsksAgain(db, s, t, rows, columns) && s.groups.None?
    requires "id" in columns && (s.proxy.Some? ==> "proxy_id" in columns)
    ensures RunError(db, s, own, rows) == RunError(db, t, own, rows)
  {
    if rows != [] {
      var read := Mapped(rows, AccountDecoder(columns));
      ExpectedStays(db, s, t, Mapped(read, AccountRowID), Mapped(read, KeyOfRow), read[0]);
      assert Mapped(read, AccountRowID) == Mapped(rows, AccountRowID);
      assert s.proxy.Some? ==> Mapped(read, KeyOfRow) == Mapped(rows, KeyOfRow);
    }
  }

  /** A second run of requests that ask for the same ends as the first. */
  lemma EndsTheSame(db: Database, s: Requests, t: Requests, own: Option<QueryError>, rows: seq<AccountRow>,
                    columns: set<string>, views: seq<View>, second: Result<seq<AccountNode>, QueryError>,
                    again: seq<View>)
    requires AsksAgain(db, s, t, rows, columns) && AsExpected(db, s, rows, columns, views)
    requires "id" in columns && (s.proxy.Some? ==> "proxy_id" in columns)
    requires second.Success? ==> AsExpected(db, t, rows, columns, again)
    requires !t.rejoined ==> FailsWith(second, RunError(db, t, own, rows))
    ensures second.Success? ==> WithoutGroups(views) == WithoutGroups(again)
    ensures s.groups.None? && !s.rejoined && !t.rejoined ==>
              FailsWith(second, RunError(db, s, own, rows)) && (second.Success? ==> views == again)
  {
    if s.groups.None? {
      ErrorAgain(db, s, t, own, rows, columns);
    }
    if second.Success? {
      ExpectedAgain(db, s, t, rows, columns, views, again);
    }
  }

  method RunBoth(q: AccountQuery, db: Database, ghost rows: seq<AccountRow>, ghost columns: set<string>,
                 ghost s: Requests, ghost own: Option<QueryError>)
      returns (first: Result<seq<AccountNode>, QueryError>, second: Result<seq<AccountNode>, QueryError>,
               ghost views: seq<View>, ghost again: seq<View>, ghost t: Requests)
    requires q.Valid() && HasKeyColumns(db) && DistinctBy(db.accounts.rows, AccountRowID)
    requires Selects(q, db, rows, columns)
    requires s == q.Asks(db) && own == FirstUnknown(q.base.fields, db.accounts.columns)
    modifies q.base`predicates,
             {q.withGroups}`predicates,
             {q.withGroups}`joins,
             {q.withProxy}`predicates,
             {q.withUsageLogs}`predicates,
             {q.withUsageLogs}`fields,
             {q.JoinBase()}`predicates,
             {q.JoinBase()}`fields,
             {q.JoinGroup()}`predicates
    ensures !s.rejoined ==> FailsWith(first, RunError(db, s, own, rows))
    ensures s.groups.None? ==> !s.rejoined && !t.rejoined
    ensures first.Success? ==>
              && AsExpected(db, s, rows, columns, views) && AsksAgain(db, s, t, rows, columns)
              && (!t.rejoined ==> FailsWith(second, RunError(db, t, own, rows)))
              && (second.Success? ==> AsExpected(db, t, rows, columns, again))
              && Shows(first.value, views) && (second.Success? ==> Shows(second.value, again))
  {
    again, t := [], s;
    first, views := RunOnce(q, db, rows, columns);
    if first.Failure? {
      return first, first, views, again, t;
    }
    t := q.Asks(db);
    second, again := RunBeside(first.value, views, q, db, rows, columns);
  }

  /** The two runs return the same accounts with the same edges, the groups of join nodes included. The
      second succeeds if the first does, and nothing but the many-to-many edge is left open, whose query
      the second run joins once more. */
  method RunTwice(q: AccountQuery, db: Database)
      returns (first: Result<seq<AccountNode>, QueryError>, second: Result<seq<AccountNode>, QueryError>,
               ghost views: seq<View>, ghost again: seq<View>)
    requires q.Valid() && HasKeyColumns(db) && DistinctBy(db.accounts.rows, AccountRowID)
    modifies q.base`predicates,
             {q.withGroups}`predicates,
             {q.withGroups}`joins,
             {q.withProxy}`predicates,
             {q.withUsageLogs}`predicates,
             {q.withUsageLogs}`fields,
             {q.JoinBase()}`predicates,
             {q.JoinBase()}`fields,
             {q.JoinGroup()}`predicates
    ensures old(q.withGroups) == null ==> (first.Success? ==> second.Success?)
    ensures first.Success? && second.Success? ==>
              && Shows(first.value, views) && Shows(second.value, again)
              && WithoutGroups(views) == WithoutGroups(again)
              && (old(q.withGroups) == null ==> views == again)
  {
    ghost var rows := Selected(db.accounts.rows, q.base.Asking());
    ghost var columns := Kept(db.accounts.columns, q.base.fields, q.Needed());
    ghost var s, own := q.Asks(db), FirstUnknown(q.base.fields, db.accounts.columns);
    EveryKeyIsKept(q, db);
    ghost var t;
    first, second, views, again, t := RunBoth(q, db, rows, columns, s, own);
    if first.Success? {
      EndsTheSame(db, s, t, own, rows, columns, views, second, again);
    }
  }

  // ----- queries that differ in the selected columns -----

  method RunApartFromSome(other: AccountQuery, q: AccountQuery, db: Database, ghost rows: seq<AccountRow>,
                          ghost columns: set<string>)
      returns (r: Result<seq<AccountNode>, QueryError>, ghost views: seq<View>)
    requires Apart(q, other)
    requires q.Valid() && HasKeyColumns(db) && DistinctBy(db.accounts.rows, AccountRowID)
    requires Selects(q, db, rows, columns)
    modifies q.base`predicates,
             {q.withGroups}`predicates,
             {q.withGroups}`joins,
             {q.withProxy}`predicates,
             {q.withUsageLogs}`predicates,
             {q.withUsageLogs}`fields,
             {q.JoinBase()}`predicates,
             {q.JoinBase()}`fields,
             {q.JoinGroup()}`predicates
    ensures !old(q.Asks(db)).rejoined ==>
              FailsWith(r, RunError(db, old(q.Asks(db)), old(FirstUnknown(q.base.fields, db.accounts.columns)), rows))
    ensures r.Success? ==> Shows(r.value, views) && AsExpected(db, old(q.Asks(db)), rows, columns, views)
    ensures unchanged(other) && unchanged(other.base)
    ensures other.withGroups != null ==> unchanged(other.withGroups)
    ensures other.withProxy != null ==> unchanged(other.withProxy)
  {
    r, views := RunOnce(q, db, rows, columns);
    assert unchanged(other) && unchanged(other.base);
    assert other.withGroups != null ==> unchanged(other.withGroups);
  }

  /** Running a query adds conditions to its edge queries, but not to those of a query apart from it. */
  method RunApart(other: AccountQuery, q: AccountQuery, db: Database, ghost rows: seq<AccountRow>,
                  ghost columns: set<string>)
      returns (r: Result<seq<AccountNode>, QueryError>, ghost views: seq<View>)
    requires Apart(q, other)
    requires q.Valid() && HasKeyColumns(db) && DistinctBy(db.accounts.rows, AccountRowID)
    requires Selects(q, db, rows, columns)
    modifies q.base`predicates,
             {q.withGroups}`predicates,
             {q.withGroups}`joins,
             {q.withProxy}`predicates,
             {q.withUsageLogs}`predicates,
             {q.withUsageLogs}`fields,
             {q.JoinBase()}`predicates,
             {q.JoinBase()}`fields,
             {q.JoinGroup()}`predicates
    ensures !old(q.Asks(db)).rejoined ==>
              FailsWith(r, RunError(db, old(q.Asks(db)), old(FirstUnknown(q.base.fields, db.accounts.columns)), rows))
    ensures r.Success? ==> Shows(r.value, views) && AsExpected(db, old(q.Asks(db)), rows, columns, views)
    ensures unchanged(other) && unchanged(other.base)
    ensures other.withGroups != null ==> unchanged(other.withGroups)
    ensures other.withProxy != null ==> unchanged(other.withProxy)
    ensures other.withUsageLogs != null ==> unchanged(other.withUsageLogs)
    ensures other.withAccountGroups != null ==>
              unchanged(other.withAccountGroups) && unchanged(other.withAccountGroups.base)
    ensures other.withAccountGroups != null && other.withAccountGroups.withGroup != null ==>
              unchanged(other.withAccountGroups.withGroup)
  {
    r, views := RunApartFromSome(other, q, db, rows, columns);
    assert other.withUsageLogs != null ==> unchanged(other.withUsageLogs);
    assert other.withAccountGroups != null ==>
        unchanged(other.withAccountGroups) && unchanged(other.withAccountGroups.base);
  }

  /** So it still selects and asks for the same. */
  method RunFirst(other: AccountQuery, q: AccountQuery, db: Database, ghost rows: seq<AccountRow>,
                  ghost columns: set<string>, ghost others: set<string>, ghost asks: Requests)
      returns (r: Result<seq<AccountNode>, QueryError>, ghost views: seq<View>)
    requires Apart(q, other) && other.Valid() && asks == other.Asks(db)
    requires q.Valid() && HasKeyColumns(db) && DistinctBy(db.accounts.rows, AccountRowID)
    requires Selects(q, db, rows, columns) && Selects(other, db, rows, others)
    modifies q.base`predicates,
             {q.withGroups}`predicates,
             {q.withGroups}`joins,
             {q.withProxy}`predicates,
             {q.withUsageLogs}`predicates,
             {q.withUsageLogs}`fields,
             {q.JoinBase()}`predicates,
             {q.JoinBase()}`fields,
             {q.JoinGroup()}`predicates
    ensures !old(q.Asks(db)).rejoined ==>
              FailsWith(r, RunError(db, old(q.Asks(db)), old(FirstUnknown(q.base.fields, db.accounts.columns)), rows))
    ensures r.Success? ==> Shows(r.value, views) && AsExpected(db, old(q.Asks(db)), rows, columns, views)
    ensures other.Valid() && Selects(other, db, rows, others) && other.Asks(db) == asks
    ensures unchanged(other) && (other.withAccountGroups != null ==> unchanged(other.withAccountGroups))
    ensures other.base.fields == old(other.base.fields)
  {
    r, views := RunApart(other, q, db, rows, columns);
  }

  lemma ReadableRuns(q: AccountQuery, db: Database, rows: seq<AccountRow>)
    ensures Readable(q, db) ==>
              RunError(db, q.Asks(db), FirstUnknown(q.base.fields, db.accounts.columns), rows).None?
  {
    NoneInvalidLoads(db, q.Asks(db), rows);
  }

  /** The views of two runs that read different columns of the same rows. */
  lemma SameKeysEverywhere(db: Database, s: Requests, t: Requests, rows: seq<AccountRow>,
                           c: set<string>, d: set<string>, v: seq<View>, w: seq<View>)
    requires AsExpected(db, s, rows, c, v) && AsExpected(db, t, rows, d, w)
    requires SameButColumns(s, t) && HasKeys(s) && HasKeys(t) && "id" in c && "id" in d
    requires s.proxy.Some? ==> "proxy_id" in c && "proxy_id" in d
    ensures |v| == |w| && forall i :: 0 <= i < |v| ==> KeysOf(v[i]) == KeysOf(w[i])
  {
    var x, y := Mapped(rows, AccountDecoder(c)), Mapped(rows, AccountDecoder(d));
    assert Mapped(x, AccountRowID) == Mapped(y, AccountRowID);
    assert s.proxy.Some? ==> Mapped(x, KeyOfRow) == Mapped(y, KeyOfRow);
    forall i | 0 <= i < |rows| ensures KeysOf(v[i]) == KeysOf(w[i]) {
      SameKeys(db, s, t, Mapped(x, AccountRowID), Mapped(x, KeyOfRow), Mapped(y, KeyOfRow), x[i], y[i]);
    }
  }

  /** Two queries that select the same accounts and request the same edges in the same way, but for the
      selected columns of the accounts and of every edge: corresponding accounts have the same edges, and
      both runs succeed if all the columns exist. */
  method SelectColumns(q: AccountQuery, r: AccountQuery, db: Database)
      returns (first: Result<seq<AccountNode>, QueryError>, second: Result<seq<AccountNode>, QueryError>,
               ghost v: seq<View>, ghost w: seq<View>)
    requires q.Valid() && r.Valid() && Apart(q, r)
    requires HasKeyColumns(db) && DistinctBy(db.accounts.rows, AccountRowID)
    requires q.base.Asking() == r.base.Asking() && SameButColumns(q.Asks(db), r.Asks(db))
    modifies q.base, q.withGroups, q.withProxy, q.withUsageLogs,
             (if q.withAccountGroups == null then {} else {q.withAccountGroups.base}),
             (if q.withAccountGroups == null then {} else {q.withAccountGroups.withGroup})
    modifies r.base, r.withGroups, r.withProxy, r.withUsageLogs,
             (if r.withAccountGroups == null then {} else {r.withAccountGroups.base}),
             (if r.withAccountGroups == null then {} else {r.withAccountGroups.withGroup})
    ensures (old(Readable(q, db)) ==> first.Success?) && (old(Readable(r, db)) ==> second.Success?)
    ensures first.Success? && second.Success? ==>
              && Shows(first.value, v) && Shows(second.value, w)
              && |v| == |w| && forall i :: 0 <= i < |v| ==> KeysOf(v[i]) == KeysOf(w[i])
  {
    ghost var rows := Selected(db.accounts.rows, q.base.Asking());
    ghost var c, d := Kept(db.accounts.columns, q.base.fields, q.Needed()),
                      Kept(db.accounts.columns, r.base.fields, r.Needed());
    ghost var s, t := q.Asks(db), r.Asks(db);
    EveryKeyIsKept(q, db);
    EveryKeyIsKept(r, db);
    ReadableRuns(q, db, rows);
    ReadableRuns(r, db, rows);
    first, v := RunFirst(r, q, db, rows, c, d, t);
    var nodes := if first.Success? then first.value else [];
    v := if first.Success? then v else [];
    second, w := RunBeside(nodes, v, r, db, rows, d);
    if first.Success? && second.Success? {
      SameKeysEverywhere(db, s, t, rows, c, d, v, w);
    }
  }
}
