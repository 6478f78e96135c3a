/** What an edge holds depends on its own query and the parents alone: not on the selected columns, the
    other edges or earlier runs. */
module IndependentEdges {
  import opened Wrappers
  import opened Rows
  import opened Joins
  import opened Queries
  import opened EagerLoading
  import opened AccountQueries
  import opened ManyToOne
  import opened ManyToMany
  import opened EdgeViews

  lemma AgreeSelects<Row(!new)>(rows: seq<Row>, s: Selection<Row>, t: Selection<Row>, p: Row -> bool)
    requires Agree(s, t, p)
    ensures Selected(rows, And(s, p)) == Selected(rows, And(t, p))
  {
    AndSatisfies(s.predicates, [p]);
    AndSatisfies(t.predicates, [p]);
    OneSatisfies(p);
    SelectedCongruent(rows, And(s, p), And(t, p));
  }

  /** A loader leaves its condition on the edge query. Running it again, with the condition once more,
      selects the same, and so does any later run. */
  lemma RunAgainSelectsTheSame<Row(!new)>(rows: seq<Row>, first: Selection<Row>, second: Selection<Row>,
                                          third: Selection<Row>, p: Row -> bool)
    requires Narrowed(second, first, p) && Narrowed(third, second, p)
    ensures Selected(rows, And(second, p)) == Selected(rows, And(first, p))
    ensures Narrowed(third, first, p)
  {
    AgreeSelects(rows, first, second, p);
  }

  // ----- what is attached, disregarding the columns that were read of it -----

  function GroupIDs(s: seq<GroupRow>): seq<int> { Mapped(s, GroupID) }

  function IDOf(p: Option<ProxyRow>): Option<int> {
    if p.None? then None else Some(p.value.id)
  }

  function LogRowID(r: UsageLogRow): int { r.id }

  function AccountOfJoin(j: (AccountGroupRow, Option<GroupRow>)): int { j.0.accountID }

  function GroupOfJoin(j: (AccountGroupRow, Option<GroupRow>)): int { j.0.groupID }

  function ReachedFromJoin(j: (AccountGroupRow, Option<GroupRow>)): Option<int> {
    if j.1.None? then None else Some(j.1.value.id)
  }

  lemma SameGroupKeys(db: Database, s: Ask<GroupRow>, t: Ask<GroupRow>, ids: seq<int>, id: int)
    requires s.selection == t.selection && "id" in s.columns && "id" in t.columns
    ensures GroupIDs(ExpectedGroups(db, Some(s), ids, id)) == GroupIDs(ExpectedGroups(db, Some(t), ids, id))
  {}

  lemma SameProxyKey(db: Database, s: Ask<ProxyRow>, t: Ask<ProxyRow>, keys: seq<Option<int>>, key: Option<int>)
    requires Agree(s.selection, t.selection, ProxyIDIn(DistinctKeys(keys)))
    requires "id" in s.columns && "id" in t.columns
    ensures IDOf(ExpectedProxy(db, Some(s), keys, key)) == IDOf(ExpectedProxy(db, Some(t), keys, key))
  {
    AgreeSelects(db.proxies.rows, s.selection, t.selection, ProxyIDIn(DistinctKeys(keys)));
  }

  lemma SameLogKeys(db: Database, s: Ask<UsageLogRow>, t: Ask<UsageLogRow>, ids: seq<int>, id: int)
    requires Agree(s.selection, t.selection, LogAccountIn(ids)) && "id" in s.columns && "id" in t.columns
    ensures Mapped(ExpectedLogs(db, Some(s), ids, id), LogRowID) == Mapped(ExpectedLogs(db, Some(t), ids, id), LogRowID)
  {
    AgreeSelects(db.usageLogs.rows, s.selection, t.selection, LogAccountIn(ids));
  }

  lemma SameJoinKeys(db: Database, s: Ask<AccountGroupRow>, sg: Option<Ask<GroupRow>>,
                     t: Ask<AccountGroupRow>, tg: Option<Ask<GroupRow>>, ids: seq<int>, id: int)
    requires Agree(s.selection, t.selection, RowAccountIn(ids)) && "account_id" in s.columns &&
             "account_id" in t.columns
    ensures var v, w := ExpectedJoins(db, Some(s), sg, ids, id), ExpectedJoins(db, Some(t), tg, ids, id);
            && Mapped(v, AccountOfJoin) == Mapped(w, AccountOfJoin)
            && ("group_id" in s.columns && "group_id" in t.columns ==> Mapped(v, GroupOfJoin) == Mapped(w, GroupOfJoin))
  {
    AgreeSelects(db.accountGroups.rows, s.selection, t.selection, RowAccountIn(ids));
  }

  lemma SameReached(db: Database, s: Ask<AccountGroupRow>, sg: Ask<GroupRow>,
                    t: Ask<AccountGroupRow>, tg: Ask<GroupRow>, ids: seq<int>, id: int)
    requires Agree(s.selection, t.selection, RowAccountIn(ids)) && "id" in sg.columns && "id" in tg.columns
    requires Agree(sg.selection, tg.selection, GroupsOfJoins(db, s.selection, ids))
    ensures Mapped(ExpectedJoins(db, Some(s), Some(sg), ids, id), ReachedFromJoin) ==
            Mapped(ExpectedJoins(db, Some(t), Some(tg), ids, id), ReachedFromJoin)
  {
    AgreeSelects(db.accountGroups.rows, s.selection, t.selection, RowAccountIn(ids));
    AgreeSelects(db.groups.rows, sg.selection, tg.selection, GroupsOfJoins(db, s.selection, ids));
  }

  /** The groups that the join rows of these accounts refer to. */
  ghost function GroupsOfJoins(db: Database, s: Selection<AccountGroupRow>, ids: seq<int>): GroupRow -> bool {
    GroupIDIn(DistinctKeys(Mapped(JoinRowsOf(db, s, ids), KeyOfJoinRow)))
  }

  // ----- two loads of the same accounts -----

  ghost predicate GroupsAgree(s: Requests, v: View, t: Requests, w: View) {
    s.groups.Some? && t.groups.Some? && !s.rejoined && !t.rejoined &&
    s.groups.value.selection == t.groups.value.selection ==>
      GroupIDs(v.groups) == GroupIDs(w.groups)
  }

  ghost predicate ProxyAgrees(s: Requests, v: View, t: Requests, w: View, keys: seq<Option<int>>) {
    s.proxy.Some? && t.proxy.Some? && v.row.proxyID == w.row.proxyID &&
    Agree(s.proxy.value.selection, t.proxy.value.selection, ProxyIDIn(DistinctKeys(keys))) ==>
      IDOf(v.proxy) == IDOf(w.proxy)
  }

  ghost predicate LogsAgree(s: Requests, v: View, t: Requests, w: View, ids: seq<int>) {
    s.usageLogs.Some? && t.usageLogs.Some? &&
    Agree(s.usageLogs.value.selection, t.usageLogs.value.selection, LogAccountIn(ids)) ==>
      Mapped(v.usageLogs, LogRowID) == Mapped(w.usageLogs, LogRowID)
  }

  /** The join nodes agree whatever is asked of their groups; so do the groups if both ask for them. */
  ghost predicate JoinsAgree(db: Database, s: Requests, v: View, t: Requests, w: View, ids: seq<int>) {
    s.accountGroups.Some? && t.accountGroups.Some? &&
    Agree(s.accountGroups.value.selection, t.accountGroups.value.selection, RowAccountIn(ids)) ==>
      && Mapped(v.accountGroups, AccountOfJoin) == Mapped(w.accountGroups, AccountOfJoin)
      && ("group_id" in s.accountGroups.value.columns && "group_id" in t.accountGroups.value.columns ==>
            Mapped(v.accountGroups, GroupOfJoin) == Mapped(w.accountGroups, GroupOfJoin))
      && (s.joinGroup.Some? && t.joinGroup.Some? &&
          Agree(s.joinGroup.value.selection, t.joinGroup.value.selection,
                GroupsOfJoins(db, s.accountGroups.value.selection, ids)) ==>
            Mapped(v.accountGroups, ReachedFromJoin) == Mapped(w.accountGroups, ReachedFromJoin))
  }

  lemma ExpectedAgrees(db: Database, s: Requests, t: Requests, ids: seq<int>, keys: seq<Option<int>>,
                       x: AccountRow, y: AccountRow)
    requires HasKeys(s) && HasKeys(t) && x.id == y.id
    ensures var v, w := Expected(db, s, ids, keys, x), Expected(db, t, ids, keys, y);
            && GroupsAgree(s, v, t, w) && ProxyAgrees(s, v, t, w, keys)
            && LogsAgree(s, v, t, w, ids) && JoinsAgree(db, s, v, t, w, ids)
  {
    var id := x.id;
    if s.groups.Some? && t.groups.Some? && s.groups.value.selection == t.groups.value.selection {
      SameGroupKeys(db, s.groups.value, t.groups.value, ids, id);
    }
    if s.proxy.Some? && t.proxy.Some? && x.proxyID == y.proxyID &&
       Agree(s.proxy.value.selection, t.proxy.value.selection, ProxyIDIn(DistinctKeys(keys)))
    {
      SameProxyKey(db, s.proxy.value, t.proxy.value, keys, x.proxyID);
    }
    if s.usageLogs.Some? && t.usageLogs.Some? &&
       Agree(s.usageLogs.value.selection, t.usageLogs.value.selection, LogAccountIn(ids))
    {
      SameLogKeys(db, s.usageLogs.value, t.usageLogs.value, ids, id);
    }
    JoinsExpectedAgree(db, s, t, ids, keys, x, y);
  }

  lemma JoinsExpectedAgree(db: Database, s: Requests, t: Requests, ids: seq<int>, keys: seq<Option<int>>,
                           x: AccountRow, y: AccountRow)
    requires HasKeys(s) && HasKeys(t) && x.id == y.id
    ensures JoinsAgree(db, s, Expected(db, s, ids, keys, x), t, Expected(db, t, ids, keys, y), ids)
  {
    if s.accountGroups.Some? && t.accountGroups.Some? &&
       Agree(s.accountGroups.value.selection, t.accountGroups.value.selection, RowAccountIn(ids))
    {
      SameJoinKeys(db, s.accountGroups.value, s.joinGroup, t.accountGroups.value, t.joinGroup, ids, x.id);
      if s.joinGroup.Some? && t.joinGroup.Some? &&
         Agree(s.joinGroup.value.selection, t.joinGroup.value.selection,
               GroupsOfJoins(db, s.accountGroups.value.selection, ids))
      {
        SameReached(db, s.accountGroups.value, s.joinGroup.value, t.accountGroups.value, t.joinGroup.value, ids, x.id);
      }
    }
  }

  /** Every edge that both loads request, with queries that accept the same, attaches the same, whatever
      columns are selected and whatever other edges are requested. */
  lemma EdgesAreIndependent(db: Database, s: Requests, ns: seq<AccountNode>, fs: Fetched,
                            t: Requests, nt: seq<AccountNode>, ft: Fetched, i: nat)
    requires EdgesLoaded(db, s, ns, fs) && EdgesLoaded(db, t, nt, ft) && HasKeys(s) && HasKeys(t)
    requires Mapped(ns, AccountID) == Mapped(nt, AccountID) && i < |ns| == |nt|
    ensures var v, w, ids := ViewOf(ns[i]), ViewOf(nt[i]), Mapped(ns, AccountID);
            && GroupsAgree(s, v, t, w)
            && (Mapped(ns, ProxyKey) == Mapped(nt, ProxyKey) ==> ProxyAgrees(s, v, t, w, Mapped(ns, ProxyKey)))
            && LogsAgree(s, v, t, w, ids) && JoinsAgree(db, s, v, t, w, ids)
  {
    var ids, keys, x, y := Mapped(ns, AccountID), Mapped(ns, ProxyKey), ns[i].row, nt[i].row;
    assert ids[i] == Mapped(nt, AccountID)[i];
    LoadedIsExpected(db, s, ns, fs, i);
    LoadedIsExpected(db, t, nt, ft, i);
    ExpectedAgrees(db, s, t, ids, keys, x, y);
    JoinsOfExpected(db, t, ids, keys, Mapped(nt, ProxyKey), y);
  }

  /** Only the proxy depends on the foreign keys of the accounts. */
  lemma JoinsOfExpected(db: Database, q: Requests, ids: seq<int>, ks: seq<Option<int>>, kt: seq<Option<int>>,
                        r: AccountRow)
    ensures Expected(db, q, ids, ks, r).(proxy := None) == Expected(db, q, ids, kt, r).(proxy := None)
  {}

  // ----- requests that differ in the columns -----

  /** Both request the same edges with the same selections; each may read its own columns. */
  ghost predicate SameButColumns(s: Requests, t: Requests) {
    && !s.rejoined && !t.rejoined
    && s.groups.Some? == t.groups.Some? && (s.groups.Some? ==> s.groups.value.selection == t.groups.value.selection)
    && s.proxy.Some? == t.proxy.Some? && (s.proxy.Some? ==> s.proxy.value.selection == t.proxy.value.selection)
    && s.usageLogs.Some? == t.usageLogs.Some?
    && (s.usageLogs.Some? ==> s.usageLogs.value.selection == t.usageLogs.value.selection)
    && s.accountGroups.Some? == t.accountGroups.Some?
    && (s.accountGroups.Some? ==> s.accountGroups.value.selection == t.accountGroups.value.selection)
    && s.joinGroup.Some? == t.joinGroup.Some?
    && (s.joinGroup.Some? ==> s.joinGroup.value.selection == t.joinGroup.value.selection)
  }

  /** An account with what is attached to it, disregarding the columns that were read. */
  datatype EdgeKeys = EdgeKeys(
    id: int,
    groups: seq<int>,
    proxy: Option<int>,
    usageLogs: seq<int>,
    accountGroups: seq<int>,
    reached: seq<Option<int>>)

  function KeysOf(v: View): EdgeKeys {
    EdgeKeys(v.row.id, GroupIDs(v.groups), IDOf(v.proxy), Mapped(v.usageLogs, LogRowID),
             Mapped(v.accountGroups, AccountOfJoin), Mapped(v.accountGroups, ReachedFromJoin))
  }

  /** No selection of columns loses an edge or attaches another one. */
  lemma SameKeys(db: Database, s: Requests, t: Requests, ids: seq<int>, ks: seq<Option<int>>, kt: seq<Option<int>>,
                 x: AccountRow, y: AccountRow)
    requires SameButColumns(s, t) && HasKeys(s) && HasKeys(t) && x.id == y.id
    requires s.proxy.Some? ==> ks == kt && x.proxyID == y.proxyID
    ensures KeysOf(Expected(db, s, ids, ks, x)) == KeysOf(Expected(db, t, ids, kt, y))
  {
    var v, w := Expected(db, s, ids, ks, x), Expected(db, t, ids, ks, y);
    ExpectedAgrees(db, s, t, ids, ks, x, y);
    JoinsOfExpected(db, t, ids, ks, kt, y);
    assert |Mapped(v.accountGroups, AccountOfJoin)| == |Mapped(w.accountGroups, AccountOfJoin)|;
    assert Mapped(v.accountGroups, ReachedFromJoin) == Mapped(w.accountGroups, ReachedFromJoin);
  }

  /** The columns that the queries keep are enough: every edge query reads the keys that its loader
      looks at, and the account query those of the account. */
  lemma EveryKeyIsKept(q: AccountQuery, db: Database)
    requires HasKeyColumns(db)
    ensures HasKeys(q.Asks(db))
    ensures var columns := Kept(db.accounts.columns, q.base.fields, q.Needed());
            "id" in columns && (q.withProxy != null ==> "proxy_id" in columns)
  {}

  /** The flags that a query sets on its accounts are those of the edges it asks for. */
  lemma RequestedIsAsked(q: AccountQuery, db: Database)
    ensures var asks := q.Asks(db);
            && (q.Requested().groups <==> asks.groups.Some?) && (q.Requested().proxy <==> asks.proxy.Some?)
            && (q.Requested().usageLogs <==> asks.usageLogs.Some?)
            && (q.Requested().accountGroups <==> asks.accountGroups.Some?)
  {}

  /** Asking a node for an edge that was not requested fails as not loaded, and asking for a requested
      one never does; a proxy that is not there is not found. */
  lemma EdgeErrors(db: Database, q: Requests, nodes: seq<AccountNode>, f: Fetched, a: AccountNode)
    requires EdgesLoaded(db, q, nodes, f) && a in nodes && HasKeys(q)
    requires a.loaded == Loaded(q.groups.Some?, q.proxy.Some?, q.usageLogs.Some?, q.accountGroups.Some?)
    requires DistinctBy(db.proxies.rows, ProxyRowID)
    ensures a.GroupsOrErr() == Failure(NotLoaded("groups")) <==> q.groups.None?
    ensures a.UsageLogsOrErr() == Failure(NotLoaded("usage_logs")) <==> q.usageLogs.None?
    ensures a.AccountGroupsOrErr() == Failure(NotLoaded("account_groups")) <==> q.accountGroups.None?
    ensures a.ProxyOrErr() == Failure(NotLoaded("proxy")) <==> q.proxy.None?
    ensures q.groups.Some? ==> a.GroupsOrErr() == Success(a.groups)
    ensures q.usageLogs.Some? ==> a.UsageLogsOrErr() == Success(a.usageLogs)
    ensures q.accountGroups.Some? ==> a.AccountGroupsOrErr() == Success(a.accountGroups)
    ensures a.proxy != null ==> a.ProxyOrErr() == Success(a.proxy)
    ensures q.proxy.Some? && Unpaged(q.proxy.value.selection) ==>
              (a.ProxyOrErr() == Failure(NotFound("proxy")) <==>
               forall p <- db.proxies.rows :: !RefersTo(q.proxy.value.selection.predicates, a.row, p))
  {
    if q.proxy.Some? && Unpaged(q.proxy.value.selection) {
      ProxyIsTheOneReferred(db, q.proxy.value.selection, q.proxy.value.columns, nodes, f.proxies, a);
    }
  }

  /** The same for the group of a join node. */
  lemma JoinNodeErrors(db: Database, q: Requests, nodes: seq<AccountNode>, f: Fetched, ag: AccountGroup)
    requires JoinsEdge(db, q, nodes, f.accountGroups, f.joinGroups) && q.accountGroups.Some? && HasKeys(q)
    requires ag in f.accountGroups && DistinctBy(db.groups.rows, GroupID)
    ensures ag.GroupOrErr() == Failure(NotLoaded("group")) <==> q.joinGroup.None?
    ensures ag.group != null ==> ag.GroupOrErr() == Success(ag.group)
    ensures q.joinGroup.Some? && Unpaged(q.joinGroup.value.selection) ==>
              (ag.GroupOrErr() == Failure(NotFound("group")) <==>
               forall g <- db.groups.rows ::
                 g.id == ag.row.groupID ==> !Satisfies(q.joinGroup.value.selection.predicates, g))
  {
    if q.joinGroup.Some? && Unpaged(q.joinGroup.value.selection) {
      GroupIsTheOneReferred(db, q.joinGroup.value.selection, q.joinGroup.value.columns,
                            f.accountGroups, f.joinGroups, ag);
    }
  }

  /** None of the requests selects a column that does not exist. */
  predicate NoneInvalid(q: Requests) {
    && (q.groups.Some? ==> q.groups.value.invalid.None?) && (q.proxy.Some? ==> q.proxy.value.invalid.None?)
    && (q.usageLogs.Some? ==> q.usageLogs.value.invalid.None?)
    && (q.accountGroups.Some? ==> q.accountGroups.value.invalid.None?)
    && (q.joinGroup.Some? ==> q.joinGroup.value.invalid.None?)
  }

  lemma NoneInvalidLoads(db: Database, q: Requests, rows: seq<AccountRow>)
    ensures NoneInvalid(q) ==> EdgeError(db, q, rows).None?
  {}

  /** The query selects columns that exist, and so do those of its edges; its many-to-many query was not
      run before. */
  ghost predicate Readable(q: AccountQuery, db: Database)
    reads q, q.base, q.withGroups, q.withProxy, q.withUsageLogs, q.withAccountGroups,
          (if q.withAccountGroups == null then {} else {q.withAccountGroups.base}),
          (if q.withAccountGroups == null then {} else {q.withAccountGroups.withGroup})
  {
    FirstUnknown(q.base.fields, db.accounts.columns).None? && NoneInvalid(q.Asks(db)) && !q.Asks(db).rejoined
  }
}
