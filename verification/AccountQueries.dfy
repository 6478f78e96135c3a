/** The account and account-group queries with their loaders: each edge is a second query whose nodes
    are stitched to those of the first. */
module AccountQueries {
  import opened Wrappers
  import opened Rows
  import opened Joins
  import opened Queries
  import opened EagerLoading

  // ----- the conditions that loaders add -----

  function ProxyIDIn(ids: seq<int>): ProxyRow -> bool { (r: ProxyRow) => r.id in ids }

  function GroupIDIn(ids: seq<int>): GroupRow -> bool { (r: GroupRow) => r.id in ids }

  function LogAccountIn(ids: seq<int>): UsageLogRow -> bool { (r: UsageLogRow) => r.accountID in ids }

  function RowAccountIn(ids: seq<int>): AccountGroupRow -> bool { (r: AccountGroupRow) => r.accountID in ids }

  function AccountRowID(r: AccountRow): int { r.id }

  /** The columns that the keys and foreign keys live in exist. */
  predicate HasKeyColumns(db: Database) {
    && "id" in db.accounts.columns && "proxy_id" in db.accounts.columns
    && "id" in db.groups.columns && "id" in db.proxies.columns
    && "id" in db.usageLogs.columns && "account_id" in db.usageLogs.columns
    && "account_id" in db.accountGroups.columns && "group_id" in db.accountGroups.columns
  }

  // ----- nodes that correspond to rows, each decoded from the columns that were read -----

  ghost predicate DecodesGroups(nodes: seq<Group>, rows: seq<GroupRow>, columns: set<string>) {
    |nodes| == |rows| && forall i :: 0 <= i < |nodes| ==> nodes[i].row == DecodeGroup(rows[i], columns)
  }

  ghost predicate DecodesProxies(nodes: seq<Proxy>, rows: seq<ProxyRow>, columns: set<string>) {
    |nodes| == |rows| && forall i :: 0 <= i < |nodes| ==> nodes[i].row == DecodeProxy(rows[i], columns)
  }

  ghost predicate DecodesUsageLogs(nodes: seq<UsageLog>, rows: seq<UsageLogRow>, columns: set<string>) {
    |nodes| == |rows| && forall i :: 0 <= i < |nodes| ==> nodes[i].row == DecodeUsageLog(rows[i], columns)
  }

  ghost predicate DecodesAccountGroups(nodes: seq<AccountGroup>, rows: seq<AccountGroupRow>, columns: set<string>) {
    |nodes| == |rows| && forall i :: 0 <= i < |nodes| ==> nodes[i].row == DecodeAccountGroup(rows[i], columns)
  }

  ghost predicate DecodesAccounts(nodes: seq<AccountNode>, rows: seq<AccountRow>, columns: set<string>) {
    |nodes| == |rows| && forall i :: 0 <= i < |nodes| ==> nodes[i].row == DecodeAccount(rows[i], columns)
  }

  /** Further runs of a query accept what they accepted before, with one more condition. */
  ghost predicate Narrowed<Row(!new)>(now: Selection<Row>, before: Selection<Row>, p: Row -> bool) {
    && now.before == before.before && now.offset == before.offset && now.limit == before.limit
    && forall r :: Satisfies(now.predicates, r) <==> Satisfies(before.predicates, r) && p(r)
  }

  /** Two edge queries that accept the same of the rows with p. */
  ghost predicate Agree<Row(!new)>(s: Selection<Row>, t: Selection<Row>, p: Row -> bool) {
    && s.before == t.before && s.offset == t.offset && s.limit == t.limit
    && forall r :: p(r) ==> (Satisfies(s.predicates, r) <==> Satisfies(t.predicates, r))
  }

  // ----- what a loaded edge is: a function of the database, the edge query and the parents -----

  ghost predicate GroupsLoaded(db: Database, s: Selection<GroupRow>, columns: set<string>,
                               nodes: seq<AccountNode>, neighbors: seq<Group>)
    reads nodes`groups
  {
    var pairs := GroupPairs(db, s, Mapped(nodes, AccountID));
    && DecodesGroups(neighbors, FirstOfEach(Mapped(pairs, Second), GroupID), columns)
    && forall a <- nodes :: a.groups == Keep(neighbors, NodeJoinedTo(pairs, a.row.id))
  }

  ghost predicate ProxiesLoaded(db: Database, s: Selection<ProxyRow>, columns: set<string>,
                                nodes: seq<AccountNode>, neighbors: seq<Proxy>)
    reads nodes`proxy
  {
    var ids := DistinctKeys(Mapped(nodes, ProxyKey));
    && DecodesProxies(neighbors, if ids == [] then [] else Selected(db.proxies.rows, And(s, ProxyIDIn(ids))), columns)
    && forall a <- nodes :: a.proxy == ProxyFor(neighbors, a.row.proxyID)
  }

  ghost predicate UsageLogsLoaded(db: Database, s: Selection<UsageLogRow>, columns: set<string>,
                                  nodes: seq<AccountNode>, neighbors: seq<UsageLog>)
    reads nodes`usageLogs
  {
    && DecodesUsageLogs(neighbors, Selected(db.usageLogs.rows, And(s, LogAccountIn(Mapped(nodes, AccountID)))), columns)
    && forall a <- nodes :: a.usageLogs == Keep(neighbors, LogOf(a.row.id))
  }

  ghost predicate AccountGroupsLoaded(db: Database, s: Selection<AccountGroupRow>, columns: set<string>,
                                      nodes: seq<AccountNode>, neighbors: seq<AccountGroup>)
    reads nodes`accountGroups
  {
    && DecodesAccountGroups(neighbors,
                            Selected(db.accountGroups.rows, And(s, RowAccountIn(Mapped(nodes, AccountID)))), columns)
    && forall a <- nodes :: a.accountGroups == Keep(neighbors, RowOf(a.row.id))
  }

  ghost predicate JoinGroupsLoaded(db: Database, s: Selection<GroupRow>, columns: set<string>,
                                   nodes: seq<AccountGroup>, neighbors: seq<Group>)
    reads nodes`group
  {
    && var keys := DistinctKeys(Mapped(nodes, JoinKey));
    && DecodesGroups(neighbors, if nodes == [] then [] else Selected(db.groups.rows, And(s, GroupIDIn(keys))), columns)
    && forall ag <- nodes :: ag.group == GroupFor(neighbors, ag.row.groupID)
  }

  /** One edge query as a value: what it selects, which columns it reads, the error if it selects a column
      that does not exist, and all it is made of. */
  datatype Ask<!Row> = Ask(
    selection: Selection<Row>,
    columns: set<string>,
    invalid: Option<QueryError>,
    contents: Content<Row>)

  /** What a loader leaves of the query of its edge. */
  function Left<Row>(ask: Option<Ask<Row>>, added: Added<Row>, ran: bool): Option<Ask<Row>> {
    if ask.None? || !ran then ask
    else
      var now := ask.value.contents.With(added).Traversed();
      Some(ask.value.(selection := now.Asking(), contents := now))
  }

  /** After a run an edge query fails on the same columns, reads the same ones and accepts the same of the
      rows it was run for. */
  ghost predicate StaysPut<Row(!new)>(was: Option<Ask<Row>>, now: Option<Ask<Row>>, p: Row -> bool) {
    && was.Some? == now.Some?
    && (was.Some? ==>
          && now.value.columns == was.value.columns && now.value.invalid == was.value.invalid
          && Agree(was.value.selection, now.value.selection, p))
  }

  /** The requested edges; joinGroup is the group edge of the requested join nodes. The many-to-many edge
      is rejoined if its query was run for such an edge before. */
  datatype Requests = Requests(
    groups: Option<Ask<GroupRow>>,
    rejoined: bool,
    proxy: Option<Ask<ProxyRow>>,
    usageLogs: Option<Ask<UsageLogRow>>,
    accountGroups: Option<Ask<AccountGroupRow>>,
    joinGroup: Option<Ask<GroupRow>>)

  /** The nodes that the edge queries returned. */
  datatype Fetched = Fetched(
    groups: seq<Group>,
    proxies: seq<Proxy>,
    usageLogs: seq<UsageLog>,
    accountGroups: seq<AccountGroup>,
    joinGroups: seq<Group>)

  ghost predicate GroupsEdge(db: Database, q: Requests, nodes: seq<AccountNode>, groups: seq<Group>)
    reads nodes`groups
  {
    if q.groups.None? then forall a <- nodes :: a.groups == []
    else !q.rejoined ==>
           GroupsLoaded(db, q.groups.value.selection, q.groups.value.columns, nodes, groups)
  }

  ghost predicate ProxyEdge(db: Database, q: Requests, nodes: seq<AccountNode>, proxies: seq<Proxy>)
    reads nodes`proxy
  {
    if q.proxy.Some? then ProxiesLoaded(db, q.proxy.value.selection, q.proxy.value.columns, nodes, proxies)
    else forall a <- nodes :: a.proxy == null
  }

  ghost predicate UsageLogsEdge(db: Database, q: Requests, nodes: seq<AccountNode>, logs: seq<UsageLog>)
    reads nodes`usageLogs
  {
    if q.usageLogs.Some? then
      UsageLogsLoaded(db, q.usageLogs.value.selection, q.usageLogs.value.columns, nodes, logs)
    else forall a <- nodes :: a.usageLogs == []
  }

  ghost predicate JoinsEdge(db: Database, q: Requests, nodes: seq<AccountNode>,
                            joins: seq<AccountGroup>, groups: seq<Group>)
    reads nodes`accountGroups, joins`group
  {
    if q.accountGroups.Some? then
      && AccountGroupsLoaded(db, q.accountGroups.value.selection, q.accountGroups.value.columns, nodes, joins)
      && (forall ag <- joins :: ag.groupLoaded == q.joinGroup.Some?)
      && (if q.joinGroup.Some? then
            JoinGroupsLoaded(db, q.joinGroup.value.selection, q.joinGroup.value.columns, joins, groups)
          else forall ag <- joins :: ag.group == null)
    else forall a <- nodes :: a.accountGroups == []
  }

  /** Every edge holds what its own query determines; an edge that was not requested is empty. */
  ghost predicate EdgesLoaded(db: Database, q: Requests, nodes: seq<AccountNode>, f: Fetched)
    reads nodes`groups, nodes`proxy, nodes`usageLogs, nodes`accountGroups, f.accountGroups`group
  {
    && GroupsEdge(db, q, nodes, f.groups)
    && ProxyEdge(db, q, nodes, f.proxies)
    && UsageLogsEdge(db, q, nodes, f.usageLogs)
    && JoinsEdge(db, q, nodes, f.accountGroups, f.joinGroups)
  }

  /** The edge queries over a foreign key, run again for the same accounts, ask for what they did. */
  ghost predicate AllStayPut(was: Requests, now: Requests, nodes: seq<AccountNode>, joins: seq<AccountGroup>) {
    && was.groups.Some? == now.groups.Some?
    && StaysPut(was.proxy, now.proxy, ProxyIDIn(DistinctKeys(Mapped(nodes, ProxyKey))))
    && StaysPut(was.usageLogs, now.usageLogs, LogAccountIn(Mapped(nodes, AccountID)))
    && StaysPut(was.accountGroups, now.accountGroups, RowAccountIn(Mapped(nodes, AccountID)))
    && StaysPut(was.joinGroup, now.joinGroup, GroupIDIn(DistinctKeys(Mapped(joins, JoinKey))))
  }

  /** What loading the edges of the accounts leaves of the edge queries. */
  function LeftBehind(q: Requests, nodes: seq<AccountNode>, joins: seq<AccountGroup>): Requests {
    var ids := Mapped(nodes, AccountID);
    var proxies, groups := DistinctKeys(Mapped(nodes, ProxyKey)), DistinctKeys(Mapped(joins, JoinKey));
    Requests(Left(q.groups, OwnersJoined(ids), true), q.groups.Some?,
             Left(q.proxy, ProxiesWanted(proxies), proxies != []),
             Left(q.usageLogs, LogsWanted(ids), true),
             Left(q.accountGroups, JoinsWanted(ids), true),
             Left(q.joinGroup, GroupsWanted(groups), joins != []))
  }

  ghost predicate IsContents<Row>(ask: Option<Ask<Row>>) {
    ask.Some? ==> ask.value.selection == ask.value.contents.Asking()
  }

  ghost predicate AllContents(q: Requests) {
    && IsContents(q.groups) && IsContents(q.proxy) && IsContents(q.usageLogs)
    && IsContents(q.accountGroups) && IsContents(q.joinGroup)
  }

  lemma LeftStaysPut<Row(!new)>(ask: Option<Ask<Row>>, added: Added<Row>, p: Row -> bool, ran: bool)
    requires added.condition == Some(p) && IsContents(ask)
    ensures StaysPut(ask, Left(ask, added, ran), p)
  {
    if ask.Some? && ran {
      var c := ask.value.contents;
      WhereThenRun([], c.predicates, c.traversers, p, c.Asking());
    }
  }

  /** What a run leaves of the edge queries over a foreign key asks for the same when it is run again. */
  lemma LeftBehindStaysPut(q: Requests, nodes: seq<AccountNode>, joins: seq<AccountGroup>)
    requires AllContents(q)
    ensures AllStayPut(q, LeftBehind(q, nodes, joins), nodes, joins)
  {
    var ids := Mapped(nodes, AccountID);
    var proxies, groups := DistinctKeys(Mapped(nodes, ProxyKey)), DistinctKeys(Mapped(joins, JoinKey));
    LeftStaysPut(q.proxy, ProxiesWanted(proxies), ProxyIDIn(proxies), proxies != []);
    LeftStaysPut(q.usageLogs, LogsWanted(ids), LogAccountIn(ids), true);
    LeftStaysPut(q.accountGroups, JoinsWanted(ids), RowAccountIn(ids), true);
    LeftStaysPut(q.joinGroup, GroupsWanted(groups), GroupIDIn(groups), joins != []);
  }

  // ----- when loading fails: an edge query that is run selects a column that does not exist -----

  function GroupsError(q: Requests): Option<QueryError> {
    if q.groups.Some? then q.groups.value.invalid else None
  }

  /** The proxy query is not run if no account has a proxy. */
  function ProxyError(q: Requests, keys: seq<Option<int>>): Option<QueryError> {
    if q.proxy.Some? && DistinctKeys(keys) != [] then q.proxy.value.invalid else None
  }

  function UsageLogsError(q: Requests): Option<QueryError> {
    if q.usageLogs.Some? then q.usageLogs.value.invalid else None
  }

  /** The group query of the join nodes is not run if there are none. */
  function JoinsError(db: Database, q: Requests, ids: seq<int>): Option<QueryError> {
    if q.accountGroups.None? then None
    else if q.accountGroups.value.invalid.Some? then q.accountGroups.value.invalid
    else if q.joinGroup.Some? &&
            Selected(db.accountGroups.rows, And(q.accountGroups.value.selection, RowAccountIn(ids))) != []
      then q.joinGroup.value.invalid
    else None
  }

  function OrElse(e: Option<QueryError>, f: Option<QueryError>): Option<QueryError> {
    if e.Some? then e else f
  }

  /** The error of the first edge that fails, for accounts with these identifiers and foreign keys. */
  function LoadError(db: Database, q: Requests, ids: seq<int>, keys: seq<Option<int>>): Option<QueryError> {
    OrElse(GroupsError(q), OrElse(ProxyError(q, keys), OrElse(UsageLogsError(q), JoinsError(db, q, ids))))
  }

  // ----- what the loaders add to the queries of the edges -----

  function ProxiesWanted(ids: seq<int>): Added<ProxyRow> {
    Added(None, Some(ProxyIDIn(ids)), None)
  }

  function LogsWanted(ids: seq<int>): Added<UsageLogRow> {
    Added(Some("account_id"), Some(LogAccountIn(ids)), None)
  }

  function JoinsWanted(ids: seq<int>): Added<AccountGroupRow> {
    Added(Some("account_id"), Some(RowAccountIn(ids)), None)
  }

  function GroupsWanted(ids: seq<int>): Added<GroupRow> {
    Added(None, Some(GroupIDIn(ids)), None)
  }

  function OwnersJoined(ids: seq<int>): Added<GroupRow> {
    Added(None, None, Some(ids))
  }

  // ----- many to one: the proxy of an account -----

  /** Asks for the proxies with the given identifiers. */
  method FetchProxies(query: Query<ProxyRow>, ids: seq<int>, db: Database) returns (r: Result<seq<Proxy>, QueryError>)
    requires HasKeyColumns(db)
    modifies query`predicates
    ensures query.Contents() == old(query.Contents()).With(ProxiesWanted(ids)).Traversed()
    ensures Narrowed(query.Asking(), old(query.Asking()), ProxyIDIn(ids))
    ensures var err := FirstUnknown(query.fields, db.proxies.columns);
            && (r.Failure? <==> err.Some?) && (r.Failure? ==> r.error == err.value)
    ensures r.Success? ==>
              && (forall n <- r.value :: fresh(n) && n.row.id in ids)
              && DecodesProxies(r.value, Selected(db.proxies.rows, And(old(query.Asking()), ProxyIDIn(ids))),
                                Kept(db.proxies.columns, query.fields, {"id"}))
  {
    WhereThenRun(db.proxies.rows, query.predicates, query.traversers, ProxyIDIn(ids), query.Asking());
    query.Where(ProxyIDIn(ids));
    var fetched := query.Run(db.proxies);
    if fetched.Failure? {
      return Failure(fetched.error);
    }
    var columns := query.SpecColumns(db.proxies.columns, Some("id"), []);
    var proxies := NewProxies(fetched.value, set c | c in columns);
    forall i | 0 <= i < |proxies| ensures proxies[i].row.id in ids {
      AndIn(db.proxies.rows, old(query.Asking()), ProxyIDIn(ids), fetched.value[i]);
    }
    r := Success(proxies);
  }

  method LoadProxy(query: Query<ProxyRow>, nodes: seq<AccountNode>, db: Database)
      returns (err: Option<QueryError>, ghost neighbors: seq<Proxy>)
    requires HasKeyColumns(db) && forall a <- nodes :: a.proxy == null
    modifies query`predicates, nodes`proxy
    ensures var ids := DistinctKeys(Mapped(nodes, ProxyKey));
            if ids == [] then err.None? && query.Contents() == old(query.Contents())
            else && err == FirstUnknown(query.fields, db.proxies.columns)
                 && query.Contents() == old(query.Contents()).With(ProxiesWanted(ids)).Traversed()
                 && Narrowed(query.Asking(), old(query.Asking()), ProxyIDIn(ids))
    ensures err.None? ==>
              ProxiesLoaded(db, old(query.Asking()), Kept(db.proxies.columns, query.fields, {"id"}), nodes, neighbors)
  {
    neighbors := [];
    var ids, buckets := BucketByKey(nodes, Mapped(nodes, ProxyKey));
    if |ids| == 0 {
      return None, [];
    }
    var fetched := FetchProxies(query, ids, db);
    if fetched.Failure? {
      return Some(fetched.error), [];
    }
    neighbors := fetched.value;
    err := AttachProxies(nodes, fetched.value, buckets);
  }

  // ----- one to many: the usage logs of an account -----

  /** Nodes with distinct identifiers: the index that a loader builds keeps only one node for each. */
  ghost predicate DistinctIDs(nodes: seq<AccountNode>) {
    forall i, j :: 0 <= i < j < |nodes| ==> nodes[i].row.id != nodes[j].row.id
  }

  method IndexAccounts(nodes: seq<AccountNode>) returns (byID: map<int, AccountNode>)
    requires DistinctIDs(nodes)
    ensures forall k :: k in byID <==> k in Mapped(nodes, AccountID)
    ensures forall k <- byID :: byID[k] in nodes && byID[k].row.id == k
    ensures forall a <- nodes :: a.row.id in byID && byID[a.row.id] == a
  {
    var ids := Mapped(nodes, AccountID);
    byID := IndexByID(nodes, ids);
    forall i | 0 <= i < |nodes| ensures LastAt(ids, i, |ids|) {}
    forall k <- byID ensures byID[k] in nodes && byID[k].row.id == k {
      var i :| 0 <= i < |ids| && ids[i] == k;
      assert byID[ids[i]] == nodes[i];
    }
  }

  /** Asks for the usage logs of the given accounts. */
  method FetchUsageLogs(query: Query<UsageLogRow>, ids: seq<int>, db: Database)
      returns (r: Result<seq<UsageLog>, QueryError>)
    requires HasKeyColumns(db)
    modifies query`predicates, query`fields
    ensures query.fields == WithForeignKey(old(query.fields), "account_id")
    ensures query.Contents() == old(query.Contents()).With(LogsWanted(ids)).Traversed()
    ensures Narrowed(query.Asking(), old(query.Asking()), LogAccountIn(ids))
    ensures var err := FirstUnknown(query.fields, db.usageLogs.columns);
            && (r.Failure? <==> err.Some?) && (r.Failure? ==> r.error == err.value)
    ensures r.Success? ==>
              && (forall n <- r.value :: fresh(n) && n.row.accountID in ids)
              && DecodesUsageLogs(r.value, Selected(db.usageLogs.rows, And(old(query.Asking()), LogAccountIn(ids))),
                                  Kept(db.usageLogs.columns, query.fields, {"id"}))
  {
    query.Require("account_id");
    WhereThenRun(db.usageLogs.rows, query.predicates, query.traversers, LogAccountIn(ids), query.Asking());
    query.Where(LogAccountIn(ids));
    var fetched := query.Run(db.usageLogs);
    if fetched.Failure? {
      return Failure(fetched.error);
    }
    var columns := query.SpecColumns(db.usageLogs.columns, Some("id"), []);
    var logs := NewUsageLogs(fetched.value, set c | c in columns);
    forall i | 0 <= i < |logs| ensures logs[i].row.accountID in ids {
      AndIn(db.usageLogs.rows, old(query.Asking()), LogAccountIn(ids), fetched.value[i]);
    }
    r := Success(logs);
  }

  method InitUsageLogs(nodes: seq<AccountNode>)
    modifies nodes`usageLogs
    ensures forall a <- nodes :: a.usageLogs == []
  {
    for i := 0 to |nodes|
      invariant forall j :: 0 <= j < i ==> nodes[j].usageLogs == []
    {
      nodes[i].usageLogs := [];
    }
  }

  method LoadUsageLogs(query: Query<UsageLogRow>, nodes: seq<AccountNode>, db: Database)
      returns (err: Option<QueryError>, ghost neighbors: seq<UsageLog>)
    requires HasKeyColumns(db) && DistinctIDs(nodes)
    modifies query`predicates, query`fields, nodes`usageLogs
    ensures query.fields == WithForeignKey(old(query.fields), "account_id")
    ensures err == FirstUnknown(query.fields, db.usageLogs.columns)
    ensures query.Contents() == old(query.Contents()).With(LogsWanted(Mapped(nodes, AccountID))).Traversed()
    ensures Narrowed(query.Asking(), old(query.Asking()), LogAccountIn(Mapped(nodes, AccountID)))
    ensures err.None? ==>
              UsageLogsLoaded(db, old(query.Asking()), Kept(db.usageLogs.columns, query.fields, {"id"}), nodes,
                              neighbors)
  {
    neighbors := [];
    var ids := Mapped(nodes, AccountID);
    var byID := IndexAccounts(nodes);
    InitUsageLogs(nodes);
    var fetched := FetchUsageLogs(query, ids, db);
    if fetched.Failure? {
      return Some(fetched.error), [];
    }
    neighbors := fetched.value;
    assert forall n <- neighbors :: n.row.accountID in byID;
    err := AttachUsageLogs(nodes, fetched.value, byID);
    forall a <- nodes ensures err.None? ==> a.usageLogs == Keep(neighbors, LogOf(a.row.id)) {
      assert [] + Keep(neighbors, LogOf(a.row.id)) == Keep(neighbors, LogOf(a.row.id));
    }
  }

  // ----- many to many: the groups of an account -----

  function JoinedTo(pairs: seq<(int, GroupRow)>, account: int): GroupRow -> bool {
    (g: GroupRow) => exists i :: 0 <= i < |pairs| && pairs[i].0 == account && pairs[i].1.id == g.id
  }

  function NodeJoinedTo(pairs: seq<(int, GroupRow)>, account: int): Group -> bool {
    (g: Group) => JoinedTo(pairs, account)(g.row)
  }

  method InitGroups(nodes: seq<AccountNode>)
    modifies nodes`groups
    ensures forall a <- nodes :: a.groups == []
  {
    for i := 0 to |nodes|
      invariant forall j :: 0 <= j < i ==> nodes[j].groups == []
    {
      nodes[i].groups := [];
    }
  }

  /** Joins the query, runs it and reads its rows: one node for each group, and for each group the accounts
      it belongs to. The first column of a group is its identifier. */
  method FetchGroups(query: Query<GroupRow>, ids: seq<int>, byID: map<int, AccountNode>, db: Database)
      returns (r: Result<seq<Group>, QueryError>, nids: map<int, set<AccountNode>>)
    requires HasKeyColumns(db) && forall k :: k in byID <==> k in ids
    modifies query`predicates, query`joins
    ensures query.Contents() == old(query.Contents()).With(OwnersJoined(ids)).Traversed()
    ensures var err := FirstUnknown(query.fields, db.groups.columns);
            && (r.Failure? <==> err.Some?) && (r.Failure? ==> r.error == err.value)
    ensures r.Success? ==>
              var pairs := GroupPairs(db, old(query.Asking()), ids);
              && (forall p <- pairs :: p.0 in byID)
              && DecodesGroups(r.value, FirstOfEach(Mapped(pairs, Second), GroupID),
                               Kept(db.groups.columns, query.fields, {"id"}))
              && (forall n <- r.value :: fresh(n) && n.row.id in nids)
              && (forall k, a :: Listed(nids, a, k) <==> Connects(pairs, byID, a, k))
  {
    var s := query.Asking();
    query.Join(ids);
    nids := map[];
    var err := query.Prepare(db.groups.columns);
    if err.Some? {
      return Failure(err.value), nids;
    }
    var columns := query.SpecColumns(db.groups.columns, Some("id"), []);
    var pairs := GroupPairs(db, s, ids);
    forall p <- pairs ensures p.0 in byID {
      assert p == (p.0, p.1);
      GroupPairsIn(db, s, ids, p.0, p.1);
    }
    var rows: seq<GroupRow>;
    rows, nids := Scan(pairs, byID);
    var groups := NewGroups(rows, set c | c in columns);
    forall i | 0 <= i < |groups| ensures groups[i].row.id in nids {
      assert GroupID(rows[i]) == groups[i].row.id;
    }
    r := Success(groups);
  }

  method LoadGroups(query: Query<GroupRow>, nodes: seq<AccountNode>, db: Database)
      returns (err: Option<QueryError>, ghost neighbors: seq<Group>)
    requires HasKeyColumns(db) && DistinctIDs(nodes)
    modifies query`predicates, query`joins, nodes`groups
    ensures query.Contents() == old(query.Contents()).With(OwnersJoined(Mapped(nodes, AccountID))).Traversed()
    ensures old(query.joins) == [] ==> err == FirstUnknown(query.fields, db.groups.columns)
    ensures old(query.joins) == [] && err.None? ==>
              GroupsLoaded(db, old(query.Asking()), Kept(db.groups.columns, query.fields, {"id"}), nodes, neighbors)
  {
    neighbors := [];
    var ids := Mapped(nodes, AccountID);
    var byID := IndexAccounts(nodes);
    InitGroups(nodes);
    ghost var pairs := GroupPairs(db, query.Asking(), ids);
    var fetched, nids := FetchGroups(query, ids, byID, db);
    if fetched.Failure? {
      return Some(fetched.error), [];
    }
    var groups := fetched.value;
    neighbors := groups;
    forall k <- nids, a <- nids[k] ensures a in nodes {
      assert Listed(nids, a, k);
    }
    err := AttachGroups(nodes, groups, nids);
    forall a <- nodes ensures Keep(groups, BelongsTo(nids, a)) == Keep(groups, NodeJoinedTo(pairs, a.row.id)) {
      SameGroups(pairs, byID, nids, a, groups);
    }
  }

  lemma SameGroups(pairs: seq<(int, GroupRow)>, byID: map<int, AccountNode>, nids: map<int, set<AccountNode>>,
                   a: AccountNode, groups: seq<Group>)
    requires forall p <- pairs :: p.0 in byID
    requires forall k <- byID :: byID[k].row.id == k
    requires a.row.id in byID ==> byID[a.row.id] == a
    requires forall k, x :: Listed(nids, x, k) <==> Connects(pairs, byID, x, k)
    ensures Keep(groups, BelongsTo(nids, a)) == Keep(groups, NodeJoinedTo(pairs, a.row.id))
  {
    forall g <- groups ensures BelongsTo(nids, a)(g) <==> NodeJoinedTo(pairs, a.row.id)(g) {
      ConnectsIsJoined(pairs, byID, a, g.row);
    }
    KeepCongruent(groups, BelongsTo(nids, a), NodeJoinedTo(pairs, a.row.id));
  }

  lemma ConnectsIsJoined(pairs: seq<(int, GroupRow)>, byID: map<int, AccountNode>, a: AccountNode, g: GroupRow)
    requires forall p <- pairs :: p.0 in byID
    requires forall k <- byID :: byID[k].row.id == k
    requires a.row.id in byID ==> byID[a.row.id] == a
    ensures Connects(pairs, byID, a, g.id) <==> JoinedTo(pairs, a.row.id)(g)
  {
    if JoinedTo(pairs, a.row.id)(g) {
      var i :| 0 <= i < |pairs| && pairs[i].0 == a.row.id && pairs[i].1.id == g.id;
      assert pairs[i] in pairs;
    }
  }

  // ----- the join entity: its own query, and the account's edge to it -----

  class AccountGroupQuery {
    const base: Query<AccountGroupRow>
    var withGroup: Query?<GroupRow>

    constructor (base: Query<AccountGroupRow>, withGroup: Query?<GroupRow>)
      ensures this.base == base && this.withGroup == withGroup
    {
      this.base, this.withGroup := base, withGroup;
    }

    /** The columns that querySpec keeps besides the selected ones: this entity has no ID column. */
    function Needed(): set<string>
      reads this`withGroup
    {
      if withGroup == null then {} else {"group_id"}
    }

    /** Asks for the groups with the given identifiers. */
    static method FetchGroup(query: Query<GroupRow>, ids: seq<int>, db: Database)
        returns (r: Result<seq<Group>, QueryError>)
      requires HasKeyColumns(db)
      modifies query`predicates
      ensures query.Contents() == old(query.Contents()).With(GroupsWanted(ids)).Traversed()
      ensures Narrowed(query.Asking(), old(query.Asking()), GroupIDIn(ids))
      ensures var err := FirstUnknown(query.fields, db.groups.columns);
              && (r.Failure? <==> err.Some?) && (r.Failure? ==> r.error == err.value)
      ensures r.Success? ==>
                && (forall n <- r.value :: fresh(n) && n.row.id in ids)
                && DecodesGroups(r.value, Selected(db.groups.rows, And(old(query.Asking()), GroupIDIn(ids))),
                                 Kept(db.groups.columns, query.fields, {"id"}))
    {
      WhereThenRun(db.groups.rows, query.predicates, query.traversers, GroupIDIn(ids), query.Asking());
      query.Where(GroupIDIn(ids));
      var fetched := query.Run(db.groups);
      if fetched.Failure? {
        return Failure(fetched.error);
      }
      var columns := query.SpecColumns(db.groups.columns, Some("id"), []);
      var groups := NewGroups(fetched.value, set c | c in columns);
      forall i | 0 <= i < |groups| ensures groups[i].row.id in ids {
        AndIn(db.groups.rows, old(query.Asking()), GroupIDIn(ids), fetched.value[i]);
      }
      r := Success(groups);
    }

    static method LoadGroup(query: Query<GroupRow>, nodes: seq<AccountGroup>, db: Database)
        returns (err: Option<QueryError>, ghost neighbors: seq<Group>)
      requires HasKeyColumns(db) && nodes != [] && forall ag <- nodes :: ag.group == null
      modifies query`predicates, nodes`group
      ensures err == FirstUnknown(query.fields, db.groups.columns)
      ensures var keys := DistinctKeys(Mapped(nodes, JoinKey));
              && query.Contents() == old(query.Contents()).With(GroupsWanted(keys)).Traversed()
              && Narrowed(query.Asking(), old(query.Asking()), GroupIDIn(keys))
      ensures err.None? ==>
                JoinGroupsLoaded(db, old(query.Asking()), Kept(db.groups.columns, query.fields, {"id"}), nodes,
                                 neighbors)
    {
      neighbors := [];
      var ids, buckets := BucketByKey(nodes, Mapped(nodes, JoinKey));
      DistinctKeysAre(Mapped(nodes, JoinKey), nodes[0].row.groupID);
      assert Mapped(nodes, JoinKey)[0] == Some(nodes[0].row.groupID);
      var fetched := FetchGroup(query, ids, db);
      if fetched.Failure? {
        return Some(fetched.error), [];
      }
      neighbors := fetched.value;
      err := AttachGroup(nodes, fetched.value, buckets);
    }

    /** The nodes of the query, before their edges are loaded. */
    method Nodes(db: Database) returns (r: Result<seq<AccountGroup>, QueryError>)
      requires HasKeyColumns(db)
      modifies base`predicates
      ensures base.predicates == old(base.predicates) + base.traversers
      ensures var err := FirstUnknown(base.fields, db.accountGroups.columns);
              && (r.Failure? <==> err.Some?) && (r.Failure? ==> r.error == err.value)
      ensures r.Success? ==>
                && DecodesAccountGroups(r.value, Selected(db.accountGroups.rows, old(base.Asking())),
                                        Kept(db.accountGroups.columns, base.fields, Needed()))
                && (forall ag <- r.value :: ag.groupLoaded == (withGroup != null) && ag.group == null)
                && forall i :: 0 <= i < |r.value| ==> fresh(r.value[i])
    {
      var fetched := base.Run(db.accountGroups);
      if fetched.Failure? {
        return Failure(fetched.error);
      }
      var columns := base.SpecColumns(db.accountGroups.columns, None, if withGroup == null then [] else ["group_id"]);
      var nodes := NewAccountGroups(fetched.value, (set c | c in columns), withGroup != null);
      r := Success(nodes);
    }

    method All(db: Database) returns (r: Result<seq<AccountGroup>, QueryError>, ghost groups: seq<Group>)
      requires HasKeyColumns(db)
      modifies base`predicates, {withGroup}`predicates
      ensures base.Contents() == old(base.Contents()).Traversed()
      ensures var rows := Selected(db.accountGroups.rows, old(base.Asking()));
              var baseErr := FirstUnknown(base.fields, db.accountGroups.columns);
              var groupErr := if rows == [] || withGroup == null then None
                              else FirstUnknown(withGroup.fields, db.groups.columns);
              && (r.Failure? <==> baseErr.Some? || groupErr.Some?)
              && (r.Failure? ==> r.error == if baseErr.Some? then baseErr.value else groupErr.value)
              && (r.Success? ==>
                    && DecodesAccountGroups(r.value, rows, Kept(db.accountGroups.columns, base.fields, Needed()))
                    && forall ag <- r.value :: fresh(ag) && ag.groupLoaded == (withGroup != null))
      ensures r.Success? && withGroup == null ==> forall ag <- r.value :: ag.group == null
      ensures r.Success? && withGroup != null ==>
                && JoinGroupsLoaded(db, old(withGroup.Asking()), Kept(db.groups.columns, withGroup.fields, {"id"}),
                                    r.value, groups)
                && var keys := DistinctKeys(Mapped(r.value, JoinKey));
                && Agree(old(withGroup.Asking()), withGroup.Asking(), GroupIDIn(keys))
                && withGroup.Contents() == if r.value == [] then old(withGroup.Contents())
                                           else old(withGroup.Contents()).With(GroupsWanted(keys)).Traversed()
    {
      groups := [];
      r := Nodes(db);
      if r.Success? && |r.value| > 0 && withGroup != null {
        var err;
        err, groups := LoadGroup(withGroup, r.value, db);
        if err.Some? {
          r := Failure(err.value);
        }
      }
    }
  }

  method InitAccountGroups(nodes: seq<AccountNode>)
    modifies nodes`accountGroups
    ensures forall a <- nodes :: a.accountGroups == []
  {
    for i := 0 to |nodes|
      invariant forall j :: 0 <= j < i ==> nodes[j].accountGroups == []
    {
      nodes[i].accountGroups := [];
    }
  }

  /** Asks for the join rows of the given accounts, with their groups if the query wants them. */
  method FetchAccountGroups(query: AccountGroupQuery, ids: seq<int>, db: Database)
      returns (r: Result<seq<AccountGroup>, QueryError>, ghost groups: seq<Group>)
    requires HasKeyColumns(db)
    modifies query.base`predicates, query.base`fields,
             {query.withGroup}`predicates
    ensures query.base.Contents() == old(query.base.Contents()).With(JoinsWanted(ids)).Traversed()
    ensures Narrowed(query.base.Asking(), old(query.base.Asking()), RowAccountIn(ids))
    ensures var rows := Selected(db.accountGroups.rows, And(old(query.base.Asking()), RowAccountIn(ids)));
            var baseErr := FirstUnknown(query.base.fields, db.accountGroups.columns);
            var groupErr := if rows == [] || query.withGroup == null then None
                            else FirstUnknown(query.withGroup.fields, db.groups.columns);
            && (r.Failure? <==> baseErr.Some? || groupErr.Some?)
            && (r.Failure? ==> r.error == if baseErr.Some? then baseErr.value else groupErr.value)
            && (r.Success? ==>
                  && (forall n <- r.value ::
                        fresh(n) && n.row.accountID in ids && n.groupLoaded == (query.withGroup != null))
                  && DecodesAccountGroups(r.value, rows,
                                          Kept(db.accountGroups.columns, query.base.fields, query.Needed())))
    ensures r.Success? && query.withGroup == null ==> forall ag <- r.value :: ag.group == null
    ensures r.Success? && query.withGroup != null ==>
              && JoinGroupsLoaded(db, old(query.withGroup.Asking()),
                                  Kept(db.groups.columns, query.withGroup.fields, {"id"}), r.value, groups)
              && var keys := DistinctKeys(Mapped(r.value, JoinKey));
              && Agree(old(query.withGroup.Asking()), query.withGroup.Asking(), GroupIDIn(keys))
              && query.withGroup.Contents() ==
                   if r.value == [] then old(query.withGroup.Contents())
                   else old(query.withGroup.Contents()).With(GroupsWanted(keys)).Traversed()
  {
    var base := query.base;
    base.Require("account_id");
    WhereThenRun(db.accountGroups.rows, base.predicates, base.traversers, RowAccountIn(ids), base.Asking());
    base.Where(RowAccountIn(ids));
    r, groups := query.All(db);
    if r.Success? {
      forall i | 0 <= i < |r.value| ensures r.value[i].row.accountID in ids {
        var rows := Selected(db.accountGroups.rows, And(old(base.Asking()), RowAccountIn(ids)));
        AndIn(db.accountGroups.rows, old(base.Asking()), RowAccountIn(ids), rows[i]);
        assert FieldsOfAccountGroup(r.value[i]).accountID == rows[i].accountID;
      }
    }
  }

  method LoadAccountGroups(query: AccountGroupQuery, nodes: seq<AccountNode>, db: Database)
      returns (err: Option<QueryError>, ghost neighbors: seq<AccountGroup>, ghost groups: seq<Group>)
    requires HasKeyColumns(db) && DistinctIDs(nodes)
    modifies query.base`predicates, query.base`fields,
             {query.withGroup}`predicates, nodes`accountGroups
    ensures query.base.Contents() == old(query.base.Contents()).With(JoinsWanted(Mapped(nodes, AccountID))).Traversed()
    ensures Narrowed(query.base.Asking(), old(query.base.Asking()), RowAccountIn(Mapped(nodes, AccountID)))
    ensures var s := And(old(query.base.Asking()), RowAccountIn(Mapped(nodes, AccountID)));
            var baseErr := FirstUnknown(query.base.fields, db.accountGroups.columns);
            err == if baseErr.Some? then baseErr
                   else if Selected(db.accountGroups.rows, s) == [] || query.withGroup == null then None
                   else FirstUnknown(query.withGroup.fields, db.groups.columns)
    ensures err.None? ==>
              && AccountGroupsLoaded(db, old(query.base.Asking()),
                                     Kept(db.accountGroups.columns, query.base.fields, query.Needed()),
                                     nodes, neighbors)
              && forall ag <- neighbors :: ag.groupLoaded == (query.withGroup != null)
    ensures err.None? && query.withGroup == null ==> forall ag <- neighbors :: ag.group == null
    ensures err.None? && query.withGroup != null ==>
              && JoinGroupsLoaded(db, old(query.withGroup.Asking()),
                                  Kept(db.groups.columns, query.withGroup.fields, {"id"}), neighbors, groups)
              && var keys := DistinctKeys(Mapped(neighbors, JoinKey));
              && Agree(old(query.withGroup.Asking()), query.withGroup.Asking(), GroupIDIn(keys))
              && query.withGroup.Contents() ==
                   if neighbors == [] then old(query.withGroup.Contents())
                   else old(query.withGroup.Contents()).With(GroupsWanted(keys)).Traversed()
  {
    neighbors := [];
    var ids := Mapped(nodes, AccountID);
    var byID := IndexAccounts(nodes);
    InitAccountGroups(nodes);
    ghost var s := query.base.Asking();
    var fetched;
    fetched, groups := FetchAccountGroups(query, ids, db);
    if fetched.Failure? {
      return Some(fetched.error), [], groups;
    }
    neighbors := fetched.value;
    err := StitchAccountGroups(nodes, fetched.value, byID, db, s,
                               Kept(db.accountGroups.columns, query.base.fields, query.Needed()));
  }

  method StitchAccountGroups(nodes: seq<AccountNode>, joins: seq<AccountGroup>, byID: map<int, AccountNode>,
                             ghost db: Database, ghost s: Selection<AccountGroupRow>, ghost columns: set<string>)
      returns (err: Option<QueryError>)
    requires forall k <- byID :: byID[k] in nodes && byID[k].row.id == k
    requires forall a <- nodes :: a.row.id in byID && byID[a.row.id] == a && a.accountGroups == []
    requires forall n <- joins :: n.row.accountID in byID
    requires DecodesAccountGroups(
               joins, Selected(db.accountGroups.rows, And(s, RowAccountIn(Mapped(nodes, AccountID)))), columns)
    modifies nodes`accountGroups
    ensures err.None? && AccountGroupsLoaded(db, s, columns, nodes, joins)
  {
    err := AttachAccountGroups(nodes, joins, byID);
  }

  method NewAccounts(rows: seq<AccountRow>, columns: set<string>, loaded: Loaded) returns (nodes: seq<AccountNode>)
    ensures |nodes| == |rows|
    ensures forall i :: 0 <= i < |nodes| ==>
              && fresh(nodes[i]) && nodes[i].row == DecodeAccount(rows[i], columns) && nodes[i].loaded == loaded
              && nodes[i].groups == [] && nodes[i].proxy == null
              && nodes[i].usageLogs == [] && nodes[i].accountGroups == []
  {
    nodes := [];
    for i := 0 to |rows|
      invariant |nodes| == i
      invariant forall j :: 0 <= j < i ==>
                  && fresh(nodes[j]) && nodes[j].row == DecodeAccount(rows[j], columns) && nodes[j].loaded == loaded
                  && nodes[j].groups == [] && nodes[j].proxy == null
                  && nodes[j].usageLogs == [] && nodes[j].accountGroups == []
    {
      var node := new AccountNode(DecodeAccount(rows[i], columns), loaded);
      nodes := nodes + [node];
    }
  }

  // ----- the account query -----

  class AccountQuery {
    const base: Query<AccountRow>
    var withGroups: Query?<GroupRow>
    var withProxy: Query?<ProxyRow>
    var withUsageLogs: Query?<UsageLogRow>
    var withAccountGroups: AccountGroupQuery?

    constructor (base: Query<AccountRow>)
      ensures this.base == base && withGroups == null && withProxy == null
      ensures withUsageLogs == null && withAccountGroups == null
    {
      this.base := base;
      withGroups, withProxy, withUsageLogs, withAccountGroups := null, null, null, null;
    }

    function Requested(): Loaded
      reads this
    {
      Loaded(withGroups != null, withProxy != null, withUsageLogs != null, withAccountGroups != null)
    }

    /** The columns that querySpec keeps besides the selected ones. */
    function Needed(): set<string>
      reads this`withProxy
    {
      {"id"} + if withProxy == null then {} else {"proxy_id"}
    }

    /** The nodes of the query, before their edges are loaded. */
    method Nodes(db: Database) returns (r: Result<seq<AccountNode>, QueryError>)
      requires HasKeyColumns(db) && DistinctBy(db.accounts.rows, AccountRowID)
      modifies base`predicates
      ensures base.predicates == old(base.predicates) + base.traversers
      ensures var err := FirstUnknown(base.fields, db.accounts.columns);
              && (r.Failure? <==> err.Some?) && (r.Failure? ==> r.error == err.value)
      ensures r.Success? ==>
                && DecodesAccounts(r.value, Selected(db.accounts.rows, old(base.Asking())),
                                   Kept(db.accounts.columns, base.fields, Needed()))
                && DistinctIDs(r.value)
                && (forall a <- r.value ::
                      a.groups == [] && a.proxy == null && a.usageLogs == [] && a.accountGroups == [])
                && forall i :: 0 <= i < |r.value| ==> fresh(r.value[i]) && r.value[i].loaded == Requested()
    {
      SelectedDistinct(db.accounts.rows, base.Asking(), AccountRowID);
      var fetched := base.Run(db.accounts);
      if fetched.Failure? {
        return Failure(fetched.error);
      }
      var columns := base.SpecColumns(db.accounts.columns, Some("id"), if withProxy == null then [] else ["proxy_id"]);
      var nodes := NewAccounts(fetched.value, (set c | c in columns), Requested());
      forall i, j | 0 <= i < j < |nodes| ensures nodes[i].row.id != nodes[j].row.id {
        assert AccountRowID(fetched.value[i]) != AccountRowID(fetched.value[j]);
      }
      r := Success(nodes);
    }

    /** The two queries on groups are different objects. */
    ghost predicate Valid()
      reads this, withAccountGroups
    {
      withGroups != null && withAccountGroups != null ==> withAccountGroups.withGroup != withGroups
    }

    /** What this query asks of each edge. */
    function Asks(db: Database): Requests
      reads this, withGroups, withProxy, withUsageLogs, withAccountGroups,
            if withAccountGroups == null then {} else {withAccountGroups.base},
            if withAccountGroups == null then {} else {withAccountGroups.withGroup}
    {
      Requests(
        if withGroups == null then None else Some(AskGroups(withGroups, db)),
        withGroups != null && withGroups.joins != [],
        if withProxy == null then None
        else Some(Ask(withProxy.Asking(), Kept(db.proxies.columns, withProxy.fields, {"id"}),
                      FirstUnknown(withProxy.fields, db.proxies.columns), withProxy.Contents())),
        if withUsageLogs == null then None
        else
          var fields := WithForeignKey(withUsageLogs.fields, "account_id");
          Some(Ask(withUsageLogs.Asking(), Kept(db.usageLogs.columns, fields, {"id"}),
                   FirstUnknown(fields, db.usageLogs.columns), withUsageLogs.Contents())),
        if withAccountGroups == null then None
        else
          var fields := WithForeignKey(withAccountGroups.base.fields, "account_id");
          Some(Ask(withAccountGroups.base.Asking(),
                   Kept(db.accountGroups.columns, fields, withAccountGroups.Needed()),
                   FirstUnknown(fields, db.accountGroups.columns), withAccountGroups.base.Contents())),
        if withAccountGroups == null || withAccountGroups.withGroup == null then None
        else Some(AskGroups(withAccountGroups.withGroup, db)))
    }

    /** The query of the join rows and that of their groups, null if they are not requested. */
    function JoinBase(): Query?<AccountGroupRow>
      reads this
    {
      if withAccountGroups == null then null else withAccountGroups.base
    }

    function JoinGroup(): Query?<GroupRow>
      reads this, withAccountGroups
    {
      if withAccountGroups == null then null else withAccountGroups.withGroup
    }

    /** The many-to-many edge; if its query was run for one before, what comes of it is left open. */
    method LoadGroupsEdge(nodes: seq<AccountNode>, db: Database, ghost q: Requests)
        returns (err: Option<QueryError>, ghost groups: seq<Group>)
      requires Valid() && HasKeyColumns(db) && DistinctIDs(nodes)
      requires q == Asks(db) && forall a <- nodes :: a.groups == []
      modifies {withGroups}`predicates,
               {withGroups}`joins, nodes`groups
      ensures !q.rejoined ==> err == GroupsError(q)
      ensures err.None? ==> GroupsEdge(db, q, nodes, groups)
      ensures Asks(db) ==
              q.(groups := Left(q.groups, OwnersJoined(Mapped(nodes, AccountID)), true), rejoined := q.groups.Some?)
    {
      err, groups := None, [];
      if withGroups != null {
        err, groups := LoadGroups(withGroups, nodes, db);
      }
    }

    method LoadProxyEdge(nodes: seq<AccountNode>, db: Database, ghost q: Requests)
        returns (err: Option<QueryError>, ghost proxies: seq<Proxy>)
      requires HasKeyColumns(db)
      requires q.proxy == Asks(db).proxy && forall a <- nodes :: a.proxy == null
      modifies {withProxy}`predicates, nodes`proxy
      ensures err == ProxyError(q, Mapped(nodes, ProxyKey))
      ensures err.None? ==> ProxyEdge(db, q, nodes, proxies)
      ensures var keys := DistinctKeys(Mapped(nodes, ProxyKey));
              Asks(db) == old(Asks(db)).(proxy := Left(q.proxy, ProxiesWanted(keys), keys != []))
    {
      err, proxies := None, [];
      if withProxy != null {
        err, proxies := LoadProxy(withProxy, nodes, db);
      }
    }

    method LoadUsageLogsEdge(nodes: seq<AccountNode>, db: Database, ghost q: Requests)
        returns (err: Option<QueryError>, ghost logs: seq<UsageLog>)
      requires HasKeyColumns(db) && DistinctIDs(nodes)
      requires q.usageLogs == Asks(db).usageLogs && forall a <- nodes :: a.usageLogs == []
      modifies {withUsageLogs}`predicates,
               {withUsageLogs}`fields, nodes`usageLogs
      ensures err == UsageLogsError(q)
      ensures err.None? ==> UsageLogsEdge(db, q, nodes, logs)
      ensures Asks(db) ==
              old(Asks(db)).(usageLogs := Left(q.usageLogs, LogsWanted(Mapped(nodes, AccountID)), true))
    {
      err, logs := None, [];
      if withUsageLogs != null {
        err, logs := LoadUsageLogs(withUsageLogs, nodes, db);
      }
    }

    method LoadAccountGroupsEdge(nodes: seq<AccountNode>, db: Database, ghost q: Requests)
        returns (err: Option<QueryError>, ghost joins: seq<AccountGroup>, ghost groups: seq<Group>)
      requires Valid() && HasKeyColumns(db) && DistinctIDs(nodes)
      requires q.accountGroups == Asks(db).accountGroups && q.joinGroup == Asks(db).joinGroup
      requires forall a <- nodes :: a.accountGroups == []
      modifies {JoinBase()}`predicates,
               {JoinBase()}`fields,
               {JoinGroup()}`predicates, nodes`accountGroups
      ensures err == JoinsError(db, q, Mapped(nodes, AccountID))
      ensures err.None? ==> JoinsEdge(db, q, nodes, joins, groups)
      ensures err.None? ==>
                Asks(db) == old(Asks(db)).(
                  accountGroups := Left(q.accountGroups, JoinsWanted(Mapped(nodes, AccountID)), true),
                  joinGroup := Left(q.joinGroup, GroupsWanted(DistinctKeys(Mapped(joins, JoinKey))), joins != []))
    {
      err, joins, groups := None, [], [];
      if withAccountGroups != null {
        err, joins, groups := LoadAccountGroups(withAccountGroups, nodes, db);
        assert Asks(db).groups == old(Asks(db)).groups;
        assert Asks(db).proxy == old(Asks(db)).proxy;
        assert Asks(db).usageLogs == old(Asks(db)).usageLogs;
      }
    }

    /** The requested edges, one after the other; first the last two. */
    method LoadFromUsageLogs(nodes: seq<AccountNode>, db: Database, ghost q: Requests)
        returns (err: Option<QueryError>, ghost logs: seq<UsageLog>, ghost joins: seq<AccountGroup>,
                 ghost groups: seq<Group>)
      requires Valid() && HasKeyColumns(db) && DistinctIDs(nodes)
      requires forall a <- nodes :: a.usageLogs == [] && a.accountGroups == []
      requires q.usageLogs == Asks(db).usageLogs && q.accountGroups == Asks(db).accountGroups
      requires q.joinGroup == Asks(db).joinGroup
      modifies {withUsageLogs}`predicates,
               {withUsageLogs}`fields,
               {JoinBase()}`predicates,
               {JoinBase()}`fields,
               {JoinGroup()}`predicates,
               nodes`usageLogs, nodes`accountGroups
      ensures err == OrElse(UsageLogsError(q), JoinsError(db, q, Mapped(nodes, AccountID)))
      ensures err.None? ==> UsageLogsEdge(db, q, nodes, logs) && JoinsEdge(db, q, nodes, joins, groups)
      ensures err.None? ==>
                Asks(db) == old(Asks(db)).(
                  usageLogs := Left(q.usageLogs, LogsWanted(Mapped(nodes, AccountID)), true),
                  accountGroups := Left(q.accountGroups, JoinsWanted(Mapped(nodes, AccountID)), true),
                  joinGroup := Left(q.joinGroup, GroupsWanted(DistinctKeys(Mapped(joins, JoinKey))), joins != []))
    {
      joins, groups := [], [];
      err, logs := LoadUsageLogsEdge(nodes, db, q);
      if err.None? {
        err, joins, groups := LoadAccountGroupsEdge(nodes, db, q);
        assert UsageLogsEdge(db, q, nodes, logs);
      }
    }

    method LoadAfterProxy(nodes: seq<AccountNode>, db: Database, ghost q: Requests, ghost proxies: seq<Proxy>)
        returns (err: Option<QueryError>, ghost f: Fetched)
      requires Valid() && HasKeyColumns(db) && DistinctIDs(nodes)
      requires forall a <- nodes :: a.usageLogs == [] && a.accountGroups == []
      requires ProxyEdge(db, q, nodes, proxies)
      requires q.usageLogs == Asks(db).usageLogs && q.accountGroups == Asks(db).accountGroups
      requires q.joinGroup == Asks(db).joinGroup
      modifies {withUsageLogs}`predicates,
               {withUsageLogs}`fields,
               {JoinBase()}`predicates,
               {JoinBase()}`fields,
               {JoinGroup()}`predicates,
               nodes`usageLogs, nodes`accountGroups
      ensures err == OrElse(UsageLogsError(q), JoinsError(db, q, Mapped(nodes, AccountID)))
      ensures err.None? ==>
                && ProxyEdge(db, q, nodes, f.proxies) && UsageLogsEdge(db, q, nodes, f.usageLogs)
                && JoinsEdge(db, q, nodes, f.accountGroups, f.joinGroups)
      ensures err.None? ==>
                Asks(db) == old(Asks(db)).(
                  usageLogs := Left(q.usageLogs, LogsWanted(Mapped(nodes, AccountID)), true),
                  accountGroups := Left(q.accountGroups, JoinsWanted(Mapped(nodes, AccountID)), true),
                  joinGroup := Left(q.joinGroup, GroupsWanted(DistinctKeys(Mapped(f.accountGroups, JoinKey))),
                                    f.accountGroups != []))
    {
      ghost var logs, joins, groups;
      err, logs, joins, groups := LoadFromUsageLogs(nodes, db, q);
      assert ProxyEdge(db, q, nodes, proxies);
      f := Fetched([], proxies, logs, joins, groups);
    }

    method LoadFromProxy(nodes: seq<AccountNode>, db: Database, ghost q: Requests)
        returns (err: Option<QueryError>, ghost f: Fetched)
      requires Valid() && HasKeyColumns(db) && DistinctIDs(nodes)
      requires forall a <- nodes :: a.proxy == null && a.usageLogs == [] && a.accountGroups == []
      requires Asks(db) ==
               q.(groups := Left(q.groups, OwnersJoined(Mapped(nodes, AccountID)), true), rejoined := q.groups.Some?)
      modifies {withProxy}`predicates,
               {withUsageLogs}`predicates,
               {withUsageLogs}`fields,
               {JoinBase()}`predicates,
               {JoinBase()}`fields,
               {JoinGroup()}`predicates,
               nodes`proxy, nodes`usageLogs, nodes`accountGroups
      ensures err == OrElse(ProxyError(q, Mapped(nodes, ProxyKey)),
                            OrElse(UsageLogsError(q), JoinsError(db, q, Mapped(nodes, AccountID))))
      ensures err.None? ==>
                && ProxyEdge(db, q, nodes, f.proxies) && UsageLogsEdge(db, q, nodes, f.usageLogs)
                && JoinsEdge(db, q, nodes, f.accountGroups, f.joinGroups)
                && Asks(db) == LeftBehind(q, nodes, f.accountGroups)
    {
      f := Fetched([], [], [], [], []);
      ghost var proxies;
      err, proxies := LoadProxyEdge(nodes, db, q);
      if err.None? {
        err, f := LoadAfterProxy(nodes, db, q, proxies);
      }
    }

    method LoadAfterGroups(nodes: seq<AccountNode>, db: Database, ghost q: Requests, ghost groups: seq<Group>)
        returns (err: Option<QueryError>, ghost f: Fetched)
      requires Valid() && HasKeyColumns(db) && DistinctIDs(nodes)
      requires forall a <- nodes :: a.proxy == null && a.usageLogs == [] && a.accountGroups == []
      requires GroupsEdge(db, q, nodes, groups)
      requires Asks(db) ==
               q.(groups := Left(q.groups, OwnersJoined(Mapped(nodes, AccountID)), true), rejoined := q.groups.Some?)
      modifies {withProxy}`predicates,
               {withUsageLogs}`predicates,
               {withUsageLogs}`fields,
               {JoinBase()}`predicates,
               {JoinBase()}`fields,
               {JoinGroup()}`predicates,
               nodes`proxy, nodes`usageLogs, nodes`accountGroups
      ensures err == OrElse(ProxyError(q, Mapped(nodes, ProxyKey)),
                            OrElse(UsageLogsError(q), JoinsError(db, q, Mapped(nodes, AccountID))))
      ensures err.None? ==> EdgesLoaded(db, q, nodes, f) && Asks(db) == LeftBehind(q, nodes, f.accountGroups)
    {
      err, f := LoadFromProxy(nodes, db, q);
      assert GroupsEdge(db, q, nodes, groups);
      f := f.(groups := groups);
    }

    method LoadEdges(nodes: seq<AccountNode>, db: Database, ghost q: Requests)
        returns (err: Option<QueryError>, ghost f: Fetched)
      requires Valid() && HasKeyColumns(db) && DistinctIDs(nodes) && q == Asks(db)
      requires forall a <- nodes :: a.groups == [] && a.proxy == null && a.usageLogs == [] && a.accountGroups == []
      modifies {withGroups}`predicates,
               {withGroups}`joins,
               {withProxy}`predicates,
               {withUsageLogs}`predicates,
               {withUsageLogs}`fields,
               {JoinBase()}`predicates,
               {JoinBase()}`fields,
               {JoinGroup()}`predicates,
               nodes`groups, nodes`proxy, nodes`usageLogs, nodes`accountGroups
      ensures !q.rejoined ==> err == LoadError(db, q, Mapped(nodes, AccountID), Mapped(nodes, ProxyKey))
      ensures err.None? ==> EdgesLoaded(db, q, nodes, f) && Asks(db) == LeftBehind(q, nodes, f.accountGroups)
    {
      f := Fetched([], [], [], [], []);
      ghost var groups;
      err, groups := LoadGroupsEdge(nodes, db, q);
      if err.None? {
        err, f := LoadAfterGroups(nodes, db, q, groups);
      }
    }

    /** Running this query changes nothing that the edge queries ask for. */
    method FirstNodes(db: Database, ghost q: Requests) returns (r: Result<seq<AccountNode>, QueryError>)
      requires HasKeyColumns(db) && DistinctBy(db.accounts.rows, AccountRowID)
      requires q == Asks(db)
      modifies base`predicates
      ensures base.predicates == old(base.predicates) + base.traversers
      ensures var err := FirstUnknown(base.fields, db.accounts.columns);
              && (r.Failure? <==> err.Some?) && (r.Failure? ==> r.error == err.value)
      ensures r.Success? ==>
                && DecodesAccounts(r.value, Selected(db.accounts.rows, old(base.Asking())),
                                   Kept(db.accounts.columns, base.fields, Needed()))
                && DistinctIDs(r.value)
                && (forall a <- r.value ::
                      a.groups == [] && a.proxy == null && a.usageLogs == [] && a.accountGroups == [])
                && forall i :: 0 <= i < |r.value| ==> fresh(r.value[i]) && r.value[i].loaded == Requested()
      ensures q == Asks(db)
      ensures r.Success? ==>
                LoadError(db, q, Mapped(r.value, AccountID), Mapped(r.value, ProxyKey)) ==
                EdgeError(db, q, Selected(db.accounts.rows, old(base.Asking())))
    {
      ghost var rows := Selected(db.accounts.rows, base.Asking());
      r := Nodes(db);
      if r.Success? {
        KeysOfNodes(db, q, rows, Kept(db.accounts.columns, base.fields, Needed()), r.value);
      }
    }

    /** The query itself is none of the queries of its edges: they return other rows. */
    ghost predicate BaseApart()
      reads this, withAccountGroups
    {
      var b: object := base;
      && b != withGroups && b != withProxy && b != withUsageLogs
      && (withAccountGroups != null ==> b != withAccountGroups.base && b != withAccountGroups.withGroup)
    }

    lemma BaseIsApart()
      ensures BaseApart()
    {}

    /** Loading the edges leaves the query itself alone. */
    method LoadEdgesBeside(nodes: seq<AccountNode>, db: Database, ghost q: Requests)
        returns (r: Result<seq<AccountNode>, QueryError>, ghost f: Fetched)
      requires Valid() && HasKeyColumns(db) && DistinctIDs(nodes) && q == Asks(db)
      requires forall a <- nodes :: a.groups == [] && a.proxy == null && a.usageLogs == [] && a.accountGroups == []
      modifies {withGroups}`predicates,
               {withGroups}`joins,
               {withProxy}`predicates,
               {withUsageLogs}`predicates,
               {withUsageLogs}`fields,
               {JoinBase()}`predicates,
               {JoinBase()}`fields,
               {JoinGroup()}`predicates,
               nodes`groups, nodes`proxy, nodes`usageLogs, nodes`accountGroups
      ensures !q.rejoined ==>
                var err := LoadError(db, q, Mapped(nodes, AccountID), Mapped(nodes, ProxyKey));
                r == if err.Some? then Failure(err.value) else Success(nodes)
      ensures r.Success? ==>
                r.value == nodes && EdgesLoaded(db, q, nodes, f) && Asks(db) == LeftBehind(q, nodes, f.accountGroups)
      ensures base.predicates == old(base.predicates) && base.fields == old(base.fields)
    {
      BaseIsApart();
      var err;
      err, f := LoadEdges(nodes, db, q);
      r := if err.Some? then Failure(err.value) else Success(nodes);
      assert unchanged(base);
    }

    /** Runs the query and loads the requested edges. Every edge holds what its own query determines,
        whatever else is requested. */
    method All(db: Database) returns (r: Result<seq<AccountNode>, QueryError>, ghost f: Fetched)
      requires Valid() && HasKeyColumns(db) && DistinctBy(db.accounts.rows, AccountRowID)
      modifies base`predicates
      modifies {withGroups}`predicates,
               {withGroups}`joins,
               {withProxy}`predicates,
               {withUsageLogs}`predicates,
               {withUsageLogs}`fields,
               {JoinBase()}`predicates,
               {JoinBase()}`fields,
               {JoinGroup()}`predicates
      ensures base.predicates == old(base.predicates) + base.traversers && base.fields == old(base.fields)
      ensures var q := old(Asks(db));
              var rows := Selected(db.accounts.rows, old(base.Asking()));
              !q.rejoined || rows == [] ==>
                var baseErr := old(FirstUnknown(base.fields, db.accounts.columns));
                var err := OrElse(baseErr, if rows == [] then None else EdgeError(db, q, rows));
                (r.Failure? <==> err.Some?) && (r.Failure? ==> r.error == err.value)
      ensures r.Success? ==>
                && DecodesAccounts(r.value, Selected(db.accounts.rows, old(base.Asking())),
                                   old(Kept(db.accounts.columns, base.fields, Needed())))
                && DistinctIDs(r.value)
                && (r.value == [] ==> Asks(db) == old(Asks(db)))
                && (r.value != [] ==>
                      EdgesLoaded(db, old(Asks(db)), r.value, f) &&
                      Asks(db) == LeftBehind(old(Asks(db)), r.value, f.accountGroups))
                && forall i :: 0 <= i < |r.value| ==> fresh(r.value[i]) && r.value[i].loaded == old(Requested())
    {
      ghost var q, own := Asks(db), FirstUnknown(base.fields, db.accounts.columns);
      ghost var rows := Selected(db.accounts.rows, base.Asking());
      ghost var columns := Kept(db.accounts.columns, base.fields, Needed());
      r, f := RunAll(db, q, own, rows, columns, Requested());
    }

    /** The same for what the query asks before it is run. */
    method RunAll(db: Database, ghost q: Requests, ghost own: Option<QueryError>, ghost rows: seq<AccountRow>,
                  ghost columns: set<string>, ghost loaded: Loaded)
        returns (r: Result<seq<AccountNode>, QueryError>, ghost f: Fetched)
      requires Valid() && HasKeyColumns(db) && DistinctBy(db.accounts.rows, AccountRowID)
      requires q == Asks(db) && own == FirstUnknown(base.fields, db.accounts.columns)
      requires rows == Selected(db.accounts.rows, base.Asking())
      requires columns == Kept(db.accounts.columns, base.fields, Needed()) && loaded == Requested()
      modifies base`predicates
      modifies {withGroups}`predicates,
               {withGroups}`joins,
               {withProxy}`predicates,
               {withUsageLogs}`predicates,
               {withUsageLogs}`fields,
               {JoinBase()}`predicates,
               {JoinBase()}`fields,
               {JoinGroup()}`predicates
      ensures base.predicates == old(base.predicates) + base.traversers && base.fields == old(base.fields)
      ensures !q.rejoined || rows == [] ==>
                var err := OrElse(own, if rows == [] then None else EdgeError(db, q, rows));
                (r.Failure? <==> err.Some?) && (r.Failure? ==> r.error == err.value)
      ensures r.Success? ==>
                && DecodesAccounts(r.value, rows, columns) && DistinctIDs(r.value)
                && (r.value == [] ==> Asks(db) == q)
                && (r.value != [] ==>
                      EdgesLoaded(db, q, r.value, f) && Asks(db) == LeftBehind(q, r.value, f.accountGroups))
                && forall i :: 0 <= i < |r.value| ==> fresh(r.value[i]) && r.value[i].loaded == loaded
    {
      f := Fetched([], [], [], [], []);
      r := FirstNodes(db, q);
      if r.Success? && |r.value| > 0 {
        r, f := LoadEdgesBeside(r.value, db, q);
      }
    }
  }

  function KeyOfRow(r: AccountRow): Option<int> { r.proxyID }

  /** The error of the first edge that fails for accounts with these rows. */
  function EdgeError(db: Database, q: Requests, rows: seq<AccountRow>): Option<QueryError> {
    LoadError(db, q, Mapped(rows, AccountRowID), Mapped(rows, KeyOfRow))
  }

  function AskGroups(q: Query<GroupRow>, db: Database): Ask<GroupRow>
    reads q
  {
    Ask(q.Asking(), Kept(db.groups.columns, q.fields, {"id"}), FirstUnknown(q.fields, db.groups.columns),
        q.Contents())
  }

  /** The keys that the loaders look at are those of the rows. */
  lemma KeysOfNodes(db: Database, q: Requests, rows: seq<AccountRow>, columns: set<string>, nodes: seq<AccountNode>)
    requires DecodesAccounts(nodes, rows, columns) && "id" in columns && (q.proxy.Some? ==> "proxy_id" in columns)
    ensures Mapped(nodes, AccountID) == Mapped(rows, AccountRowID)
    ensures q.proxy.Some? ==> Mapped(nodes, ProxyKey) == Mapped(rows, KeyOfRow)
    ensures LoadError(db, q, Mapped(nodes, AccountID), Mapped(nodes, ProxyKey)) ==
            EdgeError(db, q, rows)
  {
    forall i | 0 <= i < |rows| ensures nodes[i].row == DecodeAccount(rows[i], columns) {}
  }

  /** The two queries, their bases and their edge queries are different objects. */
  ghost predicate Apart(q: AccountQuery, r: AccountQuery)
    reads q, r, q.withAccountGroups, r.withAccountGroups
  {
    && q != r && q.base != r.base
    && (q.withGroups != null ==> q.withGroups != r.withGroups)
    && (q.withProxy != null ==> q.withProxy != r.withProxy)
    && (q.withUsageLogs != null ==> q.withUsageLogs != r.withUsageLogs)
    && (q.withAccountGroups != null && r.withAccountGroups != null ==>
          && q.withAccountGroups != r.withAccountGroups
          && q.withAccountGroups.base != r.withAccountGroups.base
          && (q.withAccountGroups.withGroup != null ==> q.withAccountGroups.withGroup != r.withAccountGroups.withGroup))
    && (q.withGroups != null && r.withAccountGroups != null ==> q.withGroups != r.withAccountGroups.withGroup)
    && (r.withGroups != null && q.withAccountGroups != null ==> r.withGroups != q.withAccountGroups.withGroup)
  }
}
