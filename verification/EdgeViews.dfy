/** What a loaded account is, as a value: a function of the database and of what is asked of each edge. */
module EdgeViews {
  import opened Wrappers
  import opened Rows
  import opened Joins
  import opened EagerLoading
  import opened AccountQueries
  import opened OneToMany
  import opened ManyToMany

  /** An account with its edges; each join node comes with the group it leads to. */
  datatype View = View(
    row: AccountRow,
    groups: seq<GroupRow>,
    proxy: Option<ProxyRow>,
    usageLogs: seq<UsageLogRow>,
    accountGroups: seq<(AccountGroupRow, Option<GroupRow>)>)

  function RowOfProxy(p: Proxy?): Option<ProxyRow> {
    if p == null then None else Some(p.row)
  }

  function RowOfGroup(g: Group?): Option<GroupRow> {
    if g == null then None else Some(g.row)
  }

  function FieldsOfGroup(g: Group): GroupRow { g.row }

  ghost function JoinView(joins: seq<AccountGroup>): (r: seq<(AccountGroupRow, Option<GroupRow>)>)
    reads joins
    ensures |r| == |joins| && forall k :: 0 <= k < |joins| ==> r[k] == (joins[k].row, RowOfGroup(joins[k].group))
  {
    seq(|joins|, k requires 0 <= k < |joins| reads joins => (joins[k].row, RowOfGroup(joins[k].group)))
  }

  ghost function ViewOf(a: AccountNode): View
    reads a`groups, a`proxy, a`usageLogs, a`accountGroups, a.accountGroups
  {
    View(a.row, Mapped(a.groups, FieldsOfGroup), RowOfProxy(a.proxy), Mapped(a.usageLogs, FieldsOfUsageLog),
         JoinView(a.accountGroups))
  }

  // ----- what is asked of an edge determines what is attached to an account with the identifier id,
  //       when it is loaded for the accounts with the identifiers ids -----

  function GroupDecoder(columns: set<string>): GroupRow -> GroupRow {
    (r: GroupRow) => DecodeGroup(r, columns)
  }

  ghost function ExpectedGroups(db: Database, ask: Option<Ask<GroupRow>>, ids: seq<int>, id: int): seq<GroupRow> {
    if ask.None? then []
    else
      var pairs := GroupPairs(db, ask.value.selection, ids);
      Mapped(Keep(FirstOfEach(Mapped(pairs, Second), GroupID), JoinedTo(pairs, id)), GroupDecoder(ask.value.columns))
  }

  function ProxyRowIs(k: int): ProxyRow -> bool { (p: ProxyRow) => p.id == k }

  /** The last row with the key, decoded. */
  function ProxyReferred(rows: seq<ProxyRow>, columns: set<string>, key: Option<int>): Option<ProxyRow> {
    if key.None? then None
    else
      var last := Last(rows, ProxyRowIs(key.value));
      if last.None? then None else Some(DecodeProxy(last.value, columns))
  }

  ghost function ExpectedProxy(db: Database, ask: Option<Ask<ProxyRow>>, keys: seq<Option<int>>,
                               key: Option<int>): Option<ProxyRow> {
    var ids := DistinctKeys(keys);
    if ask.None? || ids == [] then None
    else
      ProxyReferred(Selected(db.proxies.rows, And(ask.value.selection, ProxyIDIn(ids))), ask.value.columns, key)
  }

  ghost function ExpectedLogs(db: Database, ask: Option<Ask<UsageLogRow>>, ids: seq<int>, id: int): seq<UsageLogRow> {
    if ask.None? then []
    else
      var rows := Selected(db.usageLogs.rows, And(ask.value.selection, LogAccountIn(ids)));
      Mapped(Keep(rows, LogRowOf(id)), LogDecoder(ask.value.columns))
  }

  function GroupRowIs(k: int): GroupRow -> bool { (g: GroupRow) => g.id == k }

  function GroupReferred(rows: seq<GroupRow>, columns: set<string>, key: int): Option<GroupRow> {
    var last := Last(rows, GroupRowIs(key));
    if last.None? then None else Some(DecodeGroup(last.value, columns))
  }

  function KeyOfJoinRow(j: AccountGroupRow): Option<int> { Some(j.groupID) }

  /** The group that a join node leads to, when it is loaded for the join rows. */
  ghost function ExpectedGroup(db: Database, ask: Option<Ask<GroupRow>>, rows: seq<AccountGroupRow>,
                               key: int): Option<GroupRow> {
    if ask.None? || rows == [] then None
    else
      var ids := DistinctKeys(Mapped(rows, KeyOfJoinRow));
      GroupReferred(Selected(db.groups.rows, And(ask.value.selection, GroupIDIn(ids))), ask.value.columns, key)
  }

  ghost function JoinRowsOf(db: Database, s: Selection<AccountGroupRow>, ids: seq<int>): seq<AccountGroupRow> {
    Selected(db.accountGroups.rows, And(s, RowAccountIn(ids)))
  }

  ghost function JoinViewer(db: Database, columns: set<string>, nested: Option<Ask<GroupRow>>,
                            rows: seq<AccountGroupRow>): AccountGroupRow -> (AccountGroupRow, Option<GroupRow>) {
    (j: AccountGroupRow) => (DecodeAccountGroup(j, columns), ExpectedGroup(db, nested, rows, j.groupID))
  }

  ghost function ExpectedJoins(db: Database, ask: Option<Ask<AccountGroupRow>>, nested: Option<Ask<GroupRow>>,
                               ids: seq<int>, id: int): seq<(AccountGroupRow, Option<GroupRow>)> {
    if ask.None? then []
    else
      var rows := JoinRowsOf(db, ask.value.selection, ids);
      Mapped(Keep(rows, JoinRowOf(id)), JoinViewer(db, ask.value.columns, nested, rows))
  }

  /** Each edge depends on its own request alone. */
  ghost function Expected(db: Database, q: Requests, ids: seq<int>, keys: seq<Option<int>>, r: AccountRow): View {
    View(r,
         ExpectedGroups(db, q.groups, ids, r.id),
         ExpectedProxy(db, q.proxy, keys, r.proxyID),
         ExpectedLogs(db, q.usageLogs, ids, r.id),
         ExpectedJoins(db, q.accountGroups, q.joinGroup, ids, r.id))
  }

  // ----- and that is what loading attaches -----

  lemma GroupsAreExpected(db: Database, q: Requests, nodes: seq<AccountNode>, groups: seq<Group>, i: nat)
    requires GroupsEdge(db, q, nodes, groups) && HasKeys(q) && !q.rejoined && i < |nodes|
    ensures Mapped(nodes[i].groups, FieldsOfGroup) ==
            ExpectedGroups(db, q.groups, Mapped(nodes, AccountID), nodes[i].row.id)
  {
    if q.groups.Some? {
      var pairs := GroupPairs(db, q.groups.value.selection, Mapped(nodes, AccountID));
      var id, columns := nodes[i].row.id, q.groups.value.columns;
      var rows := FirstOfEach(Mapped(pairs, Second), GroupID);
      forall j | 0 <= j < |groups|
        ensures NodeJoinedTo(pairs, id)(groups[j]) <==> JoinedTo(pairs, id)(rows[j])
        ensures FieldsOfGroup(groups[j]) == GroupDecoder(columns)(rows[j])
      {
        assert groups[j].row == DecodeGroup(rows[j], columns);
        JoinedByID(pairs, id, groups[j].row, rows[j]);
      }
      KeepParallel(groups, rows, NodeJoinedTo(pairs, id), JoinedTo(pairs, id), FieldsOfGroup, GroupDecoder(columns));
    }
  }

  lemma JoinedByID(pairs: seq<(int, GroupRow)>, account: int, g: GroupRow, h: GroupRow)
    requires g.id == h.id
    ensures JoinedTo(pairs, account)(g) <==> JoinedTo(pairs, account)(h)
  {}

  function ProxyDecoder(columns: set<string>): ProxyRow -> ProxyRow {
    (r: ProxyRow) => DecodeProxy(r, columns)
  }

  lemma ProxyForIsReferred(proxies: seq<Proxy>, rows: seq<ProxyRow>, columns: set<string>, key: Option<int>)
    requires DecodesProxies(proxies, rows, columns) && "id" in columns
    ensures RowOfProxy(ProxyFor(proxies, key)) == ProxyReferred(rows, columns, key)
  {
    if key.Some? {
      var k := key.value;
      forall j | 0 <= j < |proxies|
        ensures IsProxy(k)(proxies[j]) <==> ProxyRowIs(k)(rows[j])
        ensures FieldsOfProxy(proxies[j]) == ProxyDecoder(columns)(rows[j])
      {
        assert proxies[j].row == DecodeProxy(rows[j], columns);
      }
      LastParallel(proxies, rows, IsProxy(k), ProxyRowIs(k), FieldsOfProxy, ProxyDecoder(columns));
    }
  }

  lemma ProxyIsExpected(db: Database, q: Requests, nodes: seq<AccountNode>, proxies: seq<Proxy>, i: nat)
    requires ProxyEdge(db, q, nodes, proxies) && (q.proxy.Some? ==> "id" in q.proxy.value.columns) && i < |nodes|
    ensures RowOfProxy(nodes[i].proxy) == ExpectedProxy(db, q.proxy, Mapped(nodes, ProxyKey), nodes[i].row.proxyID)
  {
    if q.proxy.Some? {
      var ids := DistinctKeys(Mapped(nodes, ProxyKey));
      var rows := if ids == [] then [] else Selected(db.proxies.rows, And(q.proxy.value.selection, ProxyIDIn(ids)));
      ProxyForIsReferred(proxies, rows, q.proxy.value.columns, nodes[i].row.proxyID);
    }
  }

  lemma GroupForIsReferred(groups: seq<Group>, rows: seq<GroupRow>, columns: set<string>, key: int)
    requires DecodesGroups(groups, rows, columns) && "id" in columns
    ensures RowOfGroup(GroupFor(groups, key)) == GroupReferred(rows, columns, key)
  {
    forall j | 0 <= j < |groups|
      ensures IsGroup(key)(groups[j]) <==> GroupRowIs(key)(rows[j])
      ensures FieldsOfGroup(groups[j]) == GroupDecoder(columns)(rows[j])
    {
      assert groups[j].row == DecodeGroup(rows[j], columns);
    }
    LastParallel(groups, rows, IsGroup(key), GroupRowIs(key), FieldsOfGroup, GroupDecoder(columns));
  }

  /** Join nodes that are loaded with their groups, or without. */
  lemma JoinNodeIsExpected(db: Database, q: Requests, ids: seq<int>, joins: seq<AccountGroup>, groups: seq<Group>,
                           k: nat)
    requires q.accountGroups.Some? && HasKeys(q) && k < |joins|
    requires DecodesAccountGroups(joins, JoinRowsOf(db, q.accountGroups.value.selection, ids),
                                  q.accountGroups.value.columns)
    requires if q.joinGroup.None? then forall ag <- joins :: ag.group == null
             else JoinGroupsLoaded(db, q.joinGroup.value.selection, q.joinGroup.value.columns, joins, groups)
    ensures var rows := JoinRowsOf(db, q.accountGroups.value.selection, ids);
            (joins[k].row, RowOfGroup(joins[k].group)) ==
            JoinViewer(db, q.accountGroups.value.columns, q.joinGroup, rows)(rows[k])
  {
    var rows := JoinRowsOf(db, q.accountGroups.value.selection, ids);
    assert joins[k].row == DecodeAccountGroup(rows[k], q.accountGroups.value.columns);
    if q.joinGroup.Some? {
      JoinKeysOfRows(joins, rows, q.accountGroups.value.columns);
      var s := And(q.joinGroup.value.selection, GroupIDIn(DistinctKeys(Mapped(rows, KeyOfJoinRow))));
      GroupForIsReferred(groups, Selected(db.groups.rows, s), q.joinGroup.value.columns, joins[k].row.groupID);
    }
  }

  lemma JoinKeysOfRows(joins: seq<AccountGroup>, rows: seq<AccountGroupRow>, columns: set<string>)
    requires DecodesAccountGroups(joins, rows, columns) && "group_id" in columns
    ensures Mapped(joins, JoinKey) == Mapped(rows, KeyOfJoinRow)
  {
    forall k | 0 <= k < |joins| ensures JoinKey(joins[k]) == KeyOfJoinRow(rows[k]) {
      assert joins[k].row == DecodeAccountGroup(rows[k], columns);
    }
  }

  /** Keeping corresponding elements, for nodes whose edges are read. */
  lemma {:induction false} KeepViews(joins: seq<AccountGroup>, rows: seq<AccountGroupRow>, id: int,
                                     f: AccountGroupRow -> (AccountGroupRow, Option<GroupRow>))
    requires |joins| == |rows|
    requires forall k :: 0 <= k < |joins| ==>
               (RowOf(id)(joins[k]) <==> JoinRowOf(id)(rows[k])) &&
               (joins[k].row, RowOfGroup(joins[k].group)) == f(rows[k])
    ensures JoinView(Keep(joins, RowOf(id))) == Mapped(Keep(rows, JoinRowOf(id)), f)
    decreases |joins|
  {
    if joins != [] {
      var n := |joins| - 1;
      KeepViews(joins[..n], rows[..n], id, f);
      var k, r := Keep(joins[..n], RowOf(id)), Keep(rows[..n], JoinRowOf(id));
      if RowOf(id)(joins[n]) {
        assert JoinView(k + [joins[n]]) == JoinView(k) + [(joins[n].row, RowOfGroup(joins[n].group))];
        assert Mapped(r + [rows[n]], f) == Mapped(r, f) + [f(rows[n])];
      } else {
        assert k + [] == k && r + [] == r;
      }
    }
  }

  lemma JoinsAreExpected(db: Database, q: Requests, nodes: seq<AccountNode>, joins: seq<AccountGroup>,
                         groups: seq<Group>, i: nat)
    requires JoinsEdge(db, q, nodes, joins, groups) && HasKeys(q) && i < |nodes|
    ensures JoinView(nodes[i].accountGroups) ==
            ExpectedJoins(db, q.accountGroups, q.joinGroup, Mapped(nodes, AccountID), nodes[i].row.id)
  {
    if q.accountGroups.Some? {
      var ids, id := Mapped(nodes, AccountID), nodes[i].row.id;
      var rows := JoinRowsOf(db, q.accountGroups.value.selection, ids);
      var f := JoinViewer(db, q.accountGroups.value.columns, q.joinGroup, rows);
      forall k | 0 <= k < |joins|
        ensures (RowOf(id)(joins[k]) <==> JoinRowOf(id)(rows[k])) &&
                (joins[k].row, RowOfGroup(joins[k].group)) == f(rows[k])
      {
        JoinNodeIsExpected(db, q, ids, joins, groups, k);
      }
      KeepViews(joins, rows, id, f);
    }
  }

  /** Every loaded account is what the database and the requests determine. */
  lemma LoadedIsExpected(db: Database, q: Requests, nodes: seq<AccountNode>, f: Fetched, i: nat)
    requires EdgesLoaded(db, q, nodes, f) && HasKeys(q) && i < |nodes|
    ensures var view := Expected(db, q, Mapped(nodes, AccountID), Mapped(nodes, ProxyKey), nodes[i].row);
            ViewOf(nodes[i]) == if q.rejoined then view.(groups := ViewOf(nodes[i]).groups) else view
  {
    if !q.rejoined {
      GroupsAreExpected(db, q, nodes, f.groups, i);
    }
    ProxyIsExpected(db, q, nodes, f.proxies, i);
    if q.usageLogs.Some? {
      LogsAreTheirRows(db, q.usageLogs.value.selection, q.usageLogs.value.columns, nodes, f.usageLogs, nodes[i]);
    }
    JoinsAreExpected(db, q, nodes, f.accountGroups, f.joinGroups, i);
  }
}
