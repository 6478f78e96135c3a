/** The fields of the nodes that queries return: those of the rows they were read from. */
module Fields {
  import opened Wrappers
  import opened Rows
  import opened Joins
  import opened Queries
  import opened EagerLoading
  import opened AccountQueries
  import opened IdentityEdges

  /** A field holds what its column holds if the column is read, and is zero otherwise. */
  predicate Field<T(==)>(read: bool, field: T, cell: T, zero: T) {
    if read then field == cell else field == zero
  }

  predicate GroupRead(x: GroupRow, r: GroupRow, columns: set<string>) {
    Field("id" in columns, x.id, r.id, 0) && Field("name" in columns, x.name, r.name, "")
  }

  predicate ProxyRead(x: ProxyRow, r: ProxyRow, columns: set<string>) {
    Field("id" in columns, x.id, r.id, 0) && Field("name" in columns, x.name, r.name, "")
  }

  predicate UsageLogRead(x: UsageLogRow, r: UsageLogRow, columns: set<string>) {
    && Field("id" in columns, x.id, r.id, 0)
    && Field("account_id" in columns, x.accountID, r.accountID, 0)
    && Field("model" in columns, x.model, r.model, "")
  }

  predicate AccountGroupRead(x: AccountGroupRow, r: AccountGroupRow, columns: set<string>) {
    && Field("account_id" in columns, x.accountID, r.accountID, 0)
    && Field("group_id" in columns, x.groupID, r.groupID, 0)
    && Field("priority" in columns, x.priority, r.priority, 0)
  }

  predicate IdentityRead(x: IdentityRow, r: IdentityRow, columns: set<string>) {
    Field("id" in columns, x.id, r.id, 0) && Field("user_id" in columns, x.userID, r.userID, 0)
  }

  predicate DecisionRead(x: DecisionRow, r: DecisionRow, columns: set<string>) {
    && Field("id" in columns, x.id, r.id, 0)
    && Field("identity_id" in columns, x.identityID, r.identityID, None)
    && Field("adopt" in columns, x.adopt, r.adopt, false)
  }

  /** Which columns are read: all of them without a selection, else the selected and the needed ones. */
  predicate IsRead(c: string, all: seq<string>, selected: seq<string>, needed: set<string>) {
    if selected == [] then c in all else c in selected || c in needed
  }

  /** What the edge queries read of their tables. */
  lemma EdgesRead(q: AccountQuery, db: Database)
    ensures var asks := q.Asks(db);
            && (q.withGroups != null ==> forall c ::
                  c in asks.groups.value.columns <==> IsRead(c, db.groups.columns, q.withGroups.fields, {"id"}))
            && (q.withProxy != null ==> forall c ::
                  c in asks.proxy.value.columns <==> IsRead(c, db.proxies.columns, q.withProxy.fields, {"id"}))
            && (q.withUsageLogs != null ==> forall c ::
                  c in asks.usageLogs.value.columns <==>
                  IsRead(c, db.usageLogs.columns, q.withUsageLogs.fields, {"id", "account_id"}))
            && (q.withAccountGroups != null ==> forall c ::
                  c in asks.accountGroups.value.columns <==>
                  IsRead(c, db.accountGroups.columns, q.withAccountGroups.base.fields,
                         {"account_id"} + if q.withAccountGroups.withGroup != null then {"group_id"} else {}))
            && (q.withAccountGroups != null && q.withAccountGroups.withGroup != null ==> forall c ::
                  c in asks.joinGroup.value.columns <==>
                  IsRead(c, db.groups.columns, q.withAccountGroups.withGroup.fields, {"id"}))
  {
    if q.withUsageLogs != null {
      RequiredIsRead(q.withUsageLogs.fields, "account_id");
    }
    if q.withAccountGroups != null {
      RequiredIsRead(q.withAccountGroups.base.fields, "account_id");
    }
  }

  lemma RequiredIsRead(fields: seq<string>, key: string)
    ensures WithForeignKey(fields, key) == [] <==> fields == []
    ensures fields != [] ==> forall c :: c in WithForeignKey(fields, key) <==> c in fields || c == key
  {}

  // ----- the edges of loaded accounts -----

  /** A group of an account was read from a row of the table that the conditions accept. */
  lemma GroupsHoldTheirRows(db: Database, s: Selection<GroupRow>, columns: set<string>,
                            nodes: seq<AccountNode>, groups: seq<Group>, a: AccountNode, x: Group)
    requires GroupsLoaded(db, s, columns, nodes, groups) && a in nodes && x in a.groups
    ensures exists r <- db.groups.rows :: GroupRead(x.row, r, columns)
    ensures {"id", "name"} <= columns ==> x.row in db.groups.rows
  {
    var pairs := GroupPairs(db, s, Mapped(nodes, AccountID));
    var rows := FirstOfEach(Mapped(pairs, Second), GroupID);
    KeepIn(groups, NodeJoinedTo(pairs, a.row.id), x);
    var i :| 0 <= i < |groups| && groups[i] == x;
    FirstOfEachIs(Mapped(pairs, Second), GroupID);
    assert rows[i] in rows;
    var n :| 0 <= n < |pairs| && Mapped(pairs, Second)[n] == rows[i];
    assert pairs[n] == (pairs[n].0, rows[i]);
    GroupPairsIn(db, s, Mapped(nodes, AccountID), pairs[n].0, rows[i]);
    assert GroupRead(x.row, rows[i], columns);
  }

  lemma ProxyHoldsItsRow(db: Database, s: Selection<ProxyRow>, columns: set<string>,
                         nodes: seq<AccountNode>, proxies: seq<Proxy>, a: AccountNode)
    requires ProxiesLoaded(db, s, columns, nodes, proxies) && a in nodes && a.proxy != null
    ensures exists r <- db.proxies.rows :: ProxyRead(a.proxy.row, r, columns)
    ensures {"id", "name"} <= columns ==> a.proxy.row in db.proxies.rows
  {
    var ids := DistinctKeys(Mapped(nodes, ProxyKey));
    var rows := Selected(db.proxies.rows, And(s, ProxyIDIn(ids)));
    LastIs(proxies, IsProxy(a.row.proxyID.value));
    var i :| 0 <= i < |proxies| && proxies[i] == a.proxy;
    SelectedIn(db.proxies.rows, And(s, ProxyIDIn(ids)), rows[i]);
    assert ProxyRead(a.proxy.row, rows[i], columns);
  }

  lemma UsageLogsHoldTheirRows(db: Database, s: Selection<UsageLogRow>, columns: set<string>,
                               nodes: seq<AccountNode>, logs: seq<UsageLog>, a: AccountNode, x: UsageLog)
    requires UsageLogsLoaded(db, s, columns, nodes, logs) && a in nodes && x in a.usageLogs
    ensures exists r <- db.usageLogs.rows :: UsageLogRead(x.row, r, columns)
    ensures {"id", "account_id", "model"} <= columns ==> x.row in db.usageLogs.rows
  {
    var t := And(s, LogAccountIn(Mapped(nodes, AccountID)));
    KeepIn(logs, LogOf(a.row.id), x);
    var i :| 0 <= i < |logs| && logs[i] == x;
    SelectedIn(db.usageLogs.rows, t, Selected(db.usageLogs.rows, t)[i]);
    assert UsageLogRead(x.row, Selected(db.usageLogs.rows, t)[i], columns);
  }

  lemma JoinsHoldTheirRows(db: Database, s: Selection<AccountGroupRow>, columns: set<string>,
                           nodes: seq<AccountNode>, joins: seq<AccountGroup>, a: AccountNode, x: AccountGroup)
    requires AccountGroupsLoaded(db, s, columns, nodes, joins) && a in nodes && x in a.accountGroups
    ensures exists r <- db.accountGroups.rows :: AccountGroupRead(x.row, r, columns)
    ensures {"account_id", "group_id", "priority"} <= columns ==> x.row in db.accountGroups.rows
  {
    var t := And(s, RowAccountIn(Mapped(nodes, AccountID)));
    KeepIn(joins, RowOf(a.row.id), x);
    var i :| 0 <= i < |joins| && joins[i] == x;
    SelectedIn(db.accountGroups.rows, t, Selected(db.accountGroups.rows, t)[i]);
    assert AccountGroupRead(x.row, Selected(db.accountGroups.rows, t)[i], columns);
  }

  lemma JoinGroupHoldsItsRow(db: Database, s: Selection<GroupRow>, columns: set<string>,
                             joins: seq<AccountGroup>, groups: seq<Group>, ag: AccountGroup)
    requires JoinGroupsLoaded(db, s, columns, joins, groups) && ag in joins && ag.group != null
    ensures exists r <- db.groups.rows :: GroupRead(ag.group.row, r, columns)
    ensures {"id", "name"} <= columns ==> ag.group.row in db.groups.rows
  {
    var t := And(s, GroupIDIn(DistinctKeys(Mapped(joins, JoinKey))));
    LastIs(groups, IsGroup(ag.row.groupID));
    var i :| 0 <= i < |groups| && groups[i] == ag.group;
    SelectedIn(db.groups.rows, t, Selected(db.groups.rows, t)[i]);
    assert GroupRead(ag.group.row, Selected(db.groups.rows, t)[i], columns);
  }

  lemma DecisionsHoldTheirRows(table: Table<DecisionRow>, s: Selection<DecisionRow>, columns: set<string>,
                               nodes: seq<Identity>, decisions: seq<Decision>, x: Identity, d: Decision)
    requires DecisionsLoaded(table, s, columns, nodes, decisions) && x in nodes && d in x.decisions
    ensures exists r <- table.rows :: DecisionRead(d.row, r, columns)
    ensures {"id", "identity_id", "adopt"} <= columns ==> d.row in table.rows
  {
    var t := And(s, DecidedBy(Mapped(nodes, IdentityID)));
    KeepIn(decisions, DecisionOf(x.row.id), d);
    var i :| 0 <= i < |decisions| && decisions[i] == d;
    SelectedIn(table.rows, t, Selected(table.rows, t)[i]);
    assert DecisionRead(d.row, Selected(table.rows, t)[i], columns);
  }

  lemma IdentityHoldsItsRow(table: Table<IdentityRow>, s: Selection<IdentityRow>, columns: set<string>,
                            nodes: seq<Decision>, identities: seq<Identity>, d: Decision)
    requires IdentitiesLoaded(table, s, columns, nodes, identities) && d in nodes && d.identity != null
    ensures exists r <- table.rows :: IdentityRead(d.identity.row, r, columns)
    ensures {"id", "user_id"} <= columns ==> d.identity.row in table.rows
  {
    var t := And(s, IdentityIDIn(DistinctKeys(Mapped(nodes, DecisionKey))));
    LastIs(identities, IsIdentity(d.row.identityID.value));
    var i :| 0 <= i < |identities| && identities[i] == d.identity;
    SelectedIn(table.rows, t, Selected(table.rows, t)[i]);
    assert IdentityRead(d.identity.row, Selected(table.rows, t)[i], columns);
  }

  // ----- the accounts themselves -----

  /** The accounts hold the fields of the rows: all of them without a selection of columns, and otherwise the
      selected ones with the identifier and, if the proxy is requested, its foreign key. */
  ghost predicate AccountsHold(nodes: seq<AccountNode>, rows: seq<AccountRow>, all: seq<string>, selected: seq<string>,
                               proxied: bool)
  {
    && |nodes| == |rows|
    && (selected == [] && "id" in all && "proxy_id" in all && "name" in all ==>
          forall i :: 0 <= i < |rows| ==> nodes[i].row == rows[i])
    && (selected != [] ==>
          forall i :: 0 <= i < |rows| ==>
            && nodes[i].row.id == rows[i].id
            && nodes[i].row.proxyID == (if proxied || "proxy_id" in selected then rows[i].proxyID else None)
            && nodes[i].row.name == if "name" in selected then rows[i].name else "")
  }

  lemma DecodedHold(nodes: seq<AccountNode>, rows: seq<AccountRow>, all: seq<string>, selected: seq<string>,
                    proxied: bool)
    requires DecodesAccounts(nodes, rows, Kept(all, selected, {"id"} + if proxied then {"proxy_id"} else {}))
    ensures AccountsHold(nodes, rows, all, selected, proxied)
  {}

  /** A query returns accounts that hold the fields of the rows that it selects. */
  method LoadAccounts(q: AccountQuery, db: Database) returns (r: Result<seq<AccountNode>, QueryError>)
    requires q.Valid() && HasKeyColumns(db) && DistinctBy(db.accounts.rows, AccountRowID)
    modifies q.base`predicates,
             {q.withGroups}`predicates,
             {q.withGroups}`joins,
             {q.withProxy}`predicates,
             {q.withUsageLogs}`predicates,
             {q.withUsageLogs}`fields,
             {q.JoinBase()}`predicates,
             {q.JoinBase()}`fields,
             {q.JoinGroup()}`predicates
    ensures r.Success? ==>
              AccountsHold(r.value, Selected(db.accounts.rows, old(q.base.Asking())), db.accounts.columns,
                           old(q.base.fields), old(q.withProxy) != null)
  {
    ghost var rows := Selected(db.accounts.rows, q.base.Asking());
    ghost var selected, proxied := q.base.fields, q.withProxy != null;
    ghost var f;
    r, f := q.All(db);
    if r.Success? {
      DecodedHold(r.value, rows, db.accounts.columns, selected, proxied);
    }
  }
}
