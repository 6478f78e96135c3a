/** Eager loading: the nodes of a query are stitched to the nodes of a second query through maps. */
module EagerLoading {
  import opened Wrappers
  import opened Rows
  import opened Joins
  import opened Queries

  // ----- nodes: the scanned columns never change, the edges do -----

  class Group {
    const row: GroupRow

    constructor (row: GroupRow)
      ensures this.row == row
    {
      this.row := row;
    }
  }

  class Proxy {
    const row: ProxyRow

    constructor (row: ProxyRow)
      ensures this.row == row
    {
      this.row := row;
    }
  }

  class UsageLog {
    const row: UsageLogRow

    constructor (row: UsageLogRow)
      ensures this.row == row
    {
      this.row := row;
    }
  }

  class AccountGroup {
    const row: AccountGroupRow
    const groupLoaded: bool
    var group: Group?

    constructor (row: AccountGroupRow, groupLoaded: bool)
      ensures this.row == row && this.groupLoaded == groupLoaded && group == null
    {
      this.row, this.groupLoaded, group := row, groupLoaded, null;
    }

    function GroupOrErr(): Result<Group, QueryError>
      reads this
    {
      if group != null then Success(group)
      else Failure(if groupLoaded then NotFound("group") else NotLoaded("group"))
    }
  }

  /** Which edges were requested. */
  datatype Loaded = Loaded(groups: bool, proxy: bool, usageLogs: bool, accountGroups: bool)

  class AccountNode {
    const row: AccountRow
    const loaded: Loaded
    var groups: seq<Group>
    var proxy: Proxy?
    var usageLogs: seq<UsageLog>
    var accountGroups: seq<AccountGroup>

    constructor (row: AccountRow, loaded: Loaded)
      ensures this.row == row && this.loaded == loaded
      ensures groups == [] && proxy == null && usageLogs == [] && accountGroups == []
    {
      this.row, this.loaded := row, loaded;
      groups, proxy, usageLogs, accountGroups := [], null, [], [];
    }

    function GroupsOrErr(): Result<seq<Group>, QueryError>
      reads this
    {
      if loaded.groups then Success(groups) else Failure(NotLoaded("groups"))
    }

    function ProxyOrErr(): Result<Proxy, QueryError>
      reads this
    {
      if proxy != null then Success(proxy)
      else Failure(if loaded.proxy then NotFound("proxy") else NotLoaded("proxy"))
    }

    function UsageLogsOrErr(): Result<seq<UsageLog>, QueryError>
      reads this
    {
      if loaded.usageLogs then Success(usageLogs) else Failure(NotLoaded("usage_logs"))
    }

    function AccountGroupsOrErr(): Result<seq<AccountGroup>, QueryError>
      reads this
    {
      if loaded.accountGroups then Success(accountGroups) else Failure(NotLoaded("account_groups"))
    }
  }

  function AccountID(a: AccountNode): int { a.row.id }

  function ProxyKey(a: AccountNode): Option<int> { a.row.proxyID }

  function FieldsOfProxy(p: Proxy): ProxyRow { p.row }

  function FieldsOfUsageLog(l: UsageLog): UsageLogRow { l.row }

  function FieldsOfAccountGroup(ag: AccountGroup): AccountGroupRow { ag.row }

  // ----- the indexes -----

  /** No later one of the first n identifiers is the same. */
  predicate LastAt(ids: seq<int>, i: nat, n: nat)
    requires i < n <= |ids|
  {
    forall j :: i < j < n ==> ids[j] != ids[i]
  }

  /** The map from identifier to node; of nodes with the same identifier it keeps the last. */
  method IndexByID<P>(nodes: seq<P>, ids: seq<int>) returns (byID: map<int, P>)
    requires |ids| == |nodes|
    ensures forall k :: k in byID <==> k in ids
    ensures forall i :: 0 <= i < |ids| ==> LastAt(ids, i, |ids|) ==> ids[i] in byID && byID[ids[i]] == nodes[i]
  {
    byID := map[];
    for i := 0 to |nodes|
      invariant forall k :: k in byID <==> k in ids[..i]
      invariant forall j :: 0 <= j < i ==> LastAt(ids, j, i) ==> ids[j] in byID && byID[ids[j]] == nodes[j]
    {
      assert ids[..i + 1] == ids[..i] + [ids[i]];
      byID := byID[ids[i] := nodes[i]];
    }
    assert ids[..|ids|] == ids;
  }

  /** The nodes whose key is k, in order. */
  function WithKey<P>(nodes: seq<P>, keys: seq<Option<int>>, k: int): seq<P>
    requires |keys| == |nodes|
  {
    if nodes == [] then []
    else
      var n := |nodes| - 1;
      WithKey(nodes[..n], keys[..n], k) + if keys[n] == Some(k) then [nodes[n]] else []
  }

  lemma WithKeySnoc<P>(nodes: seq<P>, keys: seq<Option<int>>, i: nat, k: int)
    requires |keys| == |nodes| && i < |nodes|
    ensures WithKey(nodes[..i + 1], keys[..i + 1], k) ==
            WithKey(nodes[..i], keys[..i], k) + if keys[i] == Some(k) then [nodes[i]] else []
  {
    assert nodes[..i + 1][..i] == nodes[..i] && keys[..i + 1][..i] == keys[..i];
  }

  lemma {:induction false} WithoutKey<P>(nodes: seq<P>, keys: seq<Option<int>>, k: int)
    requires |keys| == |nodes| && Some(k) !in keys
    ensures WithKey(nodes, keys, k) == []
  {
    if nodes != [] {
      WithoutKey(nodes[..|nodes| - 1], keys[..|nodes| - 1], k);
    }
  }

  /** The distinct keys in order of first appearance, and for each the nodes that have it; nodes without
      a key are in no bucket. */
  method BucketByKey<P>(nodes: seq<P>, keys: seq<Option<int>>) returns (ids: seq<int>, buckets: map<int, seq<P>>)
    requires |keys| == |nodes|
    ensures ids == DistinctKeys(keys)
    ensures forall k :: k in buckets <==> k in ids
    ensures forall k <- buckets :: buckets[k] == WithKey(nodes, keys, k)
  {
    ids, buckets := [], map[];
    for i := 0 to |nodes|
      invariant ids == DistinctKeys(keys[..i])
      invariant forall k :: k in buckets <==> k in ids
      invariant forall k <- buckets :: buckets[k] == WithKey(nodes[..i], keys[..i], k)
    {
      DistinctKeysSnoc(keys, i);
      forall k <- buckets {
        WithKeySnoc(nodes, keys, i, k);
      }
      if keys[i].None? {
        continue;
      }
      var fk := keys[i].value;
      WithKeySnoc(nodes, keys, i, fk);
      if fk !in buckets {
        DistinctKeysAre(keys[..i], fk);
        WithoutKey(nodes[..i], keys[..i], fk);
        ids := ids + [fk];
        buckets := buckets[fk := [nodes[i]]];
      } else {
        buckets := buckets[fk := buckets[fk] + [nodes[i]]];
      }
    }
    assert nodes[..|nodes|] == nodes && keys[..|keys|] == keys;
  }

  /** A bucket lists exactly the nodes with its key. */
  lemma {:induction false} WithKeyIn<P>(nodes: seq<P>, keys: seq<Option<int>>, k: int, x: P)
    requires |keys| == |nodes|
    ensures x in WithKey(nodes, keys, k) <==> exists i :: 0 <= i < |nodes| && nodes[i] == x && keys[i] == Some(k)
  {
    if nodes != [] {
      var n := |nodes| - 1;
      WithKeyIn(nodes[..n], keys[..n], k, x);
      if i :| 0 <= i < |nodes| && nodes[i] == x && keys[i] == Some(k) {
        assert i < n ==> nodes[..n][i] == x && keys[..n][i] == Some(k);
      }
    }
  }

  // ----- many to many -----

  function Second(p: (int, GroupRow)): GroupRow { p.1 }

  function GroupID(g: GroupRow): int { g.id }

  /** Whether a joined row connects the account to the group, the account being found through byID. */
  predicate Connects(pairs: seq<(int, GroupRow)>, byID: map<int, AccountNode>, a: AccountNode, group: int) {
    exists i :: 0 <= i < |pairs| && pairs[i].0 in byID && byID[pairs[i].0] == a && pairs[i].1.id == group
  }

  predicate Listed(nids: map<int, set<AccountNode>>, a: AccountNode, group: int) {
    group in nids && a in nids[group]
  }

  /** The joined rows read one by one: the groups that are new become nodes, and for each group the set
      of accounts it belongs to is collected. */
  method Scan(pairs: seq<(int, GroupRow)>, byID: map<int, AccountNode>)
      returns (rows: seq<GroupRow>, nids: map<int, set<AccountNode>>)
    requires forall p <- pairs :: p.0 in byID
    ensures rows == FirstOfEach(Mapped(pairs, Second), GroupID)
    ensures forall k :: k in nids <==> HasKey(rows, GroupID, k)
    ensures forall k, a :: Listed(nids, a, k) <==> Connects(pairs, byID, a, k)
  {
    rows, nids := [], map[];
    for i := 0 to |pairs|
      invariant rows == FirstOfEach(Mapped(pairs[..i], Second), GroupID)
      invariant forall k :: k in nids <==> HasKey(rows, GroupID, k)
      invariant forall k, a :: Listed(nids, a, k) <==> Connects(pairs[..i], byID, a, k)
    {
      var outValue, group := pairs[i].0, pairs[i].1;
      var inValue := group.id;
      ConnectsSnoc(pairs, byID, i);
      MappedSnoc(pairs, i);
      HasKeySnoc(rows, group, GroupID);
      ghost var before := nids;
      if inValue !in nids {
        rows := rows + [group];
        nids := nids[inValue := {byID[outValue]}];
      } else {
        nids := nids[inValue := nids[inValue] + {byID[outValue]}];
      }
      assert forall k, a :: Listed(nids, a, k) <==> Listed(before, a, k) || (k == inValue && a == byID[outValue]);
    }
    assert pairs[..|pairs|] == pairs;
  }

  lemma MappedSnoc(pairs: seq<(int, GroupRow)>, i: nat)
    requires i < |pairs|
    ensures var s := Mapped(pairs[..i + 1], Second);
            s != [] && s[..|s| - 1] == Mapped(pairs[..i], Second) && s[|s| - 1] == pairs[i].1
  {}

  lemma ConnectsSnoc(pairs: seq<(int, GroupRow)>, byID: map<int, AccountNode>, i: nat)
    requires i < |pairs| && pairs[i].0 in byID
    ensures forall a, k :: Connects(pairs[..i + 1], byID, a, k) <==>
              Connects(pairs[..i], byID, a, k) || (byID[pairs[i].0] == a && pairs[i].1.id == k)
  {
    var s, t := pairs[..i], pairs[..i + 1];
    assert t == s + [pairs[i]] && t[i] == pairs[i];
    forall a, k | Connects(s, byID, a, k) ensures Connects(t, byID, a, k) {
      var j :| 0 <= j < |s| && s[j].0 in byID && byID[s[j].0] == a && s[j].1.id == k;
      assert t[j] == s[j];
    }
  }

  method NewGroups(rows: seq<GroupRow>, columns: set<string>) returns (nodes: seq<Group>)
    ensures |nodes| == |rows|
    ensures forall i :: 0 <= i < |nodes| ==> fresh(nodes[i]) && nodes[i].row == DecodeGroup(rows[i], columns)
  {
    nodes := [];
    for i := 0 to |rows|
      invariant |nodes| == i
      invariant forall j :: 0 <= j < i ==> fresh(nodes[j]) && nodes[j].row == DecodeGroup(rows[j], columns)
    {
      var node := new Group(DecodeGroup(rows[i], columns));
      nodes := nodes + [node];
    }
  }

  method NewProxies(rows: seq<ProxyRow>, columns: set<string>) returns (nodes: seq<Proxy>)
    ensures |nodes| == |rows|
    ensures forall i :: 0 <= i < |nodes| ==> fresh(nodes[i]) && nodes[i].row == DecodeProxy(rows[i], columns)
  {
    nodes := [];
    for i := 0 to |rows|
      invariant |nodes| == i
      invariant forall j :: 0 <= j < i ==> fresh(nodes[j]) && nodes[j].row == DecodeProxy(rows[j], columns)
    {
      var node := new Proxy(DecodeProxy(rows[i], columns));
      nodes := nodes + [node];
    }
  }

  method NewUsageLogs(rows: seq<UsageLogRow>, columns: set<string>) returns (nodes: seq<UsageLog>)
    ensures |nodes| == |rows|
    ensures forall i :: 0 <= i < |nodes| ==> fresh(nodes[i]) && nodes[i].row == DecodeUsageLog(rows[i], columns)
  {
    nodes := [];
    for i := 0 to |rows|
      invariant |nodes| == i
      invariant forall j :: 0 <= j < i ==> fresh(nodes[j]) && nodes[j].row == DecodeUsageLog(rows[j], columns)
    {
      var node := new UsageLog(DecodeUsageLog(rows[i], columns));
      nodes := nodes + [node];
    }
  }

  function BelongsTo(nids: map<int, set<AccountNode>>, a: AccountNode): Group -> bool {
    (g: Group) => Listed(nids, a, g.row.id)
  }

  /** Each fetched group is appended to every account collected for it, the accounts in any order. An
      account ends up with its groups in the order in which they were fetched. */
  method AttachGroups(parents: seq<AccountNode>, neighbors: seq<Group>, nids: map<int, set<AccountNode>>)
      returns (err: Option<QueryError>)
    requires forall k <- nids, a <- nids[k] :: a in parents
    modifies parents`groups
    ensures err.Some? <==> exists n <- neighbors :: n.row.id !in nids
    ensures err.None? ==> forall a <- parents :: a.groups == old(a.groups) + Keep(neighbors, BelongsTo(nids, a))
  {
    for i := 0 to |neighbors|
      invariant forall n <- neighbors[..i] :: n.row.id in nids
      invariant forall a <- parents :: a.groups == old(a.groups) + Keep(neighbors[..i], BelongsTo(nids, a))
    {
      var n := neighbors[i];
      assert neighbors[..i + 1] == neighbors[..i] + [n];
      if n.row.id !in nids {
        return Some(UnexpectedNode("groups", n.row.id));
      }
      forall a <- parents {
        KeepSnoc(neighbors, i, BelongsTo(nids, a));
      }
      AppendToAll(parents, nids[n.row.id], n);
    }
    assert neighbors[..|neighbors|] == neighbors;
    err := None;
  }

  method AppendToAll(parents: seq<AccountNode>, members: set<AccountNode>, n: Group)
    requires forall a <- members :: a in parents
    modifies parents`groups
    ensures forall a <- parents :: a.groups == old(a.groups) + if a in members then [n] else []
  {
    var rest := members;
    while rest != {}
      invariant rest <= members
      invariant forall a <- parents :: a.groups == old(a.groups) + if a in members - rest then [n] else []
      decreases rest
    {
      var kn :| kn in rest;
      kn.groups := kn.groups + [n];
      rest := rest - {kn};
    }
  }

  // ----- many to one -----

  function IsProxy(k: int): Proxy -> bool {
    (p: Proxy) => p.row.id == k
  }

  /** The edge of a node with this key after all fetched nodes were assigned: the last one with the key. */
  function ProxyFor(neighbors: seq<Proxy>, key: Option<int>): Proxy? {
    if key.None? then null
    else
      var last := Last(neighbors, IsProxy(key.value));
      if last.None? then null else last.value
  }

  /** Each fetched proxy is assigned to the accounts of its bucket. */
  method AttachProxies(parents: seq<AccountNode>, neighbors: seq<Proxy>, buckets: map<int, seq<AccountNode>>)
      returns (err: Option<QueryError>)
    requires forall k <- buckets :: buckets[k] == WithKey(parents, Mapped(parents, ProxyKey), k)
    requires forall a <- parents :: a.proxy == null
    modifies parents`proxy
    ensures err.Some? <==> exists n <- neighbors :: n.row.id !in buckets
    ensures err.None? ==> forall a <- parents :: a.proxy == ProxyFor(neighbors, a.row.proxyID)
  {
    for i := 0 to |neighbors|
      invariant forall n <- neighbors[..i] :: n.row.id in buckets
      invariant forall a <- parents :: a.proxy == ProxyFor(neighbors[..i], a.row.proxyID)
    {
      var n := neighbors[i];
      assert neighbors[..i + 1] == neighbors[..i] + [n];
      if n.row.id !in buckets {
        return Some(UnexpectedForeignKey("proxy_id", n.row.id));
      }
      var nodes := buckets[n.row.id];
      BucketHolds(parents, n.row.id);
      forall a <- parents | a.row.proxyID.Some? {
        LastSnoc(neighbors, i, IsProxy(a.row.proxyID.value));
      }
      AssignProxy(parents, nodes, n);
    }
    assert neighbors[..|neighbors|] == neighbors;
    err := None;
  }

  lemma BucketHolds(parents: seq<AccountNode>, k: int)
    ensures forall a :: a in WithKey(parents, Mapped(parents, ProxyKey), k) <==>
            a in parents && a.row.proxyID == Some(k)
  {
    forall a: AccountNode
      ensures a in WithKey(parents, Mapped(parents, ProxyKey), k) <==> a in parents && a.row.proxyID == Some(k)
    {
      WithKeyIn(parents, Mapped(parents, ProxyKey), k, a);
    }
  }

  method AssignProxy(parents: seq<AccountNode>, nodes: seq<AccountNode>, n: Proxy)
    requires forall a <- nodes :: a in parents
    modifies parents`proxy
    ensures forall a <- parents :: a.proxy == if a in nodes then n else old(a.proxy)
  {
    for i := 0 to |nodes|
      invariant forall a <- parents :: a.proxy == if a in nodes[..i] then n else old(a.proxy)
    {
      assert nodes[..i + 1] == nodes[..i] + [nodes[i]] && nodes[i] in nodes;
      nodes[i].proxy := n;
    }
    assert nodes[..|nodes|] == nodes;
  }

  // ----- one to many -----

  function LogOf(id: int): UsageLog -> bool {
    (l: UsageLog) => l.row.accountID == id
  }

  /** Each fetched child is appended to the parent with its foreign key. */
  method AttachUsageLogs(parents: seq<AccountNode>, neighbors: seq<UsageLog>, byID: map<int, AccountNode>)
      returns (err: Option<QueryError>)
    requires forall k <- byID :: byID[k] in parents && byID[k].row.id == k
    requires forall a <- parents :: a.row.id in byID && byID[a.row.id] == a
    modifies parents`usageLogs
    ensures err.Some? <==> exists n <- neighbors :: n.row.accountID !in byID
    ensures err.None? ==> forall a <- parents :: a.usageLogs == old(a.usageLogs) + Keep(neighbors, LogOf(a.row.id))
  {
    for i := 0 to |neighbors|
      invariant forall n <- neighbors[..i] :: n.row.accountID in byID
      invariant forall a <- parents :: a.usageLogs == old(a.usageLogs) + Keep(neighbors[..i], LogOf(a.row.id))
    {
      var n := neighbors[i];
      assert neighbors[..i + 1] == neighbors[..i] + [n];
      if n.row.accountID !in byID {
        return Some(UnexpectedForeignKey("account_id", n.row.accountID));
      }
      var node := byID[n.row.accountID];
      forall a <- parents {
        KeepSnoc(neighbors, i, LogOf(a.row.id));
      }
      node.usageLogs := node.usageLogs + [n];
    }
    assert neighbors[..|neighbors|] == neighbors;
    err := None;
  }

  function RowOf(id: int): AccountGroup -> bool {
    (ag: AccountGroup) => ag.row.accountID == id
  }

  method AttachAccountGroups(parents: seq<AccountNode>, neighbors: seq<AccountGroup>, byID: map<int, AccountNode>)
      returns (err: Option<QueryError>)
    requires forall k <- byID :: byID[k] in parents && byID[k].row.id == k
    requires forall a <- parents :: a.row.id in byID && byID[a.row.id] == a
    modifies parents`accountGroups
    ensures err.Some? <==> exists n <- neighbors :: n.row.accountID !in byID
    ensures err.None? ==>
              forall a <- parents :: a.accountGroups == old(a.accountGroups) + Keep(neighbors, RowOf(a.row.id))
  {
    for i := 0 to |neighbors|
      invariant forall n <- neighbors[..i] :: n.row.accountID in byID
      invariant forall a <- parents :: a.accountGroups == old(a.accountGroups) + Keep(neighbors[..i], RowOf(a.row.id))
    {
      var n := neighbors[i];
      assert neighbors[..i + 1] == neighbors[..i] + [n];
      if n.row.accountID !in byID {
        return Some(UnexpectedForeignKey("account_id", n.row.accountID));
      }
      var node := byID[n.row.accountID];
      forall a <- parents {
        KeepSnoc(neighbors, i, RowOf(a.row.id));
      }
      node.accountGroups := node.accountGroups + [n];
    }
    assert neighbors[..|neighbors|] == neighbors;
    err := None;
  }

  // ----- many to one, from the join entity to its group -----

  function JoinKey(ag: AccountGroup): Option<int> { Some(ag.row.groupID) }

  function IsGroup(k: int): Group -> bool {
    (g: Group) => g.row.id == k
  }

  function GroupFor(neighbors: seq<Group>, key: int): Group? {
    var last := Last(neighbors, IsGroup(key));
    if last.None? then null else last.value
  }

  method NewAccountGroups(rows: seq<AccountGroupRow>, columns: set<string>, groupLoaded: bool)
      returns (nodes: seq<AccountGroup>)
    ensures |nodes| == |rows|
    ensures forall i :: 0 <= i < |nodes| ==>
              && fresh(nodes[i]) && nodes[i].row == DecodeAccountGroup(rows[i], columns)
              && nodes[i].groupLoaded == groupLoaded && nodes[i].group == null
  {
    nodes := [];
    for i := 0 to |rows|
      invariant |nodes| == i
      invariant forall j :: 0 <= j < i ==>
                  && fresh(nodes[j]) && nodes[j].row == DecodeAccountGroup(rows[j], columns)
                  && nodes[j].groupLoaded == groupLoaded && nodes[j].group == null
    {
      var node := new AccountGroup(DecodeAccountGroup(rows[i], columns), groupLoaded);
      nodes := nodes + [node];
    }
  }

  /** Each fetched group is assigned to the join nodes of its bucket. */
  method AttachGroup(parents: seq<AccountGroup>, neighbors: seq<Group>, buckets: map<int, seq<AccountGroup>>)
      returns (err: Option<QueryError>)
    requires forall k <- buckets :: buckets[k] == WithKey(parents, Mapped(parents, JoinKey), k)
    requires forall ag <- parents :: ag.group == null
    modifies parents`group
    ensures err.Some? <==> exists n <- neighbors :: n.row.id !in buckets
    ensures err.None? ==> forall ag <- parents :: ag.group == GroupFor(neighbors, ag.row.groupID)
  {
    for i := 0 to |neighbors|
      invariant forall n <- neighbors[..i] :: n.row.id in buckets
      invariant forall ag <- parents :: ag.group == GroupFor(neighbors[..i], ag.row.groupID)
    {
      var n := neighbors[i];
      assert neighbors[..i + 1] == neighbors[..i] + [n];
      if n.row.id !in buckets {
        return Some(UnexpectedForeignKey("group_id", n.row.id));
      }
      var nodes := buckets[n.row.id];
      JoinBucketHolds(parents, n.row.id);
      forall ag <- parents {
        LastSnoc(neighbors, i, IsGroup(ag.row.groupID));
      }
      AssignGroup(parents, nodes, n);
    }
    assert neighbors[..|neighbors|] == neighbors;
    err := None;
  }

  lemma JoinBucketHolds(parents: seq<AccountGroup>, k: int)
    ensures forall ag :: ag in WithKey(parents, Mapped(parents, JoinKey), k) <==> ag in parents && ag.row.groupID == k
  {
    forall ag: AccountGroup
      ensures ag in WithKey(parents, Mapped(parents, JoinKey), k) <==> ag in parents && ag.row.groupID == k
    {
      WithKeyIn(parents, Mapped(parents, JoinKey), k, ag);
    }
  }

  method AssignGroup(parents: seq<AccountGroup>, nodes: seq<AccountGroup>, n: Group)
    requires forall ag <- nodes :: ag in parents
    modifies parents`group
    ensures forall ag <- parents :: ag.group == if ag in nodes then n else old(ag.group)
  {
    for i := 0 to |nodes|
      invariant forall ag <- parents :: ag.group == if ag in nodes[..i] then n else old(ag.group)
    {
      assert nodes[..i + 1] == nodes[..i] + [nodes[i]] && nodes[i] in nodes;
      nodes[i].group := n;
    }
    assert nodes[..|nodes|] == nodes;
  }
}
