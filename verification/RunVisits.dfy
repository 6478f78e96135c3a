/** What running an account query leaves of its edge queries is the tree that some visit of a run leaves. */
module RunVisits {
  import opened Wrappers
  import opened Rows
  import opened Joins
  import opened Queries
  import opened EagerLoading
  import opened AccountQueries
  import opened Clones

  /** How the rows of each entity are read off records. */
  datatype Reading = Reading(
    accounts: Record -> AccountRow,
    groups: Record -> GroupRow,
    proxies: Record -> ProxyRow,
    usageLogs: Record -> UsageLogRow,
    accountGroups: Record -> AccountGroupRow)

  function Accepts<Row>(p: Row -> bool, read: Record -> Row): Record -> bool {
    (x: Record) => p(read(x))
  }

  function Compares<Row>(before: (Row, Row) -> bool, read: Record -> Row): (Record, Record) -> bool {
    (x: Record, y: Record) => before(read(x), read(y))
  }

  function AllAccept<Row>(ps: seq<Row -> bool>, read: Record -> Row): (r: seq<Record -> bool>)
    ensures |r| == |ps| && forall i :: 0 <= i < |r| ==> r[i] == Accepts(ps[i], read)
  {
    seq(|ps|, i requires 0 <= i < |ps| => Accepts(ps[i], read))
  }

  function OnRecords<Row>(c: Content<Row>, read: Record -> Row): Content<Record> {
    Content(AllAccept(c.predicates, read), AllAccept(c.traversers, read), Compares(c.before, read),
            c.offset, c.limit, c.fields, c.joins, c.locks)
  }

  function AddedOnRecords<Row>(a: Added<Row>, read: Record -> Row): Added<Record> {
    Added(a.key, if a.condition.Some? then Some(Accepts(a.condition.value, read)) else None, a.owners)
  }

  lemma OnRecordsTraversed<Row>(c: Content<Row>, read: Record -> Row)
    ensures OnRecords(c.Traversed(), read) == OnRecords(c, read).Traversed()
  {
    assert AllAccept(c.predicates + c.traversers, read) ==
           AllAccept(c.predicates, read) + AllAccept(c.traversers, read);
  }

  lemma OnRecordsWith<Row>(c: Content<Row>, a: Added<Row>, read: Record -> Row)
    ensures OnRecords(c.With(a), read) == OnRecords(c, read).With(AddedOnRecords(a, read))
  {
    if a.condition.Some? {
      assert AllAccept(c.predicates + [a.condition.value], read) ==
             AllAccept(c.predicates, read) + [Accepts(a.condition.value, read)];
    } else {
      assert c.predicates + [] == c.predicates;
      assert AllAccept(c.predicates, read) + [] == AllAccept(c.predicates, read);
    }
  }

  // ----- the queries of an account query as a tree -----

  function AskTree<Row>(ask: Option<Ask<Row>>, read: Record -> Row, edges: seq<Tree>): Tree {
    if ask.None? then NoQuery else Node(OnRecords(ask.value.contents, read), edges)
  }

  function QueryTree(base: Content<AccountRow>, q: Requests, r: Reading): Tree {
    Node(OnRecords(base, r.accounts),
         [AskTree(q.groups, r.groups, []), AskTree(q.proxy, r.proxies, []), AskTree(q.usageLogs, r.usageLogs, []),
          AskTree(q.accountGroups, r.accountGroups, [AskTree(q.joinGroup, r.groups, [])])])
  }

  function LoadOf<Row>(a: Added<Row>, read: Record -> Row, inner: Visit): Load {
    Load(AddedOnRecords(a, read), inner)
  }

  /** What a run that fetched these nodes did. */
  function VisitOf(nodes: seq<AccountNode>, joins: seq<AccountGroup>, r: Reading): Visit {
    if nodes == [] then Visit([])
    else
      var ids := Mapped(nodes, AccountID);
      var proxies, groups := DistinctKeys(Mapped(nodes, ProxyKey)), DistinctKeys(Mapped(joins, JoinKey));
      var inner := if joins == [] then None else Some(LoadOf(GroupsWanted(groups), r.groups, Visit([])));
      Visit([Some(LoadOf(OwnersJoined(ids), r.groups, Visit([]))),
             if proxies == [] then None else Some(LoadOf(ProxiesWanted(proxies), r.proxies, Visit([]))),
             Some(LoadOf(LogsWanted(ids), r.usageLogs, Visit([]))),
             Some(LoadOf(JoinsWanted(ids), r.accountGroups, Visit([inner])))])
  }

  lemma LeftTree<Row>(ask: Option<Ask<Row>>, added: Added<Row>, read: Record -> Row, v: Visit, i: nat)
    requires i < |v.loads| && (v.loads[i].Some? ==> v.loads[i].value == LoadOf(added, read, Visit([])))
    ensures RunEdge(AskTree(ask, read, []), v, i) == AskTree(Left(ask, added, v.loads[i].Some?), read, [])
  {
    if ask.Some? && v.loads[i].Some? {
      OnRecordsWith(ask.value.contents, added, read);
      OnRecordsTraversed(ask.value.contents.With(added), read);
    }
  }

  lemma LeftTreeWithEdge<Row>(ask: Option<Ask<Row>>, added: Added<Row>, read: Record -> Row, edge: Tree,
                              v: Visit, i: nat)
    requires i < |v.loads| && v.loads[i].Some? && v.loads[i].value.added == AddedOnRecords(added, read)
    ensures RunEdge(AskTree(ask, read, [edge]), v, i) ==
            AskTree(Left(ask, added, true), read, [RunEdge(edge, v.loads[i].value.inner, 0)])
  {
    if ask.Some? {
      OnRecordsWith(ask.value.contents, added, read);
      OnRecordsTraversed(ask.value.contents.With(added), read);
      var load := v.loads[i].value;
      var t := Node(OnRecords(ask.value.contents, read).With(load.added), [edge]);
      assert RunTree(t, load.inner).edges == [RunEdge(edge, load.inner, 0)];
    }
  }

  lemma VisitLeavesBehind(base: Content<AccountRow>, q: Requests, nodes: seq<AccountNode>, joins: seq<AccountGroup>,
                          r: Reading)
    ensures RunTree(QueryTree(base, q, r), VisitOf(nodes, joins, r)) ==
            QueryTree(base.Traversed(), if nodes == [] then q else LeftBehind(q, nodes, joins), r)
  {
    var tree, v := QueryTree(base, q, r), VisitOf(nodes, joins, r);
    var after := QueryTree(base.Traversed(), if nodes == [] then q else LeftBehind(q, nodes, joins), r);
    OnRecordsTraversed(base, r.accounts);
    if nodes != [] {
      var ids := Mapped(nodes, AccountID);
      var proxies, groups := DistinctKeys(Mapped(nodes, ProxyKey)), DistinctKeys(Mapped(joins, JoinKey));
      LeftTree(q.groups, OwnersJoined(ids), r.groups, v, 0);
      LeftTree(q.proxy, ProxiesWanted(proxies), r.proxies, v, 1);
      LeftTree(q.usageLogs, LogsWanted(ids), r.usageLogs, v, 2);
      LeftTreeWithEdge(q.accountGroups, JoinsWanted(ids), r.accountGroups, AskTree(q.joinGroup, r.groups, []), v, 3);
      LeftTree(q.joinGroup, GroupsWanted(groups), r.groups, v.loads[3].value.inner, 0);
    }
    forall i | 0 <= i < 4 ensures RunEdge(tree.edges[i], v, i) == after.edges[i] {}
    assert RunTree(tree, v).edges == after.edges;
  }

  /** A run that succeeds leaves the queries as a visit of their tree leaves it. */
  method RunVisiting(q: AccountQuery, db: Database, ghost reading: Reading)
      returns (r: Result<seq<AccountNode>, QueryError>, ghost visit: Visit)
    requires q.Valid() && HasKeyColumns(db) && DistinctBy(db.accounts.rows, AccountRowID)
    modifies q.base`predicates,
             {q.withGroups}`predicates,
             {q.withGroups}`joins,
             {q.withProxy}`predicates,
             {q.withUsageLogs}`predicates,
             {q.withUsageLogs}`fields,
             {q.JoinBase()}`predicates,
             {q.JoinBase()}`fields,
             {q.JoinGroup()}`predicates
    ensures r.Success? ==>
              QueryTree(q.base.Contents(), q.Asks(db), reading) ==
              RunTree(old(QueryTree(q.base.Contents(), q.Asks(db), reading)), visit)
  {
    ghost var base, asks := q.base.Contents(), q.Asks(db);
    ghost var f;
    r, f := q.All(db);
    visit := Visit([]);
    if r.Success? {
      visit := VisitOf(r.value, f.accountGroups, reading);
      VisitLeavesBehind(base, asks, r.value, f.accountGroups, reading);
      assert q.base.Contents() == base.Traversed();
    }
  }
}
