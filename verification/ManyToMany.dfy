/** Many-to-many edges: the one joined query agrees with the relational join and with the way round
    through the join entity. */
module ManyToMany {
  import opened Rows
  import opened Joins
  import opened EagerLoading
  import opened AccountQueries
  import opened OneToMany
  import opened ManyToOne

  /** The relational join: a join row connects the account to the group, and the conditions accept it. */
  predicate Joined(db: Database, predicates: seq<GroupRow -> bool>, account: int, g: GroupRow) {
    && g in db.groups.rows && Satisfies(predicates, g)
    && exists j <- db.accountGroups.rows :: j.accountID == account && j.groupID == g.id
  }

  /** The groups of an account are those that are joined to it, decoded. */
  lemma GroupsAreTheJoin(db: Database, s: Selection<GroupRow>, columns: set<string>,
                         nodes: seq<AccountNode>, groups: seq<Group>, a: AccountNode, v: GroupRow)
    requires GroupsLoaded(db, s, columns, nodes, groups) && "id" in columns && a in nodes
    requires Unpaged(s) && DistinctBy(db.groups.rows, GroupID)
    ensures (exists x <- a.groups :: x.row == v) <==>
            (exists g <- db.groups.rows :: Joined(db, s.predicates, a.row.id, g) && v == DecodeGroup(g, columns))
  {
    if x :| x in a.groups && x.row == v {
      var g := AttachedIsJoined(db, s, columns, nodes, groups, a, x);
    }
    if g :| g in db.groups.rows && Joined(db, s.predicates, a.row.id, g) && v == DecodeGroup(g, columns) {
      var x := JoinedIsAttached(db, s, columns, nodes, groups, a, g);
    }
  }

  /** The fetched groups are rows of the table that the conditions accept. */
  lemma FetchedGroup(db: Database, s: Selection<GroupRow>, ids: seq<int>, g: GroupRow)
    requires g in FirstOfEach(Mapped(GroupPairs(db, s, ids), Second), GroupID)
    ensures g in db.groups.rows && Satisfies(s.predicates, g)
  {
    var pairs := GroupPairs(db, s, ids);
    FirstOfEachIs(Mapped(pairs, Second), GroupID);
    var n :| 0 <= n < |pairs| && Mapped(pairs, Second)[n] == g;
    assert pairs[n] == (pairs[n].0, g);
    GroupPairsIn(db, s, ids, pairs[n].0, g);
  }

  lemma AttachedIsJoined(db: Database, s: Selection<GroupRow>, columns: set<string>,
                         nodes: seq<AccountNode>, groups: seq<Group>, a: AccountNode, x: Group) returns (g: GroupRow)
    requires GroupsLoaded(db, s, columns, nodes, groups) && "id" in columns && a in nodes && x in a.groups
    requires DistinctBy(db.groups.rows, GroupID)
    ensures Joined(db, s.predicates, a.row.id, g) && x.row == DecodeGroup(g, columns)
  {
    var ids := Mapped(nodes, AccountID);
    var pairs := GroupPairs(db, s, ids);
    KeepIn(groups, NodeJoinedTo(pairs, a.row.id), x);
    var i :| 0 <= i < |groups| && groups[i] == x;
    g := FirstOfEach(Mapped(pairs, Second), GroupID)[i];
    FetchedGroup(db, s, ids, g);
    JoinRowOfPair(db, s, ids, a.row.id, g);
  }

  lemma JoinRowOfPair(db: Database, s: Selection<GroupRow>, ids: seq<int>, account: int, g: GroupRow)
    requires JoinedTo(GroupPairs(db, s, ids), account)(g)
    ensures exists j <- db.accountGroups.rows :: j.accountID == account && j.groupID == g.id
  {
    var pairs := GroupPairs(db, s, ids);
    var m :| 0 <= m < |pairs| && pairs[m].0 == account && pairs[m].1.id == g.id;
    assert pairs[m] == (account, pairs[m].1);
    GroupPairsIn(db, s, ids, account, pairs[m].1);
  }

  lemma JoinedIsFetched(db: Database, s: Selection<GroupRow>, ids: seq<int>, account: int, g: GroupRow) returns (i: nat)
    requires Unpaged(s) && DistinctBy(db.groups.rows, GroupID) && account in ids
    requires Joined(db, s.predicates, account, g)
    ensures var pairs := GroupPairs(db, s, ids);
            var first := FirstOfEach(Mapped(pairs, Second), GroupID);
            i < |first| && first[i] == g && JoinedTo(pairs, account)(g)
  {
    var pairs := GroupPairs(db, s, ids);
    var rows := Mapped(pairs, Second);
    var first := FirstOfEach(rows, GroupID);
    GroupPairsIn(db, s, ids, account, g);
    var n :| 0 <= n < |pairs| && pairs[n] == (account, g);
    FirstOfEachIs(rows, GroupID);
    assert GroupID(rows[n]) == g.id && HasKey(first, GroupID, g.id);
    i :| 0 <= i < |first| && GroupID(first[i]) == g.id;
    FetchedGroup(db, s, ids, first[i]);
    SameGroup(db.groups.rows, g, first[i]);
  }

  lemma JoinedIsAttached(db: Database, s: Selection<GroupRow>, columns: set<string>,
                         nodes: seq<AccountNode>, groups: seq<Group>, a: AccountNode, g: GroupRow) returns (x: Group)
    requires GroupsLoaded(db, s, columns, nodes, groups) && "id" in columns && a in nodes
    requires Unpaged(s) && DistinctBy(db.groups.rows, GroupID)
    requires Joined(db, s.predicates, a.row.id, g)
    ensures x in a.groups && x.row == DecodeGroup(g, columns)
  {
    var ids := Mapped(nodes, AccountID);
    AccountListed(nodes, a);
    var i := JoinedIsFetched(db, s, ids, a.row.id, g);
    x := groups[i];
    assert JoinedTo(GroupPairs(db, s, ids), a.row.id)(x.row);
    KeepIn(groups, NodeJoinedTo(GroupPairs(db, s, ids), a.row.id), x);
  }

  // ----- each once, shared, in order -----

  /** Where a key first occurs. */
  function FirstAt<T>(s: seq<T>, key: T -> int, k: int): nat
    requires HasKey(s, key, k)
  {
    var t := s[..|s| - 1];
    if HasKey(t, key, k) then FirstAt(t, key, k)
    else |t|
  }

  lemma {:induction false} FirstAtIs<T>(s: seq<T>, key: T -> int, k: int)
    requires HasKey(s, key, k)
    ensures FirstAt(s, key, k) < |s| && key(s[FirstAt(s, key, k)]) == k
    ensures forall j :: 0 <= j < FirstAt(s, key, k) ==> key(s[j]) != k
    decreases |s|
  {
    var t := s[..|s| - 1];
    if HasKey(t, key, k) {
      FirstAtIs(t, key, k);
    } else {
      assert forall j :: 0 <= j < |t| ==> t[j] == s[j];
    }
  }

  ghost predicate InOrderOf<T, R>(kept: seq<T>, id: T -> int, s: seq<R>, key: R -> int) {
    && (forall x <- kept :: HasKey(s, key, id(x)))
    && forall i, j :: 0 <= i < j < |kept| ==> FirstAt(s, key, id(kept[i])) < FirstAt(s, key, id(kept[j]))
  }

  lemma {:induction false} FirstOfEachInOrder<T>(s: seq<T>, key: T -> int)
    ensures InOrderOf(FirstOfEach(s, key), key, s, key)
    decreases |s|
  {
    if s != [] {
      var t := s[..|s| - 1];
      var x := s[|s| - 1];
      FirstOfEachInOrder(t, key);
      FirstOfEachIs(t, key);
      HasKeySnoc(t, x, key);
      assert s == t + [x];
      var r := FirstOfEach(t, key);
      forall i | 0 <= i < |r| ensures HasKey(t, key, key(r[i])) && FirstAt(s, key, key(r[i])) < |t| {
        assert r[i] in r;
        FirstAtIs(t, key, key(r[i]));
      }
      assert HasKey(s, key, key(x));
    }
  }

  lemma InOrderSnoc<T, R>(kept: seq<T>, x: T, id: T -> int, s: seq<R>, key: R -> int)
    requires InOrderOf(kept, id, s, key) && HasKey(s, key, id(x))
    requires forall y <- kept :: FirstAt(s, key, id(y)) < FirstAt(s, key, id(x))
    ensures InOrderOf(kept + [x], id, s, key)
  {}

  lemma {:induction false} KeepInOrder<T, R>(all: seq<T>, p: T -> bool, id: T -> int, s: seq<R>, key: R -> int)
    requires InOrderOf(all, id, s, key)
    ensures InOrderOf(Keep(all, p), id, s, key)
    decreases |all|
  {
    if all != [] {
      var init, last := all[..|all| - 1], all[|all| - 1];
      assert last in all;
      KeepInOrder(init, p, id, s, key);
      if p(last) {
        forall y <- Keep(init, p) ensures FirstAt(s, key, id(y)) < FirstAt(s, key, id(last)) {
          KeepIn(init, p, y);
        }
        InOrderSnoc(Keep(init, p), last, id, s, key);
      }
    }
  }

  function IDOfGroup(g: Group): int { g.row.id }

  /** The groups of an account are in the order in which they first appear among the joined rows, and so
      each is there once, however often its join row repeats. */
  lemma GroupsOnceInOrder(db: Database, s: Selection<GroupRow>, columns: set<string>,
                          nodes: seq<AccountNode>, groups: seq<Group>, a: AccountNode)
    requires GroupsLoaded(db, s, columns, nodes, groups) && "id" in columns && a in nodes
    ensures InOrderOf(a.groups, IDOfGroup, Mapped(GroupPairs(db, s, Mapped(nodes, AccountID)), Second), GroupID)
    ensures forall i, j :: 0 <= i < j < |a.groups| ==> a.groups[i].row.id != a.groups[j].row.id
  {
    var pairs := GroupPairs(db, s, Mapped(nodes, AccountID));
    var rows := Mapped(pairs, Second);
    var first := FirstOfEach(rows, GroupID);
    FirstOfEachInOrder(rows, GroupID);
    forall x <- groups ensures HasKey(rows, GroupID, IDOfGroup(x)) {
      var i :| 0 <= i < |groups| && groups[i] == x;
      assert first[i] in first;
    }
    forall i, j | 0 <= i < j < |groups|
      ensures FirstAt(rows, GroupID, IDOfGroup(groups[i])) < FirstAt(rows, GroupID, IDOfGroup(groups[j]))
    {
      assert GroupID(first[i]) == groups[i].row.id && GroupID(first[j]) == groups[j].row.id;
    }
    KeepInOrder(groups, NodeJoinedTo(pairs, a.row.id), IDOfGroup, rows, GroupID);
    forall i, j | 0 <= i < j < |a.groups| ensures a.groups[i].row.id != a.groups[j].row.id {
      assert FirstAt(rows, GroupID, IDOfGroup(a.groups[i])) < FirstAt(rows, GroupID, IDOfGroup(a.groups[j]));
    }
  }

  /** Accounts that have the same group have the same object. */
  lemma GroupsAreShared(db: Database, s: Selection<GroupRow>, columns: set<string>, nodes: seq<AccountNode>,
                        groups: seq<Group>, a: AccountNode, b: AccountNode, x: Group, y: Group)
    requires GroupsLoaded(db, s, columns, nodes, groups) && "id" in columns && a in nodes && b in nodes
    requires x in a.groups && y in b.groups && x.row.id == y.row.id
    ensures x == y
  {
    var pairs := GroupPairs(db, s, Mapped(nodes, AccountID));
    var first := FirstOfEach(Mapped(pairs, Second), GroupID);
    FirstOfEachIs(Mapped(pairs, Second), GroupID);
    KeepIn(groups, NodeJoinedTo(pairs, a.row.id), x);
    KeepIn(groups, NodeJoinedTo(pairs, b.row.id), y);
    var i :| 0 <= i < |groups| && groups[i] == x;
    var j :| 0 <= j < |groups| && groups[j] == y;
    assert GroupID(first[i]) == GroupID(first[j]);
  }

  // ----- the two ways to the groups of an account -----

  /** The join node of an account that a join row becomes. */
  lemma JoinNodeOf(db: Database, sj: Selection<AccountGroupRow>, cj: set<string>, nodes: seq<AccountNode>,
                   joins: seq<AccountGroup>, a: AccountNode, j: AccountGroupRow) returns (ag: AccountGroup)
    requires AccountGroupsLoaded(db, sj, cj, nodes, joins) && "account_id" in cj && "group_id" in cj && a in nodes
    requires TakesAll(sj) && j in db.accountGroups.rows && j.accountID == a.row.id
    ensures ag in a.accountGroups && ag in joins && ag.row.groupID == j.groupID
  {
    var ids := Mapped(nodes, AccountID);
    var rows := Selected(db.accountGroups.rows, And(sj, RowAccountIn(ids)));
    AccountListed(nodes, a);
    AndIn(db.accountGroups.rows, sj, RowAccountIn(ids), j);
    var i :| 0 <= i < |rows| && rows[i] == j;
    ag := joins[i];
    assert ag.row == DecodeAccountGroup(j, cj);
    KeepIn(joins, RowOf(a.row.id), ag);
  }

  /** The join row that a join node was read from. */
  lemma RowOfJoinNode(db: Database, sj: Selection<AccountGroupRow>, cj: set<string>, nodes: seq<AccountNode>,
                      joins: seq<AccountGroup>, ag: AccountGroup) returns (j: AccountGroupRow)
    requires AccountGroupsLoaded(db, sj, cj, nodes, joins) && "account_id" in cj && "group_id" in cj && ag in joins
    ensures j in db.accountGroups.rows && ag.row.accountID == j.accountID && ag.row.groupID == j.groupID
  {
    var ids := Mapped(nodes, AccountID);
    var rows := Selected(db.accountGroups.rows, And(sj, RowAccountIn(ids)));
    var i :| 0 <= i < |joins| && joins[i] == ag;
    j := rows[i];
    AndIn(db.accountGroups.rows, sj, RowAccountIn(ids), j);
    assert ag.row == DecodeAccountGroup(j, cj);
  }

  /** The groups reached through the join entity are those that are joined to the account; join rows
      whose group is missing or not accepted lead nowhere. */
  lemma TwoHopsAreTheJoin(db: Database, sj: Selection<AccountGroupRow>, cj: set<string>, s: Selection<GroupRow>,
                          columns: set<string>, nodes: seq<AccountNode>, joins: seq<AccountGroup>, groups: seq<Group>,
                          a: AccountNode, v: GroupRow)
    requires AccountGroupsLoaded(db, sj, cj, nodes, joins) && JoinGroupsLoaded(db, s, columns, joins, groups)
    requires "account_id" in cj && "group_id" in cj && "id" in columns && a in nodes
    requires TakesAll(sj) && Unpaged(s) && DistinctBy(db.groups.rows, GroupID)
    ensures (exists ag <- a.accountGroups :: ag.group != null && ag.group.row == v) <==>
            (exists g <- db.groups.rows :: Joined(db, s.predicates, a.row.id, g) && v == DecodeGroup(g, columns))
  {
    if ag :| ag in a.accountGroups && ag.group != null && ag.group.row == v {
      KeepIn(joins, RowOf(a.row.id), ag);
      var j := RowOfJoinNode(db, sj, cj, nodes, joins, ag);
      GroupIsTheOneReferred(db, s, columns, joins, groups, ag);
      var g :| g in db.groups.rows && g.id == ag.row.groupID && Satisfies(s.predicates, g);
      assert Joined(db, s.predicates, a.row.id, g);
    }
    if g :| g in db.groups.rows && Joined(db, s.predicates, a.row.id, g) && v == DecodeGroup(g, columns) {
      var j :| j in db.accountGroups.rows && j.accountID == a.row.id && j.groupID == g.id;
      var ag := JoinNodeOf(db, sj, cj, nodes, joins, a, j);
      GroupIsTheOneReferred(db, s, columns, joins, groups, ag);
    }
  }

  /** Both edges of one load lead to the same groups, whichever groups the queries accept, if both
      accept the same. */
  lemma PathsAgree(db: Database, q: Requests, nodes: seq<AccountNode>, f: Fetched, a: AccountNode, v: GroupRow)
    requires GroupsEdge(db, q, nodes, f.groups) && JoinsEdge(db, q, nodes, f.accountGroups, f.joinGroups) && a in nodes
    requires q.groups.Some? && !q.rejoined && q.accountGroups.Some? && q.joinGroup.Some?
    requires HasKeys(q) && q.groups.value.columns == q.joinGroup.value.columns
    requires Unpaged(q.groups.value.selection) && Unpaged(q.joinGroup.value.selection)
    requires TakesAll(q.accountGroups.value.selection) && DistinctBy(db.groups.rows, GroupID)
    requires forall g :: Satisfies(q.groups.value.selection.predicates, g) <==>
             Satisfies(q.joinGroup.value.selection.predicates, g)
    ensures (exists x <- a.groups :: x.row == v) <==>
            (exists ag <- a.accountGroups :: ag.group != null && ag.group.row == v)
  {
    var s, t, columns := q.groups.value.selection, q.joinGroup.value.selection, q.groups.value.columns;
    GroupsAreTheJoin(db, s, columns, nodes, f.groups, a, v);
    TwoHopsAreTheJoin(db, q.accountGroups.value.selection, q.accountGroups.value.columns, t, columns,
                      nodes, f.accountGroups, f.joinGroups, a, v);
    forall g ensures Joined(db, s.predicates, a.row.id, g) <==> Joined(db, t.predicates, a.row.id, g) {}
  }

  /** With referential integrity and no condition on the groups no join node is left without its group. */
  lemma NoJoinDangles(db: Database, q: Requests, nodes: seq<AccountNode>, f: Fetched, ag: AccountGroup)
    requires JoinsEdge(db, q, nodes, f.accountGroups, f.joinGroups) && HasKeys(q)
    requires q.accountGroups.Some? && q.joinGroup.Some?
    requires Unpaged(q.joinGroup.value.selection) && DistinctBy(db.groups.rows, GroupID)
    requires forall g :: Satisfies(q.joinGroup.value.selection.predicates, g)
    requires forall j <- db.accountGroups.rows :: exists g <- db.groups.rows :: g.id == j.groupID
    requires ag in f.accountGroups
    ensures ag.group != null && ag.group.row.id == ag.row.groupID
  {
    var sj, cj := q.accountGroups.value.selection, q.accountGroups.value.columns;
    var j := RowOfJoinNode(db, sj, cj, nodes, f.accountGroups, ag);
    var g :| g in db.groups.rows && g.id == j.groupID;
    GroupIsTheOneReferred(db, q.joinGroup.value.selection, q.joinGroup.value.columns, f.accountGroups,
                          f.joinGroups, ag);
  }

  /** Every edge query reads the keys that its loader looks at. */
  predicate HasKeys(q: Requests) {
    && (q.groups.Some? ==> "id" in q.groups.value.columns)
    && (q.proxy.Some? ==> "id" in q.proxy.value.columns)
    && (q.usageLogs.Some? ==> "id" in q.usageLogs.value.columns && "account_id" in q.usageLogs.value.columns)
    && (q.accountGroups.Some? ==> "account_id" in q.accountGroups.value.columns)
    && (q.accountGroups.Some? && q.joinGroup.Some? ==> "group_id" in q.accountGroups.value.columns)
    && (q.joinGroup.Some? ==> "id" in q.joinGroup.value.columns)
  }
}
