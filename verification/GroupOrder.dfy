/** In which order the groups of an account come, and which of them a page leaves: the one query that loads
    them for all accounts goes through the join table. */
module GroupOrder {
  import opened Rows
  import opened Joins
  import opened Orders
  import opened Selections
  import opened EagerLoading
  import opened AccountQueries
  import opened ManyToOne
  import opened ManyToMany
  import opened Fields

  /** A row of the join table and a row of the groups table, by their positions. */
  datatype Link = Link(join: nat, group: nat)

  predicate InTables(db: Database, x: Link) {
    x.join < |db.accountGroups.rows| && x.group < |db.groups.rows|
  }

  function Account(db: Database, x: Link): int
    requires InTables(db, x)
  {
    db.accountGroups.rows[x.join].accountID
  }

  function GroupAt(db: Database, x: Link): GroupRow
    requires InTables(db, x)
  {
    db.groups.rows[x.group]
  }

  /** The join row connects one of the accounts to the group. */
  predicate Connects(db: Database, ids: seq<int>, x: Link)
    requires InTables(db, x)
  {
    Account(db, x) in ids && db.accountGroups.rows[x.join].groupID == GroupAt(db, x).id
  }

  predicate Earlier(x: Link, y: Link) {
    x.join < y.join || (x.join == y.join && x.group < y.group)
  }

  /** By the order of the query, and tied ones as they are in the tables. */
  predicate LinkPrecedes(db: Database, before: (GroupRow, GroupRow) -> bool, x: Link, y: Link)
    requires InTables(db, x) && InTables(db, y)
  {
    before(GroupAt(db, x), GroupAt(db, y)) || (!before(GroupAt(db, y), GroupAt(db, x)) && Earlier(x, y))
  }

  /** All links of the accounts to groups that the conditions accept, each once, in the order. */
  ghost predicate AreLinks(db: Database, s: Selection<GroupRow>, ids: seq<int>, links: seq<Link>) {
    && (forall k :: 0 <= k < |links| ==> InTables(db, links[k]))
    && (forall x: Link :: InTables(db, x) ==>
          (x in links <==> Connects(db, ids, x) && forall p <- s.predicates :: p(GroupAt(db, x))))
    && forall k, l :: 0 <= k < l < |links| ==> LinkPrecedes(db, s.before, links[k], links[l])
  }

  // ----- the joined rows -----

  function LinksFrom(db: Database, ids: seq<int>, n: nat, m: nat): (r: seq<Link>)
    requires n < |db.accountGroups.rows| && m <= |db.groups.rows|
    ensures forall k :: 0 <= k < |r| ==> InTables(db, r[k]) && r[k].join == n && r[k].group >= m
    ensures forall k, l :: 0 <= k < l < |r| ==> Earlier(r[k], r[l])
    decreases |db.groups.rows| - m
  {
    if m == |db.groups.rows| then []
    else if Connects(db, ids, Link(n, m)) then [Link(n, m)] + LinksFrom(db, ids, n, m + 1)
    else LinksFrom(db, ids, n, m + 1)
  }

  function AllLinks(db: Database, ids: seq<int>, n: nat): (r: seq<Link>)
    requires n <= |db.accountGroups.rows|
    ensures forall k :: 0 <= k < |r| ==> InTables(db, r[k]) && r[k].join >= n
    ensures forall k, l :: 0 <= k < l < |r| ==> Earlier(r[k], r[l])
    decreases |db.accountGroups.rows| - n
  {
    if n == |db.accountGroups.rows| then [] else LinksFrom(db, ids, n, 0) + AllLinks(db, ids, n + 1)
  }

  function PairOf(db: Database, x: Link): (int, GroupRow)
    requires InTables(db, x)
  {
    (Account(db, x), GroupAt(db, x))
  }

  function PairsAt(db: Database, links: seq<Link>): (r: seq<(int, GroupRow)>)
    requires forall k :: 0 <= k < |links| ==> InTables(db, links[k])
    ensures |r| == |links| && forall k :: 0 <= k < |links| ==> r[k] == PairOf(db, links[k])
  {
    seq(|links|, k requires 0 <= k < |links| => PairOf(db, links[k]))
  }

  lemma PairsAtCons(db: Database, x: Link, links: seq<Link>)
    requires InTables(db, x) && forall k :: 0 <= k < |links| ==> InTables(db, links[k])
    ensures PairsAt(db, [x] + links) == [PairOf(db, x)] + PairsAt(db, links)
  {}

  lemma {:induction false} LinkedFrom(db: Database, ids: seq<int>, n: nat, m: nat)
    requires n < |db.accountGroups.rows| && m <= |db.groups.rows|
    ensures PairsAt(db, LinksFrom(db, ids, n, m)) ==
            if db.accountGroups.rows[n].accountID in ids then PairsOf(db.accountGroups.rows[n], db.groups.rows[m..])
            else []
    decreases |db.groups.rows| - m
  {
    if m < |db.groups.rows| {
      var j, gs := db.accountGroups.rows[n], db.groups.rows[m..];
      LinkedFrom(db, ids, n, m + 1);
      assert gs[1..] == db.groups.rows[m + 1..] && gs[0] == db.groups.rows[m];
      var rest := PairsOf(j, gs[1..]);
      assert PairsOf(j, gs) == if gs[0].id == j.groupID then [(j.accountID, gs[0])] + rest else [] + rest;
      assert [] + rest == rest;
      PairsAtCons(db, Link(n, m), LinksFrom(db, ids, n, m + 1));
    }
  }

  lemma PairsAtConcat(db: Database, a: seq<Link>, b: seq<Link>)
    requires forall k :: 0 <= k < |a| ==> InTables(db, a[k])
    requires forall k :: 0 <= k < |b| ==> InTables(db, b[k])
    ensures PairsAt(db, a + b) == PairsAt(db, a) + PairsAt(db, b)
  {}

  lemma {:induction false} LinkedRows(db: Database, ids: seq<int>, n: nat)
    requires n <= |db.accountGroups.rows|
    ensures PairsAt(db, AllLinks(db, ids, n)) == JoinRows(db.accountGroups.rows[n..], db.groups.rows, ids)
    decreases |db.accountGroups.rows| - n
  {
    if n < |db.accountGroups.rows| {
      LinkedRows(db, ids, n + 1);
      LinkedFrom(db, ids, n, 0);
      assert db.groups.rows[0..] == db.groups.rows;
      var js := db.accountGroups.rows[n..];
      assert js[1..] == db.accountGroups.rows[n + 1..] && js[0] == db.accountGroups.rows[n];
      PairsAtConcat(db, LinksFrom(db, ids, n, 0), AllLinks(db, ids, n + 1));
    }
  }

  lemma {:induction false} LinkInFrom(db: Database, ids: seq<int>, n: nat, m: nat, x: Link)
    requires n < |db.accountGroups.rows| && m <= |db.groups.rows|
    requires InTables(db, x) && x.join == n && x.group >= m
    ensures x in LinksFrom(db, ids, n, m) <==> Connects(db, ids, x)
    decreases |db.groups.rows| - m
  {
    if m < x.group {
      LinkInFrom(db, ids, n, m + 1, x);
    } else {
      assert x == Link(n, m);
    }
  }

  lemma {:induction false} LinkInAll(db: Database, ids: seq<int>, n: nat, x: Link)
    requires n <= x.join && InTables(db, x)
    ensures x in AllLinks(db, ids, n) <==> Connects(db, ids, x)
    decreases x.join - n
  {
    if n < x.join {
      LinkInAll(db, ids, n + 1, x);
    } else {
      LinkInFrom(db, ids, n, 0, x);
    }
  }

  // ----- ordered and paged -----

  lemma LiftedOrder(s: Selection<GroupRow>)
    requires WeakOrder(s.before)
    ensures WeakOrder(Lift(s).before)
  {
    var lifted := Lift(s).before;
    forall a, b | lifted(a, b) ensures !lifted(b, a) {
      assert s.before(a.1, b.1);
    }
    forall a, b, c | lifted(a, b) ensures lifted(a, c) || lifted(c, b) {
      assert s.before(a.1, b.1) ==> s.before(a.1, c.1) || s.before(c.1, b.1);
    }
  }

  lemma LiftedConditions(s: Selection<GroupRow>, p: (int, GroupRow))
    ensures (forall f <- Lift(s).predicates :: f(p)) <==> forall f <- s.predicates :: f(p.1)
  {
    var lifted := Lift(s).predicates;
    forall i | 0 <= i < |lifted| ensures lifted[i] in lifted && s.predicates[i] in s.predicates {}
    if forall f <- lifted :: f(p) {
      forall f <- s.predicates ensures f(p.1) {
        var i :| 0 <= i < |s.predicates| && s.predicates[i] == f;
        assert lifted[i](p);
      }
    }
    if forall f <- s.predicates :: f(p.1) {
      forall f <- lifted ensures f(p) {
        var i :| 0 <= i < |lifted| && lifted[i] == f;
        assert s.predicates[i](p.1);
      }
    }
  }

  function LinksAt(all: seq<Link>, at: seq<nat>): (r: seq<Link>)
    requires forall k :: 0 <= k < |at| ==> at[k] < |all|
    ensures |r| == |at| && forall k :: 0 <= k < |at| ==> r[k] == all[at[k]]
  {
    seq(|at|, k requires 0 <= k < |at| => all[at[k]])
  }

  /** The fetched rows are those of the links from the offset on, up to the limit, for all accounts
      together. */
  ghost predicate ArePage(db: Database, s: Selection<GroupRow>, pairs: seq<(int, GroupRow)>, links: seq<Link>) {
    var first := Least(s.offset, |links|);
    && |pairs| == PageEnd(|links|, s.offset, s.limit) - first
    && forall k :: 0 <= k < |pairs| ==> InTables(db, links[first + k]) && pairs[k] == PairOf(db, links[first + k])
  }

  lemma FetchedLinks(db: Database, s: Selection<GroupRow>, ids: seq<int>) returns (links: seq<Link>)
    requires WeakOrder(s.before)
    ensures AreLinks(db, s, ids, links)
    ensures ArePage(db, s, GroupPairs(db, s, ids), links)
  {
    var all := AllLinks(db, ids, 0);
    LinkedRows(db, ids, 0);
    assert db.accountGroups.rows[0..] == db.accountGroups.rows;
    LiftedOrder(s);
    var at := SelectedIs(PairsAt(db, all), Lift(s));
    links := LinksAt(all, at);
    LinksAreSelected(db, s, ids, all, at);
    PageOfLinks(db, s, all, at, GroupPairs(db, s, ids));
  }

  lemma PageOfLinks(db: Database, s: Selection<GroupRow>, all: seq<Link>, at: seq<nat>, pairs: seq<(int, GroupRow)>)
    requires forall k :: 0 <= k < |all| ==> InTables(db, all[k])
    requires forall k :: 0 <= k < |at| ==> at[k] < |all|
    requires IsPage(pairs, PairsAt(db, all), at, s.offset, s.limit)
    ensures ArePage(db, s, pairs, LinksAt(all, at))
  {}

  lemma LinksAreSelected(db: Database, s: Selection<GroupRow>, ids: seq<int>, all: seq<Link>, at: seq<nat>)
    requires all == AllLinks(db, ids, 0)
    requires AreSelected(PairsAt(db, all), Lift(s).predicates, Lift(s).before, at)
    ensures AreLinks(db, s, ids, LinksAt(all, at))
  {
    forall x: Link | InTables(db, x)
      ensures x in LinksAt(all, at) <==> Connects(db, ids, x) && forall p <- s.predicates :: p(GroupAt(db, x))
    {
      LinkSelected(db, s, ids, all, PairsAt(db, all), at, x);
    }
    LinksInOrder(db, s, all, PairsAt(db, all), at);
  }

  lemma LinkSelected(db: Database, s: Selection<GroupRow>, ids: seq<int>, all: seq<Link>,
                     joined: seq<(int, GroupRow)>, at: seq<nat>, x: Link)
    requires InTables(db, x) && all == AllLinks(db, ids, 0) && joined == PairsAt(db, all)
    requires AreSelected(joined, Lift(s).predicates, Lift(s).before, at)
    ensures x in LinksAt(all, at) <==> Connects(db, ids, x) && forall p <- s.predicates :: p(GroupAt(db, x))
  {
    LinkInAll(db, ids, 0, x);
    if x in all {
      var i :| 0 <= i < |all| && all[i] == x;
      LiftedConditions(s, joined[i]);
      LinkOnce(all, at, i);
    } else {
      assert forall k :: 0 <= k < |at| ==> LinksAt(all, at)[k] in all;
    }
  }

  lemma LinksInOrder(db: Database, s: Selection<GroupRow>, all: seq<Link>, joined: seq<(int, GroupRow)>, at: seq<nat>)
    requires forall k :: 0 <= k < |all| ==> InTables(db, all[k])
    requires forall k, l :: 0 <= k < l < |all| ==> Earlier(all[k], all[l])
    requires joined == PairsAt(db, all) && forall k :: 0 <= k < |at| ==> at[k] < |all|
    requires forall k, l :: 0 <= k < l < |at| ==> Precedes(joined, Lift(s).before, at[k], at[l])
    ensures var links := LinksAt(all, at);
            forall k, l :: 0 <= k < l < |links| ==> LinkPrecedes(db, s.before, links[k], links[l])
  {
    var links := LinksAt(all, at);
    forall k, l | 0 <= k < l < |links| ensures LinkPrecedes(db, s.before, links[k], links[l]) {
      assert Precedes(joined, Lift(s).before, at[k], at[l]);
      assert joined[at[k]] == PairOf(db, links[k]) && joined[at[l]] == PairOf(db, links[l]);
    }
  }

  lemma LinkOnce(all: seq<Link>, at: seq<nat>, i: nat)
    requires forall k, l :: 0 <= k < l < |all| ==> Earlier(all[k], all[l])
    requires i < |all| && forall k :: 0 <= k < |at| ==> at[k] < |all|
    ensures all[i] in LinksAt(all, at) <==> i in at
  {
    var links := LinksAt(all, at);
    if all[i] in links {
      var k :| 0 <= k < |links| && links[k] == all[i];
      assert at[k] == i;
    }
    if i in at {
      var k :| 0 <= k < |at| && at[k] == i;
      assert links[k] == all[i];
    }
  }

  // ----- the groups of an account -----

  lemma {:induction false} FirstOfEachAt<T>(s: seq<T>, key: T -> int, x: T)
    requires x in FirstOfEach(s, key)
    ensures HasKey(s, key, key(x)) && FirstAt(s, key, key(x)) < |s| && x == s[FirstAt(s, key, key(x))]
    decreases |s|
  {
    var t := s[..|s| - 1];
    FirstOfEachIs(s, key);
    FirstOfEachIs(t, key);
    var n :| 0 <= n < |s| && s[n] == x;
    assert key(s[n]) == key(x);
    FirstAtIs(s, key, key(x));
    if x in FirstOfEach(t, key) {
      FirstOfEachAt(t, key, x);
      FirstAtIs(t, key, key(x));
    }
  }

  /** The group of an account and where it first occurs among the fetched rows. */
  lemma FetchedAt(db: Database, s: Selection<GroupRow>, columns: set<string>, nodes: seq<AccountNode>,
                  groups: seq<Group>, a: AccountNode, x: Group) returns (n: nat)
    requires GroupsLoaded(db, s, columns, nodes, groups) && "id" in columns && a in nodes && x in a.groups
    ensures var rows := Mapped(GroupPairs(db, s, Mapped(nodes, AccountID)), Second);
            && HasKey(rows, GroupID, x.row.id) && n == FirstAt(rows, GroupID, x.row.id) && n < |rows|
            && GroupRead(x.row, rows[n], columns)
            && forall l :: 0 <= l < n ==> rows[l].id != x.row.id
  {
    var pairs := GroupPairs(db, s, Mapped(nodes, AccountID));
    var rows := Mapped(pairs, Second);
    var first := FirstOfEach(rows, GroupID);
    KeepIn(groups, NodeJoinedTo(pairs, a.row.id), x);
    var i :| 0 <= i < |groups| && groups[i] == x;
    assert first[i] in first;
    FirstOfEachAt(rows, GroupID, first[i]);
    n := FirstAt(rows, GroupID, x.row.id);
    FirstAtIs(rows, GroupID, x.row.id);
    forall l | 0 <= l < n ensures rows[l].id != x.row.id {
      assert GroupID(rows[l]) != x.row.id;
    }
  }

  lemma LinkOfRow(db: Database, s: Selection<GroupRow>, pairs: seq<(int, GroupRow)>, links: seq<Link>, n: nat)
    requires ArePage(db, s, pairs, links) && n < |pairs|
    ensures var k := Least(s.offset, |links|) + n;
            k < |links| && InTables(db, links[k]) && GroupAt(db, links[k]) == pairs[n].1
  {
    var first := Least(s.offset, |links|);
    var p := pairs[n];
    assert p == PairOf(db, links[first + n]);
  }

  lemma RowsInOrder(db: Database, s: Selection<GroupRow>, ids: seq<int>, n: nat, m: nat)
    requires WeakOrder(s.before) && n < m < |GroupPairs(db, s, ids)|
    ensures var g, h := GroupPairs(db, s, ids)[n].1, GroupPairs(db, s, ids)[m].1;
            g in db.groups.rows && h in db.groups.rows && !s.before(h, g)
  {
    var pairs := GroupPairs(db, s, ids);
    var links := FetchedLinks(db, s, ids);
    LinkOfRow(db, s, pairs, links, n);
    LinkOfRow(db, s, pairs, links, m);
    var first := Least(s.offset, |links|);
    assert LinkPrecedes(db, s.before, links[first + n], links[first + m]);
  }

  /** The groups of an account come in the order of the query: a later one does not come before an earlier
      one, whatever the page. */
  lemma GroupsFollowTheOrder(db: Database, s: Selection<GroupRow>, columns: set<string>, nodes: seq<AccountNode>,
                             groups: seq<Group>, a: AccountNode, i: nat, j: nat)
    requires GroupsLoaded(db, s, columns, nodes, groups) && "id" in columns && a in nodes
    requires WeakOrder(s.before) && i < j < |a.groups|
    ensures exists g <- db.groups.rows, h <- db.groups.rows ::
              GroupRead(a.groups[i].row, g, columns) && GroupRead(a.groups[j].row, h, columns) && !s.before(h, g)
  {
    var n, m := GroupsApart(db, s, columns, nodes, groups, a, i, j);
    RowsInOrder(db, s, Mapped(nodes, AccountID), n, m);
  }

  /** Two groups of an account first occur one after the other. */
  lemma GroupsApart(db: Database, s: Selection<GroupRow>, columns: set<string>, nodes: seq<AccountNode>,
                    groups: seq<Group>, a: AccountNode, i: nat, j: nat) returns (n: nat, m: nat)
    requires GroupsLoaded(db, s, columns, nodes, groups) && "id" in columns && a in nodes
    requires i < j < |a.groups|
    ensures var rows := Mapped(GroupPairs(db, s, Mapped(nodes, AccountID)), Second);
            && n < m < |rows|
            && GroupRead(a.groups[i].row, rows[n], columns) && GroupRead(a.groups[j].row, rows[m], columns)
            && forall l :: 0 <= l < m ==> rows[l].id != a.groups[j].row.id
  {
    n := FetchedAt(db, s, columns, nodes, groups, a, a.groups[i]);
    m := FetchedAt(db, s, columns, nodes, groups, a, a.groups[j]);
    GroupsOnceInOrder(db, s, columns, nodes, groups, a);
  }

  /** Some join row of one of the accounts leads to g, and no earlier one leads to h. */
  ghost predicate ReachedFirst(joins: seq<AccountGroupRow>, ids: seq<int>, g: GroupRow, h: GroupRow) {
    exists n :: 0 <= n < |joins| && joins[n].accountID in ids && joins[n].groupID == g.id &&
                forall l :: 0 <= l <= n && joins[l].accountID in ids ==> joins[l].groupID != h.id
  }

  lemma UnpagedLinks(db: Database, s: Selection<GroupRow>, ids: seq<int>) returns (links: seq<Link>)
    requires WeakOrder(s.before) && Unpaged(s)
    ensures AreLinks(db, s, ids, links) && GroupPairs(db, s, ids) == PairsAt(db, links)
  {
    links := FetchedLinks(db, s, ids);
  }

  lemma TiedRows(db: Database, s: Selection<GroupRow>, ids: seq<int>, n: nat, m: nat)
    requires WeakOrder(s.before) && Unpaged(s) && n < m < |GroupPairs(db, s, ids)|
    requires var pairs := GroupPairs(db, s, ids);
             !s.before(pairs[n].1, pairs[m].1) && forall l :: 0 <= l < m ==> pairs[l].1.id != pairs[m].1.id
    ensures ReachedFirst(db.accountGroups.rows, ids, GroupPairs(db, s, ids)[n].1, GroupPairs(db, s, ids)[m].1)
  {
    var pairs := GroupPairs(db, s, ids);
    var links := UnpagedLinks(db, s, ids);
    assert pairs[n].1 == GroupAt(db, links[n]) && pairs[m].1 == GroupAt(db, links[m]);
    forall k | 0 <= k < m ensures GroupAt(db, links[k]).id != GroupAt(db, links[m]).id {
      assert pairs[k].1 == GroupAt(db, links[k]);
    }
    TiedLinks(db, s, ids, links, n, m);
  }

  lemma TiedLinks(db: Database, s: Selection<GroupRow>, ids: seq<int>, links: seq<Link>, n: nat, m: nat)
    requires AreLinks(db, s, ids, links) && n < m < |links|
    requires !s.before(GroupAt(db, links[n]), GroupAt(db, links[m]))
    requires forall k :: 0 <= k < m ==> GroupAt(db, links[k]).id != GroupAt(db, links[m]).id
    ensures ReachedFirst(db.accountGroups.rows, ids, GroupAt(db, links[n]), GroupAt(db, links[m]))
  {
    var joins, id := db.accountGroups.rows, GroupAt(db, links[m]).id;
    assert links[n] in links;
    forall l | 0 <= l <= links[n].join && joins[l].accountID in ids ensures joins[l].groupID != id {
      if joins[l].groupID == id {
        LinkedLater(db, s, ids, links, n, m, l);
      }
    }
  }

  /** A join row that leads to the later group is not among those up to the one of the earlier group. */
  lemma LinkedLater(db: Database, s: Selection<GroupRow>, ids: seq<int>, links: seq<Link>, n: nat, m: nat, l: nat)
    requires AreLinks(db, s, ids, links) && n < m < |links| && l < |db.accountGroups.rows|
    requires !s.before(GroupAt(db, links[n]), GroupAt(db, links[m]))
    requires forall k :: 0 <= k < m ==> GroupAt(db, links[k]).id != GroupAt(db, links[m]).id
    requires db.accountGroups.rows[l].accountID in ids
    requires db.accountGroups.rows[l].groupID == GroupAt(db, links[m]).id
    ensures l > links[n].join
  {
    var z := Link(l, links[m].group);
    assert links[m] in links && links[n] in links;
    assert InTables(db, z) && Connects(db, ids, z) && GroupAt(db, z) == GroupAt(db, links[m]);
    assert z in links;
    var k :| 0 <= k < |links| && links[k] == z;
    assert LinkPrecedes(db, s.before, links[n], links[k]);
  }

  /** Without a page, groups that the order ties come as the join table reaches them for any of the
      accounts. */
  lemma TiedGroupsFollowTheJoin(db: Database, s: Selection<GroupRow>, columns: set<string>, nodes: seq<AccountNode>,
                                groups: seq<Group>, a: AccountNode, i: nat, j: nat, g: GroupRow, h: GroupRow)
    requires GroupsLoaded(db, s, columns, nodes, groups) && "id" in columns && a in nodes
    requires WeakOrder(s.before) && Unpaged(s) && DistinctBy(db.groups.rows, GroupID) && i < j < |a.groups|
    requires g in db.groups.rows && g.id == a.groups[i].row.id
    requires h in db.groups.rows && h.id == a.groups[j].row.id && !s.before(g, h)
    ensures ReachedFirst(db.accountGroups.rows, Mapped(nodes, AccountID), g, h)
  {
    var ids := Mapped(nodes, AccountID);
    var rows := Mapped(GroupPairs(db, s, ids), Second);
    var n, m := GroupsApart(db, s, columns, nodes, groups, a, i, j);
    RowsInOrder(db, s, ids, n, m);
    SameGroup(db.groups.rows, g, rows[n]);
    SameGroup(db.groups.rows, h, rows[m]);
    TiedRows(db, s, ids, n, m);
  }

  ghost predicate HasGroup(a: AccountNode, id: int)
    reads a`groups
  {
    exists x <- a.groups :: x.row.id == id
  }

  ghost predicate Reaches(db: Database, links: seq<Link>, account: int, id: int) {
    exists x <- links :: InTables(db, x) && Account(db, x) == account && GroupAt(db, x).id == id
  }

  /** What offset and limit leave: of the links of all accounts together, those of the page. An account has
      the groups that a link of the page gives it. */
  lemma GroupsOfThePage(db: Database, s: Selection<GroupRow>, columns: set<string>, nodes: seq<AccountNode>,
                        groups: seq<Group>, a: AccountNode) returns (links: seq<Link>, page: seq<Link>)
    requires GroupsLoaded(db, s, columns, nodes, groups) && "id" in columns && a in nodes && WeakOrder(s.before)
    ensures AreLinks(db, s, Mapped(nodes, AccountID), links)
    ensures var rest := if s.offset <= |links| then links[s.offset..] else [];
            page == if s.limit.Some? && s.limit.value <= |rest| then rest[..s.limit.value] else rest
    ensures forall id :: HasGroup(a, id) <==> Reaches(db, page, a.row.id, id)
  {
    var pairs := GroupPairs(db, s, Mapped(nodes, AccountID));
    links := FetchedLinks(db, s, Mapped(nodes, AccountID));
    page := links[Least(s.offset, |links|)..PageEnd(|links|, s.offset, s.limit)];
    forall id ensures HasGroup(a, id) <==> Reaches(db, page, a.row.id, id) {
      AttachedIfPaired(db, s, columns, nodes, groups, a, id);
      PairedIfReached(db, pairs, page, a.row.id, id);
    }
  }

  ghost predicate Paired(pairs: seq<(int, GroupRow)>, account: int, id: int) {
    exists k :: 0 <= k < |pairs| && pairs[k].0 == account && pairs[k].1.id == id
  }

  lemma PairedIfReached(db: Database, pairs: seq<(int, GroupRow)>, page: seq<Link>, account: int, id: int)
    requires |pairs| == |page|
    requires forall k :: 0 <= k < |page| ==> InTables(db, page[k]) && pairs[k] == PairOf(db, page[k])
    ensures Paired(pairs, account, id) <==> Reaches(db, page, account, id)
  {
    if k :| 0 <= k < |pairs| && pairs[k].0 == account && pairs[k].1.id == id {
      assert page[k] in page && Account(db, page[k]) == account && GroupAt(db, page[k]).id == id;
    }
    if x :| x in page && InTables(db, x) && Account(db, x) == account && GroupAt(db, x).id == id {
      var k :| 0 <= k < |page| && page[k] == x;
      assert pairs[k] == PairOf(db, x);
    }
  }

  lemma AttachedIfPaired(db: Database, s: Selection<GroupRow>, columns: set<string>, nodes: seq<AccountNode>,
                         groups: seq<Group>, a: AccountNode, id: int)
    requires GroupsLoaded(db, s, columns, nodes, groups) && "id" in columns && a in nodes
    ensures var pairs := GroupPairs(db, s, Mapped(nodes, AccountID));
            HasGroup(a, id) <==> Paired(pairs, a.row.id, id)
  {
    var pairs := GroupPairs(db, s, Mapped(nodes, AccountID));
    var rows := Mapped(pairs, Second);
    var first := FirstOfEach(rows, GroupID);
    if x :| x in a.groups && x.row.id == id {
      KeepIn(groups, NodeJoinedTo(pairs, a.row.id), x);
      assert JoinedTo(pairs, a.row.id)(x.row);
    }
    if k :| 0 <= k < |pairs| && pairs[k].0 == a.row.id && pairs[k].1.id == id {
      FirstOfEachIs(rows, GroupID);
      assert GroupID(rows[k]) == id && HasKey(first, GroupID, id);
      var i :| 0 <= i < |first| && GroupID(first[i]) == id;
      assert groups[i].row.id == id && JoinedTo(pairs, a.row.id)(groups[i].row);
      KeepIn(groups, NodeJoinedTo(pairs, a.row.id), groups[i]);
    }
  }
}
