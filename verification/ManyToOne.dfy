/** Many-to-one edges: the buckets partition the parents, and each parent gets the row it refers to. */
module ManyToOne {
  import opened Wrappers
  import opened Rows
  import opened Joins
  import opened EagerLoading
  import opened AccountQueries
  import opened OneToMany

  function ProxyRowID(p: ProxyRow): int { p.id }

  function Present(k: Option<int>): bool { k.Some? }

  /** The sizes of the given buckets together. */
  function Sizes<P>(ids: seq<int>, nodes: seq<P>, keys: seq<Option<int>>): nat
    requires |keys| == |nodes|
  {
    if ids == [] then 0 else |WithKey(nodes, keys, ids[0])| + Sizes(ids[1..], nodes, keys)
  }

  lemma {:induction false} SizesSnoc<P>(ids: seq<int>, nodes: seq<P>, keys: seq<Option<int>>)
    requires |keys| == |nodes| && nodes != [] && NoRepeats(ids)
    ensures var n := |nodes| - 1;
            Sizes(ids, nodes, keys) == Sizes(ids, nodes[..n], keys[..n]) +
                                       if keys[n].Some? && keys[n].value in ids then 1 else 0
  {
    if ids != [] {
      SizesSnoc(ids[1..], nodes, keys);
      assert ids == [ids[0]] + ids[1..];
    }
  }

  lemma {:induction false} SizesCover<P>(ids: seq<int>, nodes: seq<P>, keys: seq<Option<int>>)
    requires |keys| == |nodes| && NoRepeats(ids)
    requires forall k <- keys :: k.Some? ==> k.value in ids
    ensures Sizes(ids, nodes, keys) == |Keep(keys, Present)|
    decreases |nodes|
  {
    if nodes == [] {
      SizesNone(ids, nodes, keys);
    } else {
      var n := |nodes| - 1;
      assert keys[n] in keys;
      SizesSnoc(ids, nodes, keys);
      SizesCover(ids, nodes[..n], keys[..n]);
    }
  }

  lemma {:induction false} SizesNone<P>(ids: seq<int>, nodes: seq<P>, keys: seq<Option<int>>)
    requires |keys| == |nodes| && nodes == []
    ensures Sizes(ids, nodes, keys) == 0
  {
    if ids != [] {
      SizesNone(ids[1..], nodes, keys);
    }
  }

  /** The fetched identifiers are the keys that are present, each once; there are none just if every key
      is nil. The buckets hold each parent with a key under that key and no other parent, and together
      as many as there are keys. */
  lemma BucketsPartition<P>(nodes: seq<P>, keys: seq<Option<int>>)
    requires |keys| == |nodes|
    ensures var ids := DistinctKeys(keys);
            && NoRepeats(ids)
            && (forall k :: k in ids <==> Some(k) in keys)
            && (ids == [] <==> forall k <- keys :: k.None?)
            && (forall k, x :: x in WithKey(nodes, keys, k) <==>
                exists i :: 0 <= i < |nodes| && nodes[i] == x && keys[i] == Some(k))
            && Sizes(ids, nodes, keys) == |Keep(keys, Present)|
  {
    var ids := DistinctKeys(keys);
    DistinctKeysAre(keys, 0);
    forall k ensures k in ids <==> Some(k) in keys {
      DistinctKeysAre(keys, k);
    }
    forall k, x
      ensures x in WithKey(nodes, keys, k) <==> exists i :: 0 <= i < |nodes| && nodes[i] == x && keys[i] == Some(k)
    {
      WithKeyIn(nodes, keys, k, x);
    }
    if ids != [] {
      assert ids[0] in ids;
    }
    forall k <- keys | k.Some? ensures k.value in ids {
      assert k == Some(k.value);
    }
    SizesCover(ids, nodes, keys);
  }

  /** Whether the account refers to this row and the conditions of the edge query accept it. */
  predicate RefersTo(predicates: seq<ProxyRow -> bool>, a: AccountRow, p: ProxyRow) {
    a.proxyID == Some(p.id) && Satisfies(predicates, p)
  }

  /** An account has a proxy just if it refers to a row that the edge query accepts, and then that row. */
  lemma ProxyIsTheOneReferred(db: Database, s: Selection<ProxyRow>, columns: set<string>,
                              nodes: seq<AccountNode>, proxies: seq<Proxy>, a: AccountNode)
    requires ProxiesLoaded(db, s, columns, nodes, proxies) && "id" in columns && a in nodes
    requires Unpaged(s) && DistinctBy(db.proxies.rows, ProxyRowID)
    ensures a.proxy != null <==> exists p <- db.proxies.rows :: RefersTo(s.predicates, a.row, p)
    ensures forall p <- db.proxies.rows :: RefersTo(s.predicates, a.row, p) ==>
              a.proxy != null && a.proxy.row == DecodeProxy(p, columns)
  {
    if a.row.proxyID.Some? {
      var k := a.row.proxyID.value;
      var keys := Mapped(nodes, ProxyKey);
      var ids := DistinctKeys(keys);
      var i :| 0 <= i < |nodes| && nodes[i] == a;
      assert keys[i] == Some(k);
      DistinctKeysAre(keys, k);
      assert ids != [];
      ProxyFound(db, s, columns, ids, proxies, k);
    }
  }

  lemma ProxyFound(db: Database, s: Selection<ProxyRow>, columns: set<string>, ids: seq<int>,
                   proxies: seq<Proxy>, k: int)
    requires DecodesProxies(proxies, Selected(db.proxies.rows, And(s, ProxyIDIn(ids))), columns)
    requires "id" in columns && k in ids && Unpaged(s) && DistinctBy(db.proxies.rows, ProxyRowID)
    ensures var last := Last(proxies, IsProxy(k));
            && (last.Some? <==> exists p <- db.proxies.rows :: p.id == k && Satisfies(s.predicates, p))
            && forall p <- db.proxies.rows :: p.id == k && Satisfies(s.predicates, p) ==>
                 last.Some? && last.value.row == DecodeProxy(p, columns)
  {
    var rows := Selected(db.proxies.rows, And(s, ProxyIDIn(ids)));
    var last := Last(proxies, IsProxy(k));
    LastIs(proxies, IsProxy(k));
    if last.Some? {
      var j :| 0 <= j < |proxies| && proxies[j] == last.value;
      AndIn(db.proxies.rows, s, ProxyIDIn(ids), rows[j]);
      assert rows[j].id == k;
      forall p <- db.proxies.rows | p.id == k ensures p == rows[j] {
        var x :| 0 <= x < |db.proxies.rows| && db.proxies.rows[x] == p;
        var y :| 0 <= y < |db.proxies.rows| && db.proxies.rows[y] == rows[j];
        assert ProxyRowID(db.proxies.rows[x]) == ProxyRowID(db.proxies.rows[y]);
      }
    } else {
      forall p <- db.proxies.rows | p.id == k ensures !Satisfies(s.predicates, p) {
        AndIn(db.proxies.rows, s, ProxyIDIn(ids), p);
        forall j | 0 <= j < |rows| ensures rows[j] != p {
          assert proxies[j] in proxies;
        }
      }
    }
  }

  /** The same for the group of a join node. */
  lemma GroupIsTheOneReferred(db: Database, s: Selection<GroupRow>, columns: set<string>,
                              joins: seq<AccountGroup>, groups: seq<Group>, ag: AccountGroup)
    requires JoinGroupsLoaded(db, s, columns, joins, groups) && "id" in columns && ag in joins
    requires Unpaged(s) && DistinctBy(db.groups.rows, GroupID)
    ensures ag.group != null <==> exists g <- db.groups.rows :: g.id == ag.row.groupID && Satisfies(s.predicates, g)
    ensures forall g <- db.groups.rows :: g.id == ag.row.groupID && Satisfies(s.predicates, g) ==>
              ag.group != null && ag.group.row == DecodeGroup(g, columns)
  {
    var k := ag.row.groupID;
    var keys := Mapped(joins, JoinKey);
    var ids := DistinctKeys(keys);
    var i :| 0 <= i < |joins| && joins[i] == ag;
    assert keys[i] == Some(k);
    DistinctKeysAre(keys, k);
    var rows := Selected(db.groups.rows, And(s, GroupIDIn(ids)));
    var last := Last(groups, IsGroup(k));
    LastIs(groups, IsGroup(k));
    if last.Some? {
      var j :| 0 <= j < |groups| && groups[j] == last.value;
      AndIn(db.groups.rows, s, GroupIDIn(ids), rows[j]);
      assert rows[j].id == k;
      forall g <- db.groups.rows | g.id == k ensures g == rows[j] {
        SameGroup(db.groups.rows, g, rows[j]);
      }
    } else {
      forall g <- db.groups.rows | g.id == k ensures !Satisfies(s.predicates, g) {
        AndIn(db.groups.rows, s, GroupIDIn(ids), g);
        forall j | 0 <= j < |rows| ensures rows[j] != g {
          assert groups[j] in groups;
        }
      }
    }
  }

  lemma SameGroup(rows: seq<GroupRow>, g: GroupRow, h: GroupRow)
    requires DistinctBy(rows, GroupID) && g in rows && h in rows && g.id == h.id
    ensures g == h
  {
    var x :| 0 <= x < |rows| && rows[x] == g;
    var y :| 0 <= y < |rows| && rows[y] == h;
    assert GroupID(rows[x]) == GroupID(rows[y]);
  }
}
