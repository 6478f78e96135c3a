/** The tables behind the account entities, and the joins that eager loading must agree with. */
module Joins {
  import opened Wrappers
  import opened Rows

  datatype AccountRow = AccountRow(id: int, proxyID: Option<int>, name: string)
  datatype GroupRow = GroupRow(id: int, name: string)
  datatype ProxyRow = ProxyRow(id: int, name: string)
  datatype UsageLogRow = UsageLogRow(id: int, accountID: int, model: string)
  datatype AccountGroupRow = AccountGroupRow(accountID: int, groupID: int, priority: int)

  datatype Database = Database(
    accounts: Table<AccountRow>,
    groups: Table<GroupRow>,
    proxies: Table<ProxyRow>,
    usageLogs: Table<UsageLogRow>,
    accountGroups: Table<AccountGroupRow>)

  // ----- decoding the selected columns; the others keep their zero value -----

  function DecodeAccount(r: AccountRow, columns: set<string>): AccountRow {
    AccountRow(if "id" in columns then r.id else 0, if "proxy_id" in columns then r.proxyID else None,
               if "name" in columns then r.name else "")
  }

  function DecodeGroup(r: GroupRow, columns: set<string>): GroupRow {
    GroupRow(if "id" in columns then r.id else 0, if "name" in columns then r.name else "")
  }

  function DecodeProxy(r: ProxyRow, columns: set<string>): ProxyRow {
    ProxyRow(if "id" in columns then r.id else 0, if "name" in columns then r.name else "")
  }

  function DecodeUsageLog(r: UsageLogRow, columns: set<string>): UsageLogRow {
    UsageLogRow(if "id" in columns then r.id else 0, if "account_id" in columns then r.accountID else 0,
                if "model" in columns then r.model else "")
  }

  function DecodeAccountGroup(r: AccountGroupRow, columns: set<string>): AccountGroupRow {
    AccountGroupRow(if "account_id" in columns then r.accountID else 0, if "group_id" in columns then r.groupID else 0,
                    if "priority" in columns then r.priority else 0)
  }

  /** The columns a query reads: all of them, or the selected ones with the key and the foreign keys of
      the requested edges. */
  function Kept(all: seq<string>, selected: seq<string>, needed: set<string>): set<string> {
    if selected == [] then set c | c in all else (set c | c in selected) + needed
  }

  // ----- sequence operations -----

  function Keep<T>(s: seq<T>, p: T -> bool): seq<T> {
    if s == [] then [] else Keep(s[..|s| - 1], p) + if p(s[|s| - 1]) then [s[|s| - 1]] else []
  }

  function Last<T>(s: seq<T>, p: T -> bool): Option<T> {
    if s == [] then None
    else if p(s[|s| - 1]) then Some(s[|s| - 1])
    else Last(s[..|s| - 1], p)
  }

  /** The values that are present, each once, in the order in which they first appear. */
  function DistinctKeys(keys: seq<Option<int>>): seq<int> {
    if keys == [] then []
    else
      var ids := DistinctKeys(keys[..|keys| - 1]);
      var k := keys[|keys| - 1];
      if k.None? || k.value in ids then ids else ids + [k.value]
  }

  predicate HasKey<T>(s: seq<T>, key: T -> int, k: int) {
    exists j :: 0 <= j < |s| && key(s[j]) == k
  }

  /** The rows with distinct keys, keeping the first of each. */
  function FirstOfEach<T>(s: seq<T>, key: T -> int): seq<T> {
    if s == [] then []
    else
      var r := FirstOfEach(s[..|s| - 1], key);
      if HasKey(r, key, key(s[|s| - 1])) then r else r + [s[|s| - 1]]
  }

  lemma {:induction false} FirstOfEachIs<T>(s: seq<T>, key: T -> int)
    ensures DistinctBy(FirstOfEach(s, key), key)
    ensures forall x <- FirstOfEach(s, key) :: x in s
    ensures forall k :: HasKey(FirstOfEach(s, key), key, k) <==> HasKey(s, key, k)
    decreases |s|
  {
    if s != [] {
      var t := s[..|s| - 1];
      var x := s[|s| - 1];
      var r := FirstOfEach(t, key);
      FirstOfEachIs(t, key);
      HasKeySnoc(t, x, key);
      HasKeySnoc(r, x, key);
      assert s == t + [x];
    }
  }

  lemma HasKeySnoc<T>(s: seq<T>, x: T, key: T -> int)
    ensures forall k :: HasKey(s + [x], key, k) <==> HasKey(s, key, k) || key(x) == k
  {
    forall k | HasKey(s, key, k) || key(x) == k ensures HasKey(s + [x], key, k) {
      if HasKey(s, key, k) {
        var j :| 0 <= j < |s| && key(s[j]) == k;
        assert (s + [x])[j] == s[j];
      } else {
        assert (s + [x])[|s|] == x;
      }
    }
  }

  lemma KeepSnoc<T>(s: seq<T>, i: nat, p: T -> bool)
    requires i < |s|
    ensures Keep(s[..i + 1], p) == Keep(s[..i], p) + if p(s[i]) then [s[i]] else []
  {
    assert s[..i + 1][..i] == s[..i];
  }

  lemma LastSnoc<T>(s: seq<T>, i: nat, p: T -> bool)
    requires i < |s|
    ensures Last(s[..i + 1], p) == if p(s[i]) then Some(s[i]) else Last(s[..i], p)
  {
    assert s[..i + 1][..i] == s[..i];
  }

  lemma DistinctKeysSnoc(keys: seq<Option<int>>, i: nat)
    requires i < |keys|
    ensures var ids := DistinctKeys(keys[..i]);
            DistinctKeys(keys[..i + 1]) == if keys[i].None? || keys[i].value in ids then ids else ids + [keys[i].value]
  {
    assert keys[..i + 1][..i] == keys[..i];
  }

  lemma {:induction false} KeepIn<T>(s: seq<T>, p: T -> bool, x: T)
    ensures x in Keep(s, p) <==> x in s && p(x)
  {
    if s != [] {
      KeepIn(s[..|s| - 1], p, x);
      assert s == s[..|s| - 1] + [s[|s| - 1]];
    }
  }

  lemma {:induction false} LastIs<T>(s: seq<T>, p: T -> bool)
    ensures match Last(s, p)
            case None => forall x <- s :: !p(x)
            case Some(x) => x in s && p(x)
  {
    if s != [] {
      LastIs(s[..|s| - 1], p);
      assert s == s[..|s| - 1] + [s[|s| - 1]];
    }
  }

  lemma {:induction false} DistinctKeysAre(keys: seq<Option<int>>, k: int)
    ensures k in DistinctKeys(keys) <==> Some(k) in keys
    ensures forall i, j :: 0 <= i < j < |DistinctKeys(keys)| ==> DistinctKeys(keys)[i] != DistinctKeys(keys)[j]
  {
    if keys != [] {
      DistinctKeysAre(keys[..|keys| - 1], k);
      assert keys == keys[..|keys| - 1] + [keys[|keys| - 1]];
    }
  }

  /** Keeping corresponding elements of two sequences gives sequences that correspond. */
  lemma {:induction false} KeepParallel<A, B, C>(s: seq<A>, t: seq<B>, p: A -> bool, q: B -> bool, f: A -> C, g: B -> C)
    requires |s| == |t|
    requires forall i :: 0 <= i < |s| ==> (p(s[i]) <==> q(t[i])) && f(s[i]) == g(t[i])
    ensures Mapped(Keep(s, p), f) == Mapped(Keep(t, q), g)
  {
    if s != [] {
      var n := |s| - 1;
      KeepParallel(s[..n], t[..n], p, q, f, g);
      assert p(s[n]) <==> q(t[n]);
      assert f(s[n]) == g(t[n]);
      assert Mapped(Keep(s, p), f) == Mapped(Keep(s[..n], p), f) + if p(s[n]) then [f(s[n])] else [];
      assert Mapped(Keep(t, q), g) == Mapped(Keep(t[..n], q), g) + if q(t[n]) then [g(t[n])] else [];
    }
  }

  lemma {:induction false} LastParallel<A, B, C>(s: seq<A>, t: seq<B>, p: A -> bool, q: B -> bool, f: A -> C, g: B -> C)
    requires |s| == |t|
    requires forall i :: 0 <= i < |s| ==> (p(s[i]) <==> q(t[i])) && f(s[i]) == g(t[i])
    ensures match Last(s, p)
            case None => Last(t, q).None?
            case Some(x) => Last(t, q).Some? && f(x) == g(Last(t, q).value)
  {
    if s != [] {
      var n := |s| - 1;
      assert p(s[n]) <==> q(t[n]);
      assert f(s[n]) == g(t[n]);
      LastParallel(s[..n], t[..n], p, q, f, g);
    }
  }

  lemma {:induction false} KeepCongruent<T>(s: seq<T>, p: T -> bool, q: T -> bool)
    requires forall x <- s :: p(x) <==> q(x)
    ensures Keep(s, p) == Keep(s, q)
  {
    if s != [] {
      assert s == s[..|s| - 1] + [s[|s| - 1]];
      KeepCongruent(s[..|s| - 1], p, q);
    }
  }

  // ----- the joined rows of a many-to-many edge -----

  /** One row of the join table against the groups table. */
  function PairsOf(j: AccountGroupRow, groups: seq<GroupRow>): seq<(int, GroupRow)> {
    if groups == [] then []
    else (if groups[0].id == j.groupID then [(j.accountID, groups[0])] else []) + PairsOf(j, groups[1..])
  }

  /** groups JOIN account_groups ON groups.id = account_groups.group_id, for the given accounts. */
  function JoinRows(js: seq<AccountGroupRow>, groups: seq<GroupRow>, ids: seq<int>): seq<(int, GroupRow)> {
    if js == [] then []
    else (if js[0].accountID in ids then PairsOf(js[0], groups) else []) + JoinRows(js[1..], groups, ids)
  }

  lemma {:induction false} PairsOfIn(j: AccountGroupRow, groups: seq<GroupRow>, p: (int, GroupRow))
    ensures p in PairsOf(j, groups) <==> p.0 == j.accountID && p.1 in groups && p.1.id == j.groupID
  {
    if groups != [] {
      PairsOfIn(j, groups[1..], p);
      assert groups == [groups[0]] + groups[1..];
      assert p == (p.0, p.1);
    }
  }

  lemma {:induction false} JoinRowsIn(js: seq<AccountGroupRow>, groups: seq<GroupRow>, ids: seq<int>,
                                      p: (int, GroupRow))
    ensures p in JoinRows(js, groups, ids) <==>
            p.0 in ids && p.1 in groups && exists j <- js :: j.accountID == p.0 && j.groupID == p.1.id
  {
    if js != [] {
      JoinRowsIn(js[1..], groups, ids, p);
      PairsOfIn(js[0], groups, p);
      assert js == [js[0]] + js[1..];
    }
  }

  /** A selection of groups, as applied to joined rows. */
  function Lift(s: Selection<GroupRow>): Selection<(int, GroupRow)> {
    Selection(Mapped(s.predicates, OnGroup), (a: (int, GroupRow), b: (int, GroupRow)) => s.before(a.1, b.1),
              s.offset, s.limit)
  }

  function OnGroup(p: GroupRow -> bool): ((int, GroupRow)) -> bool {
    (x: (int, GroupRow)) => p(x.1)
  }

  function GroupPairs(db: Database, s: Selection<GroupRow>, ids: seq<int>): seq<(int, GroupRow)> {
    Selected(JoinRows(db.accountGroups.rows, db.groups.rows, ids), Lift(s))
  }

  /** What the joined rows are, with the account on the left: every pair comes from a join row of one of
      the accounts and a group that satisfies the conditions, and without a page all such pairs do. */
  lemma GroupPairsIn(db: Database, s: Selection<GroupRow>, ids: seq<int>, a: int, g: GroupRow)
    ensures var joined := a in ids && g in db.groups.rows && Satisfies(s.predicates, g) &&
                          exists j <- db.accountGroups.rows :: j.accountID == a && j.groupID == g.id;
            && ((a, g) in GroupPairs(db, s, ids) ==> joined)
            && (Unpaged(s) ==> ((a, g) in GroupPairs(db, s, ids) <==> joined))
  {
    var all := JoinRows(db.accountGroups.rows, db.groups.rows, ids);
    SelectedIn(all, Lift(s), (a, g));
    JoinRowsIn(db.accountGroups.rows, db.groups.rows, ids, (a, g));
    var lifted := Lift(s).predicates;
    assert Satisfies(lifted, (a, g)) <==> Satisfies(s.predicates, g) by {
      forall i | 0 <= i < |s.predicates| ensures lifted[i]((a, g)) == s.predicates[i](g) {}
    }
  }
}
