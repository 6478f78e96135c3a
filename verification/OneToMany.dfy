/** One-to-many edges: one query for all parents gives each parent what a query of its own would, and no
    fetched row is lost or attached twice. */
module OneToMany {
  import opened Rows
  import opened Joins
  import opened Orders
  import opened EagerLoading
  import opened AccountQueries

  function LogRowOf(account: int): UsageLogRow -> bool { (r: UsageLogRow) => r.accountID == account }

  function JoinRowOf(account: int): AccountGroupRow -> bool { (r: AccountGroupRow) => r.accountID == account }

  function LogDecoder(columns: set<string>): UsageLogRow -> UsageLogRow {
    (r: UsageLogRow) => DecodeUsageLog(r, columns)
  }

  function JoinDecoder(columns: set<string>): AccountGroupRow -> AccountGroupRow {
    (r: AccountGroupRow) => DecodeAccountGroup(r, columns)
  }

  /** The rows that one more condition leaves of a batch that already had a weaker one. */
  lemma Refined<Row(!new)>(rows: seq<Row>, s: Selection<Row>, p: Row -> bool, q: Row -> bool)
    requires Unpaged(s) && WeakOrder(s.before)
    requires forall r :: q(r) ==> p(r)
    ensures Keep(Selected(rows, And(s, p)), q) == Selected(rows, And(s, q))
  {
    SelectedKeep(rows, And(s, p), q);
    AndSatisfies(s.predicates, [p]);
    AndSatisfies(s.predicates + [p], [q]);
    AndSatisfies(s.predicates, [q]);
    OneSatisfies(p);
    OneSatisfies(q);
    SelectedCongruent(rows, And(And(s, p), q), And(s, q));
  }

  /** The usage logs of an account are the fetched rows with its identifier, in fetch order. */
  lemma LogsAreTheirRows(db: Database, s: Selection<UsageLogRow>, columns: set<string>,
                         nodes: seq<AccountNode>, logs: seq<UsageLog>, a: AccountNode)
    requires UsageLogsLoaded(db, s, columns, nodes, logs) && "account_id" in columns && a in nodes
    ensures var rows := Selected(db.usageLogs.rows, And(s, LogAccountIn(Mapped(nodes, AccountID))));
            Mapped(a.usageLogs, FieldsOfUsageLog) == Mapped(Keep(rows, LogRowOf(a.row.id)), LogDecoder(columns))
  {
    var rows := Selected(db.usageLogs.rows, And(s, LogAccountIn(Mapped(nodes, AccountID))));
    forall i | 0 <= i < |logs|
      ensures LogOf(a.row.id)(logs[i]) <==> LogRowOf(a.row.id)(rows[i])
      ensures FieldsOfUsageLog(logs[i]) == LogDecoder(columns)(rows[i])
    {
      assert logs[i].row == DecodeUsageLog(rows[i], columns);
    }
    KeepParallel(logs, rows, LogOf(a.row.id), LogRowOf(a.row.id), FieldsOfUsageLog, LogDecoder(columns));
  }

  /** The batch query and the index give every account what one query for that account alone returns,
      in the same order. */
  lemma LogsAsIfQueriedAlone(db: Database, s: Selection<UsageLogRow>, columns: set<string>,
                             nodes: seq<AccountNode>, logs: seq<UsageLog>, a: AccountNode)
    requires UsageLogsLoaded(db, s, columns, nodes, logs) && "account_id" in columns && a in nodes
    requires Unpaged(s) && WeakOrder(s.before)
    ensures Mapped(a.usageLogs, FieldsOfUsageLog) ==
            Mapped(Selected(db.usageLogs.rows, And(s, LogRowOf(a.row.id))), LogDecoder(columns))
  {
    LogsAreTheirRows(db, s, columns, nodes, logs, a);
    AccountListed(nodes, a);
    Refined(db.usageLogs.rows, s, LogAccountIn(Mapped(nodes, AccountID)), LogRowOf(a.row.id));
  }

  lemma AccountListed(nodes: seq<AccountNode>, a: AccountNode)
    requires a in nodes
    ensures a.row.id in Mapped(nodes, AccountID)
  {
    var i :| 0 <= i < |nodes| && nodes[i] == a;
    assert Mapped(nodes, AccountID)[i] == a.row.id;
  }

  lemma JoinsAreTheirRows(db: Database, s: Selection<AccountGroupRow>, columns: set<string>,
                          nodes: seq<AccountNode>, joins: seq<AccountGroup>, a: AccountNode)
    requires AccountGroupsLoaded(db, s, columns, nodes, joins) && "account_id" in columns && a in nodes
    ensures var rows := Selected(db.accountGroups.rows, And(s, RowAccountIn(Mapped(nodes, AccountID))));
            Mapped(a.accountGroups, FieldsOfAccountGroup) ==
              Mapped(Keep(rows, JoinRowOf(a.row.id)), JoinDecoder(columns))
  {
    var rows := Selected(db.accountGroups.rows, And(s, RowAccountIn(Mapped(nodes, AccountID))));
    forall i | 0 <= i < |joins|
      ensures RowOf(a.row.id)(joins[i]) <==> JoinRowOf(a.row.id)(rows[i])
      ensures FieldsOfAccountGroup(joins[i]) == JoinDecoder(columns)(rows[i])
    {
      assert joins[i].row == DecodeAccountGroup(rows[i], columns);
    }
    KeepParallel(joins, rows, RowOf(a.row.id), JoinRowOf(a.row.id), FieldsOfAccountGroup, JoinDecoder(columns));
  }

  lemma JoinsAsIfQueriedAlone(db: Database, s: Selection<AccountGroupRow>, columns: set<string>,
                              nodes: seq<AccountNode>, joins: seq<AccountGroup>, a: AccountNode)
    requires AccountGroupsLoaded(db, s, columns, nodes, joins) && "account_id" in columns && a in nodes
    requires Unpaged(s) && WeakOrder(s.before)
    ensures Mapped(a.accountGroups, FieldsOfAccountGroup) ==
            Mapped(Selected(db.accountGroups.rows, And(s, JoinRowOf(a.row.id))), JoinDecoder(columns))
  {
    JoinsAreTheirRows(db, s, columns, nodes, joins, a);
    AccountListed(nodes, a);
    Refined(db.accountGroups.rows, s, RowAccountIn(Mapped(nodes, AccountID)), JoinRowOf(a.row.id));
  }

  // ----- conservation -----

  function HasKeyValue<T>(key: T -> int, k: int): T -> bool { (x: T) => key(x) == k }

  /** How many elements the parts for the given keys have together. */
  function Tally<T>(ids: seq<int>, s: seq<T>, key: T -> int): nat {
    if ids == [] then 0 else |Keep(s, HasKeyValue(key, ids[0]))| + Tally(ids[1..], s, key)
  }

  predicate NoRepeats(ids: seq<int>) {
    forall i, j :: 0 <= i < j < |ids| ==> ids[i] != ids[j]
  }

  lemma {:induction false} TallySnoc<T>(ids: seq<int>, s: seq<T>, key: T -> int)
    requires NoRepeats(ids) && s != []
    ensures Tally(ids, s, key) == Tally(ids, s[..|s| - 1], key) + if key(s[|s| - 1]) in ids then 1 else 0
  {
    if ids != [] {
      TallySnoc(ids[1..], s, key);
      assert ids == [ids[0]] + ids[1..];
    }
  }

  /** Parts for distinct keys that cover every element lose none and repeat none. */
  lemma {:induction false} TallyIsAll<T>(ids: seq<int>, s: seq<T>, key: T -> int)
    requires NoRepeats(ids) && forall x <- s :: key(x) in ids
    ensures Tally(ids, s, key) == |s|
    decreases |s|
  {
    if s == [] {
      TallyNone(ids, s, key);
    } else {
      TallySnoc(ids, s, key);
      TallyIsAll(ids, s[..|s| - 1], key);
    }
  }

  lemma {:induction false} TallyNone<T>(ids: seq<int>, s: seq<T>, key: T -> int)
    requires s == []
    ensures Tally(ids, s, key) == 0
  {
    if ids != [] {
      TallyNone(ids[1..], s, key);
    }
  }

  function LogKey(l: UsageLog): int { l.row.accountID }

  function JoinAccount(ag: AccountGroup): int { ag.row.accountID }

  ghost function LogsAttached(nodes: seq<AccountNode>): nat
    reads nodes`usageLogs
  {
    if nodes == [] then 0 else |nodes[0].usageLogs| + LogsAttached(nodes[1..])
  }

  ghost function JoinsAttached(nodes: seq<AccountNode>): nat
    reads nodes`accountGroups
  {
    if nodes == [] then 0 else |nodes[0].accountGroups| + JoinsAttached(nodes[1..])
  }

  lemma {:induction false} LogsAttachedTally(nodes: seq<AccountNode>, logs: seq<UsageLog>)
    requires forall a <- nodes :: a.usageLogs == Keep(logs, LogOf(a.row.id))
    ensures LogsAttached(nodes) == Tally(Mapped(nodes, AccountID), logs, LogKey)
  {
    if nodes != [] {
      LogsAttachedTally(nodes[1..], logs);
      assert Mapped(nodes, AccountID)[1..] == Mapped(nodes[1..], AccountID);
      KeepCongruent(logs, LogOf(nodes[0].row.id), HasKeyValue(LogKey, nodes[0].row.id));
    }
  }

  lemma {:induction false} JoinsAttachedTally(nodes: seq<AccountNode>, joins: seq<AccountGroup>)
    requires forall a <- nodes :: a.accountGroups == Keep(joins, RowOf(a.row.id))
    ensures JoinsAttached(nodes) == Tally(Mapped(nodes, AccountID), joins, JoinAccount)
  {
    if nodes != [] {
      JoinsAttachedTally(nodes[1..], joins);
      assert Mapped(nodes, AccountID)[1..] == Mapped(nodes[1..], AccountID);
      KeepCongruent(joins, RowOf(nodes[0].row.id), HasKeyValue(JoinAccount, nodes[0].row.id));
    }
  }

  /** Together the accounts have as many usage logs as the query returned. */
  lemma LogsConserved(db: Database, s: Selection<UsageLogRow>, columns: set<string>,
                      nodes: seq<AccountNode>, logs: seq<UsageLog>)
    requires UsageLogsLoaded(db, s, columns, nodes, logs) && "account_id" in columns && DistinctIDs(nodes)
    ensures LogsAttached(nodes) == |logs|
  {
    var ids := Mapped(nodes, AccountID);
    var rows := Selected(db.usageLogs.rows, And(s, LogAccountIn(ids)));
    LogsAttachedTally(nodes, logs);
    forall l <- logs ensures LogKey(l) in ids {
      var i :| 0 <= i < |logs| && logs[i] == l;
      AndIn(db.usageLogs.rows, s, LogAccountIn(ids), rows[i]);
    }
    TallyIsAll(ids, logs, LogKey);
  }

  lemma JoinsConserved(db: Database, s: Selection<AccountGroupRow>, columns: set<string>,
                       nodes: seq<AccountNode>, joins: seq<AccountGroup>)
    requires AccountGroupsLoaded(db, s, columns, nodes, joins) && "account_id" in columns && DistinctIDs(nodes)
    ensures JoinsAttached(nodes) == |joins|
  {
    var ids := Mapped(nodes, AccountID);
    var rows := Selected(db.accountGroups.rows, And(s, RowAccountIn(ids)));
    JoinsAttachedTally(nodes, joins);
    forall ag <- joins ensures JoinAccount(ag) in ids {
      var i :| 0 <= i < |joins| && joins[i] == ag;
      AndIn(db.accountGroups.rows, s, RowAccountIn(ids), rows[i]);
    }
    TallyIsAll(ids, joins, JoinAccount);
  }
}
