/** An edge over a foreign key that may be nil, loaded from both of its ends: the adoption decisions of an
    identity, and the identity of an adoption decision. */
module IdentityEdges {
  import opened Wrappers
  import opened Rows
  import opened Joins
  import opened Queries
  import opened EagerLoading
  import opened AccountQueries
  import opened OneToMany

  datatype IdentityRow = IdentityRow(id: int, userID: int)
  datatype DecisionRow = DecisionRow(id: int, identityID: Option<int>, adopt: bool)

  function DecodeIdentity(r: IdentityRow, columns: set<string>): IdentityRow {
    IdentityRow(if "id" in columns then r.id else 0, if "user_id" in columns then r.userID else 0)
  }

  function DecodeDecision(r: DecisionRow, columns: set<string>): DecisionRow {
    DecisionRow(if "id" in columns then r.id else 0, if "identity_id" in columns then r.identityID else None,
                if "adopt" in columns then r.adopt else false)
  }

  class Identity {
    const row: IdentityRow
    var decisions: seq<Decision>

    constructor (row: IdentityRow)
      ensures this.row == row && decisions == []
    {
      this.row, decisions := row, [];
    }
  }

  class Decision {
    const row: DecisionRow
    var identity: Identity?

    constructor (row: DecisionRow)
      ensures this.row == row && identity == null
    {
      this.row, identity := row, null;
    }
  }

  function IdentityID(x: Identity): int { x.row.id }

  function DecisionRowID(r: DecisionRow): int { r.id }

  function DecisionKey(d: Decision): Option<int> { d.row.identityID }

  function DecisionOf(id: int): Decision -> bool {
    (d: Decision) => d.row.identityID == Some(id)
  }

  function DecidedBy(ids: seq<int>): DecisionRow -> bool {
    (r: DecisionRow) => r.identityID.Some? && r.identityID.value in ids
  }

  function IdentityIDIn(ids: seq<int>): IdentityRow -> bool { (r: IdentityRow) => r.id in ids }

  function IsIdentity(k: int): Identity -> bool { (x: Identity) => x.row.id == k }

  ghost predicate DecodesDecisions(nodes: seq<Decision>, rows: seq<DecisionRow>, columns: set<string>) {
    |nodes| == |rows| && forall i :: 0 <= i < |nodes| ==> nodes[i].row == DecodeDecision(rows[i], columns)
  }

  ghost predicate DecodesIdentities(nodes: seq<Identity>, rows: seq<IdentityRow>, columns: set<string>) {
    |nodes| == |rows| && forall i :: 0 <= i < |nodes| ==> nodes[i].row == DecodeIdentity(rows[i], columns)
  }

  ghost predicate DistinctIdentities(nodes: seq<Identity>) {
    forall i, j :: 0 <= i < j < |nodes| ==> nodes[i].row.id != nodes[j].row.id
  }

  // ----- one to many -----

  function Stray(d: Decision, ids: seq<int>): Option<QueryError> {
    var fk := d.row.identityID;
    if fk.None? then Some(NilForeignKey("identity_id"))
    else if fk.value !in ids then Some(UnexpectedForeignKey("identity_id", fk.value))
    else None
  }

  /** What stops the stitching: the first fetched row whose foreign key is nil or of no parent. */
  function FirstStray(neighbors: seq<Decision>, ids: seq<int>): Option<QueryError> {
    if neighbors == [] then None
    else if Stray(neighbors[0], ids).Some? then Stray(neighbors[0], ids)
    else FirstStray(neighbors[1..], ids)
  }

  method AppendDecision(parents: seq<Identity>, node: Identity, n: Decision)
    requires node in parents
    modifies parents`decisions
    ensures forall x <- parents :: x.decisions == old(x.decisions) + if x == node then [n] else []
  {
    node.decisions := node.decisions + [n];
  }

  /** Each fetched decision is appended to the identity with its foreign key; a nil or unknown key is an
      error. */
  method AttachDecisions(parents: seq<Identity>, neighbors: seq<Decision>, byID: map<int, Identity>)
      returns (err: Option<QueryError>)
    requires forall k :: k in byID <==> k in Mapped(parents, IdentityID)
    requires forall k <- byID :: byID[k] in parents && byID[k].row.id == k
    requires forall x <- parents :: x.row.id in byID && byID[x.row.id] == x
    modifies parents`decisions
    ensures err == FirstStray(neighbors, Mapped(parents, IdentityID))
    ensures err.None? ==> forall x <- parents :: x.decisions == old(x.decisions) + Keep(neighbors, DecisionOf(x.row.id))
  {
    ghost var ids := Mapped(parents, IdentityID);
    for i := 0 to |neighbors|
      invariant FirstStray(neighbors[i..], ids) == FirstStray(neighbors, ids)
      invariant forall x <- parents :: x.decisions == old(x.decisions) + Keep(neighbors[..i], DecisionOf(x.row.id))
    {
      var n := neighbors[i];
      assert neighbors[i..][1..] == neighbors[i + 1..];
      var fk := n.row.identityID;
      if fk.None? {
        return Some(NilForeignKey("identity_id"));
      }
      if fk.value !in byID {
        return Some(UnexpectedForeignKey("identity_id", fk.value));
      }
      forall x <- parents {
        KeepSnoc(neighbors, i, DecisionOf(x.row.id));
      }
      AppendDecision(parents, byID[fk.value], n);
    }
    assert neighbors[..|neighbors|] == neighbors;
    err := None;
  }

  method NewDecisions(rows: seq<DecisionRow>, columns: set<string>) returns (nodes: seq<Decision>)
    ensures DecodesDecisions(nodes, rows, columns)
    ensures forall i :: 0 <= i < |nodes| ==> fresh(nodes[i]) && nodes[i].identity == null
  {
    nodes := [];
    for i := 0 to |rows|
      invariant |nodes| == i
      invariant forall j :: 0 <= j < i ==> fresh(nodes[j]) && nodes[j].identity == null
      invariant forall j :: 0 <= j < i ==> nodes[j].row == DecodeDecision(rows[j], columns)
    {
      var node := new Decision(DecodeDecision(rows[i], columns));
      nodes := nodes + [node];
    }
  }

  method IndexIdentities(nodes: seq<Identity>) returns (byID: map<int, Identity>)
    requires DistinctIdentities(nodes)
    modifies nodes`decisions
    ensures forall k :: k in byID <==> k in Mapped(nodes, IdentityID)
    ensures forall k <- byID :: byID[k] in nodes && byID[k].row.id == k
    ensures forall x <- nodes :: x.row.id in byID && byID[x.row.id] == x
    ensures forall x <- nodes :: x.decisions == []
  {
    var ids := Mapped(nodes, IdentityID);
    byID := IndexByID(nodes, ids);
    forall i | 0 <= i < |nodes| ensures LastAt(ids, i, |ids|) {}
    forall k <- byID ensures byID[k] in nodes && byID[k].row.id == k {
      var i :| 0 <= i < |ids| && ids[i] == k;
      assert byID[ids[i]] == nodes[i];
    }
    for i := 0 to |nodes|
      invariant forall j :: 0 <= j < i ==> nodes[j].decisions == []
    {
      nodes[i].decisions := [];
    }
  }

  ghost predicate DecisionsLoaded(table: Table<DecisionRow>, s: Selection<DecisionRow>, columns: set<string>,
                                  nodes: seq<Identity>, neighbors: seq<Decision>)
    reads nodes`decisions
  {
    && DecodesDecisions(neighbors, Selected(table.rows, And(s, DecidedBy(Mapped(nodes, IdentityID)))), columns)
    && forall x <- nodes :: x.decisions == Keep(neighbors, DecisionOf(x.row.id))
  }

  /** Asks for the decisions of the given identities; none of them strays. */
  method FetchDecisions(query: Query<DecisionRow>, ids: seq<int>, table: Table<DecisionRow>)
      returns (r: Result<seq<Decision>, QueryError>)
    requires "id" in table.columns && "identity_id" in table.columns
    modifies query`predicates, query`fields
    ensures query.fields == WithForeignKey(old(query.fields), "identity_id")
    ensures Narrowed(query.Asking(), old(query.Asking()), DecidedBy(ids))
    ensures var err := FirstUnknown(query.fields, table.columns);
            && (r.Failure? <==> err.Some?) && (r.Failure? ==> r.error == err.value)
    ensures r.Success? ==>
              && (forall d <- r.value :: fresh(d)) && FirstStray(r.value, ids).None?
              && DecodesDecisions(r.value, Selected(table.rows, And(old(query.Asking()), DecidedBy(ids))),
                                  Kept(table.columns, query.fields, {"id"}))
  {
    ghost var s := query.Asking();
    query.Require("identity_id");
    WhereThenRun(table.rows, query.predicates, query.traversers, DecidedBy(ids), s);
    query.Where(DecidedBy(ids));
    var fetched := query.Run(table);
    if fetched.Failure? {
      return Failure(fetched.error);
    }
    var columns := query.SpecColumns(table.columns, Some("id"), []);
    var decisions := NewDecisions(fetched.value, set c | c in columns);
    NoStray(table, s, ids, decisions, set c | c in columns);
    r := Success(decisions);
  }

  /** Neither of the foreign-key errors can come from the rows that the edge query itself returns: the
      load fails just if an unknown column is selected. */
  method LoadDecisions(query: Query<DecisionRow>, nodes: seq<Identity>, table: Table<DecisionRow>)
      returns (err: Option<QueryError>, ghost neighbors: seq<Decision>)
    requires DistinctIdentities(nodes) && "id" in table.columns && "identity_id" in table.columns
    modifies query`predicates, query`fields, nodes`decisions
    ensures query.fields == WithForeignKey(old(query.fields), "identity_id")
    ensures err == FirstUnknown(query.fields, table.columns)
    ensures Narrowed(query.Asking(), old(query.Asking()), DecidedBy(Mapped(nodes, IdentityID)))
    ensures err.None? ==>
              DecisionsLoaded(table, old(query.Asking()), Kept(table.columns, query.fields, {"id"}), nodes, neighbors)
  {
    neighbors := [];
    var nodeids := IndexIdentities(nodes);
    var fetched := FetchDecisions(query, Mapped(nodes, IdentityID), table);
    if fetched.Failure? {
      return Some(fetched.error), [];
    }
    neighbors := fetched.value;
    err := AttachDecisions(nodes, fetched.value, nodeids);
    forall x <- nodes ensures err.None? ==> x.decisions == Keep(neighbors, DecisionOf(x.row.id)) {
      assert [] + Keep(neighbors, DecisionOf(x.row.id)) == Keep(neighbors, DecisionOf(x.row.id));
    }
  }

  lemma NoStray(table: Table<DecisionRow>, s: Selection<DecisionRow>, ids: seq<int>, decisions: seq<Decision>,
                columns: set<string>)
    requires DecodesDecisions(decisions, Selected(table.rows, And(s, DecidedBy(ids))), columns)
    requires "identity_id" in columns
    ensures FirstStray(decisions, ids).None?
  {
    var rows := Selected(table.rows, And(s, DecidedBy(ids)));
    forall d <- decisions ensures d.row.identityID.Some? && d.row.identityID.value in ids {
      var i :| 0 <= i < |decisions| && decisions[i] == d;
      AndIn(table.rows, s, DecidedBy(ids), rows[i]);
    }
    StrayIs(decisions, ids);
  }

  /** There is an error just if some fetched row has a nil key or one of no parent. */
  lemma {:induction false} StrayIs(neighbors: seq<Decision>, ids: seq<int>)
    ensures FirstStray(neighbors, ids).None? <==>
            forall d <- neighbors :: d.row.identityID.Some? && d.row.identityID.value in ids
  {
    if neighbors != [] {
      StrayIs(neighbors[1..], ids);
      assert neighbors == [neighbors[0]] + neighbors[1..];
    }
  }

  /** And the error is about the first such row. */
  lemma {:induction false} StrayIsFirst(neighbors: seq<Decision>, ids: seq<int>)
    requires FirstStray(neighbors, ids).Some?
    ensures exists k :: 0 <= k < |neighbors| && StraysFirst(neighbors, ids, k, FirstStray(neighbors, ids).value)
  {
    if Stray(neighbors[0], ids).Some? {
      assert StraysFirst(neighbors, ids, 0, FirstStray(neighbors, ids).value);
    } else {
      StrayIsFirst(neighbors[1..], ids);
      var k :| 0 <= k < |neighbors[1..]| && StraysFirst(neighbors[1..], ids, k, FirstStray(neighbors, ids).value);
      assert neighbors[k + 1] == neighbors[1..][k];
      forall j | 0 <= j < k + 1 ensures Belongs(neighbors[j], ids) {
        assert j > 0 ==> neighbors[j] == neighbors[1..][j - 1];
      }
      assert StraysFirst(neighbors, ids, k + 1, FirstStray(neighbors, ids).value);
    }
  }

  predicate Belongs(d: Decision, ids: seq<int>) {
    d.row.identityID.Some? && d.row.identityID.value in ids
  }

  predicate StraysFirst(neighbors: seq<Decision>, ids: seq<int>, k: nat, err: QueryError)
    requires k < |neighbors|
  {
    var key := neighbors[k].row.identityID;
    && !Belongs(neighbors[k], ids) && (forall j :: 0 <= j < k ==> Belongs(neighbors[j], ids))
    && err == if key.None? then NilForeignKey("identity_id") else UnexpectedForeignKey("identity_id", key.value)
  }

  function DecisionParent(d: Decision): int { if d.row.identityID.Some? then d.row.identityID.value else 0 }

  ghost function DecisionsAttached(nodes: seq<Identity>): nat
    reads nodes`decisions
  {
    if nodes == [] then 0 else |nodes[0].decisions| + DecisionsAttached(nodes[1..])
  }

  lemma {:induction false} DecisionsAttachedTally(nodes: seq<Identity>, neighbors: seq<Decision>)
    requires forall x <- nodes :: x.decisions == Keep(neighbors, DecisionOf(x.row.id))
    requires forall d <- neighbors :: d.row.identityID.Some?
    ensures DecisionsAttached(nodes) == Tally(Mapped(nodes, IdentityID), neighbors, DecisionParent)
  {
    if nodes != [] {
      DecisionsAttachedTally(nodes[1..], neighbors);
      assert Mapped(nodes, IdentityID)[1..] == Mapped(nodes[1..], IdentityID);
      KeepCongruent(neighbors, DecisionOf(nodes[0].row.id), HasKeyValue(DecisionParent, nodes[0].row.id));
    }
  }

  /** Stitching succeeds just if it loses nothing: every fetched row ends up in one list once. */
  lemma AttachedUnlessStray(nodes: seq<Identity>, neighbors: seq<Decision>)
    requires DistinctIdentities(nodes)
    requires forall x <- nodes :: x.decisions == Keep(neighbors, DecisionOf(x.row.id))
    requires FirstStray(neighbors, Mapped(nodes, IdentityID)).None?
    ensures DecisionsAttached(nodes) == |neighbors|
  {
    StrayIs(neighbors, Mapped(nodes, IdentityID));
    DecisionsAttachedTally(nodes, neighbors);
    TallyIsAll(Mapped(nodes, IdentityID), neighbors, DecisionParent);
  }

  // ----- many to one -----

  function IdentityFor(neighbors: seq<Identity>, key: Option<int>): Identity? {
    if key.None? then null
    else
      var last := Last(neighbors, IsIdentity(key.value));
      if last.None? then null else last.value
  }

  method AssignIdentity(parents: seq<Decision>, nodes: seq<Decision>, n: Identity)
    requires forall d <- nodes :: d in parents
    modifies parents`identity
    ensures forall d <- parents :: d.identity == if d in nodes then n else old(d.identity)
  {
    for i := 0 to |nodes|
      invariant forall d <- parents :: d.identity == if d in nodes[..i] then n else old(d.identity)
    {
      assert nodes[..i + 1] == nodes[..i] + [nodes[i]] && nodes[i] in nodes;
      nodes[i].identity := n;
    }
    assert nodes[..|nodes|] == nodes;
  }

  method AttachIdentities(parents: seq<Decision>, neighbors: seq<Identity>, buckets: map<int, seq<Decision>>)
      returns (err: Option<QueryError>)
    requires forall k <- buckets :: buckets[k] == WithKey(parents, Mapped(parents, DecisionKey), k)
    requires forall d <- parents :: d.identity == null
    modifies parents`identity
    ensures err.Some? <==> exists n <- neighbors :: n.row.id !in buckets
    ensures err.None? ==> forall d <- parents :: d.identity == IdentityFor(neighbors, d.row.identityID)
  {
    for i := 0 to |neighbors|
      invariant forall n <- neighbors[..i] :: n.row.id in buckets
      invariant forall d <- parents :: d.identity == IdentityFor(neighbors[..i], d.row.identityID)
    {
      var n := neighbors[i];
      assert neighbors[..i + 1] == neighbors[..i] + [n];
      if n.row.id !in buckets {
        return Some(UnexpectedForeignKey("identity_id", n.row.id));
      }
      forall d: Decision ensures d in buckets[n.row.id] <==> d in parents && d.row.identityID == Some(n.row.id) {
        WithKeyIn(parents, Mapped(parents, DecisionKey), n.row.id, d);
      }
      forall d <- parents | d.row.identityID.Some? {
        LastSnoc(neighbors, i, IsIdentity(d.row.identityID.value));
      }
      AssignIdentity(parents, buckets[n.row.id], n);
    }
    assert neighbors[..|neighbors|] == neighbors;
    err := None;
  }

  method NewIdentities(rows: seq<IdentityRow>, columns: set<string>) returns (nodes: seq<Identity>)
    ensures DecodesIdentities(nodes, rows, columns)
    ensures forall i :: 0 <= i < |nodes| ==> fresh(nodes[i])
  {
    nodes := [];
    for i := 0 to |rows|
      invariant |nodes| == i
      invariant forall j :: 0 <= j < i ==> fresh(nodes[j]) && nodes[j].row == DecodeIdentity(rows[j], columns)
    {
      var node := new Identity(DecodeIdentity(rows[i], columns));
      nodes := nodes + [node];
    }
  }

  ghost predicate IdentitiesLoaded(table: Table<IdentityRow>, s: Selection<IdentityRow>, columns: set<string>,
                                   nodes: seq<Decision>, neighbors: seq<Identity>)
    reads nodes`identity
  {
    var ids := DistinctKeys(Mapped(nodes, DecisionKey));
    && DecodesIdentities(neighbors, if ids == [] then [] else Selected(table.rows, And(s, IdentityIDIn(ids))), columns)
    && forall d <- nodes :: d.identity == IdentityFor(neighbors, d.row.identityID)
  }

  /** Asks for the identities with the given identifiers. */
  method FetchIdentities(query: Query<IdentityRow>, ids: seq<int>, table: Table<IdentityRow>)
      returns (r: Result<seq<Identity>, QueryError>)
    requires "id" in table.columns
    modifies query`predicates
    ensures Narrowed(query.Asking(), old(query.Asking()), IdentityIDIn(ids))
    ensures var err := FirstUnknown(query.fields, table.columns);
            && (r.Failure? <==> err.Some?) && (r.Failure? ==> r.error == err.value)
    ensures r.Success? ==>
              && (forall x <- r.value :: fresh(x) && x.row.id in ids)
              && DecodesIdentities(r.value, Selected(table.rows, And(old(query.Asking()), IdentityIDIn(ids))),
                                   Kept(table.columns, query.fields, {"id"}))
  {
    ghost var s := query.Asking();
    WhereThenRun(table.rows, query.predicates, query.traversers, IdentityIDIn(ids), s);
    query.Where(IdentityIDIn(ids));
    var fetched := query.Run(table);
    if fetched.Failure? {
      return Failure(fetched.error);
    }
    var columns := query.SpecColumns(table.columns, Some("id"), []);
    var identities := NewIdentities(fetched.value, set c | c in columns);
    forall i | 0 <= i < |identities| ensures identities[i].row.id in ids {
      AndIn(table.rows, s, IdentityIDIn(ids), fetched.value[i]);
    }
    r := Success(identities);
  }

  method LoadIdentity(query: Query<IdentityRow>, nodes: seq<Decision>, table: Table<IdentityRow>)
      returns (err: Option<QueryError>, ghost neighbors: seq<Identity>)
    requires "id" in table.columns && forall d <- nodes :: d.identity == null
    modifies query`predicates, nodes`identity
    ensures var ids := DistinctKeys(Mapped(nodes, DecisionKey));
            if ids == [] then err.None? && query.predicates == old(query.predicates)
            else err == FirstUnknown(query.fields, table.columns)
                 && Narrowed(query.Asking(), old(query.Asking()), IdentityIDIn(ids))
    ensures err.None? ==>
              IdentitiesLoaded(table, old(query.Asking()), Kept(table.columns, query.fields, {"id"}), nodes, neighbors)
  {
    neighbors := [];
    var ids, nodeids := BucketByKey(nodes, Mapped(nodes, DecisionKey));
    if |ids| == 0 {
      return None, [];
    }
    var fetched := FetchIdentities(query, ids, table);
    if fetched.Failure? {
      return Some(fetched.error), [];
    }
    neighbors := fetched.value;
    err := AttachIdentities(nodes, fetched.value, nodeids);
  }

  // ----- the two ends agree -----

  /** From the one end: an identity lists a decision just if the decision refers to it. */
  lemma ListedIfReferred(table: Table<DecisionRow>, s: Selection<DecisionRow>, columns: set<string>,
                         nodes: seq<Identity>, decisions: seq<Decision>, x: Identity, r: DecisionRow)
    requires DecisionsLoaded(table, s, columns, nodes, decisions) && "id" in columns && "identity_id" in columns
    requires TakesAll(s) && DistinctBy(table.rows, DecisionRowID) && x in nodes && r in table.rows
    ensures (exists d <- x.decisions :: d.row.id == r.id) <==> r.identityID == Some(x.row.id)
  {
    var ids := Mapped(nodes, IdentityID);
    var rows := Selected(table.rows, And(s, DecidedBy(ids)));
    if d :| d in x.decisions && d.row.id == r.id {
      KeepIn(decisions, DecisionOf(x.row.id), d);
      var i :| 0 <= i < |decisions| && decisions[i] == d;
      AndIn(table.rows, s, DecidedBy(ids), rows[i]);
      var m :| 0 <= m < |table.rows| && table.rows[m] == r;
      var n :| 0 <= n < |table.rows| && table.rows[n] == rows[i];
      assert DecisionRowID(table.rows[m]) == DecisionRowID(table.rows[n]);
    }
    if r.identityID == Some(x.row.id) {
      var j :| 0 <= j < |nodes| && nodes[j] == x;
      assert ids[j] == x.row.id;
      AndIn(table.rows, s, DecidedBy(ids), r);
      var i :| 0 <= i < |rows| && rows[i] == r;
      KeepIn(decisions, DecisionOf(x.row.id), decisions[i]);
      assert decisions[i].row.id == r.id;
    }
  }

  /** From the other: a decision has an identity just if it refers to one, and then that one. */
  lemma ReferredIsAssigned(table: Table<IdentityRow>, s: Selection<IdentityRow>, columns: set<string>,
                           nodes: seq<Decision>, identities: seq<Identity>, d: Decision, id: int)
    requires IdentitiesLoaded(table, s, columns, nodes, identities) && "id" in columns && d in nodes
    requires TakesAll(s) && exists r <- table.rows :: r.id == id
    ensures d.identity != null && d.identity.row.id == id <==> d.row.identityID == Some(id)
  {
    if d.row.identityID == Some(id) {
      var keys := Mapped(nodes, DecisionKey);
      var ids := DistinctKeys(keys);
      var j :| 0 <= j < |nodes| && nodes[j] == d;
      assert keys[j] == Some(id);
      DistinctKeysAre(keys, id);
      var r :| r in table.rows && r.id == id;
      var rows := Selected(table.rows, And(s, IdentityIDIn(ids)));
      AndIn(table.rows, s, IdentityIDIn(ids), r);
      var i :| 0 <= i < |rows| && rows[i] == r;
      assert ids != [] && identities[i].row.id == id;
      LastIs(identities, IsIdentity(id));
      assert IsIdentity(id)(identities[i]) && identities[i] in identities;
    } else if d.row.identityID.Some? {
      LastIs(identities, IsIdentity(d.row.identityID.value));
    }
  }

  /** Loading the edge from identities to decisions and loading it back from decisions to identities
      connect the same pairs. */
  lemma InverseEdgesAgree(identityTable: Table<IdentityRow>, decisionTable: Table<DecisionRow>,
                          s: Selection<DecisionRow>, cs: set<string>, identities: seq<Identity>,
                          fetchedDecisions: seq<Decision>,
                          t: Selection<IdentityRow>, ct: set<string>, decisions: seq<Decision>,
                          fetchedIdentities: seq<Identity>,
                          x: Identity, d: Decision)
    requires DecisionsLoaded(decisionTable, s, cs, identities, fetchedDecisions) && "id" in cs && "identity_id" in cs
    requires IdentitiesLoaded(identityTable, t, ct, decisions, fetchedIdentities) && "id" in ct
    requires TakesAll(s) && TakesAll(t) && DistinctBy(decisionTable.rows, DecisionRowID)
    requires x in identities && exists r <- identityTable.rows :: r.id == x.row.id
    requires d in decisions && exists r <- decisionTable.rows :: r.id == d.row.id && r.identityID == d.row.identityID
    ensures (exists e <- x.decisions :: e.row.id == d.row.id) <==> (d.identity != null && d.identity.row.id == x.row.id)
  {
    var r :| r in decisionTable.rows && r.id == d.row.id && r.identityID == d.row.identityID;
    ListedIfReferred(decisionTable, s, cs, identities, fetchedDecisions, x, r);
    ReferredIsAssigned(identityTable, t, ct, decisions, fetchedIdentities, d, x.row.id);
  }
}
