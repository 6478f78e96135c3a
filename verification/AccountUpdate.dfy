/** The two update builders: the compilation of a mutation into field and edge operations, what those
    operations do to the accounts, and the agreement of updating one account with updating many. */
module AccountUpdate {
  import opened Wrappers
  import opened AccountSchema
  import opened AccountCreate
  import opened AccountMutations
  import opened EdgePlan
  import opened FieldPlan

  /** Everything an update builder reads of its mutation; that proxy_id was cleared is part of the proxy
      changes. */
  datatype Changes = Changes(
    fields: FieldMap,
    added: FieldMap,
    cleared: set<Column>,
    groups: EdgeChanges,
    proxy: ProxyChanges,
    usageLogs: EdgeChanges)

  function Snapshot(m: AccountMutation): Changes
    reads m
  {
    Changes(m.fields, m.addedFields, m.clearedFields - {ProxyID}, m.GroupChanges(), m.ProxyState(), m.UsageLogChanges())
  }

  /** A clear edge without targets stands for all of them. */
  datatype UpdateSpec = UpdateSpec(
    setFields: seq<FieldSpec>,
    addFields: seq<FieldSpec>,
    clearFields: seq<Column>,
    clearEdges: seq<EdgeSpec>,
    addEdges: seq<EdgeSpec>)

  const EMPTY_SPEC := UpdateSpec([], [], [], [], [])

  /** The columns an update may write; created_at is immutable. */
  const UPDATE_ORDER: seq<Column> :=
    [UpdatedAt, DeletedAt, Name, Notes, Platform, Type, Credentials, Extra, Concurrency, LoadFactor,
     Priority, RateMultiplier, Status, ErrorMessage, LastUsedAt, ExpiresAt, AutoPauseOnExpired,
     Schedulable, RateLimitedAt, RateLimitResetAt, OverloadUntil, TempUnschedulableUntil,
     TempUnschedulableReason, SessionWindowStart, SessionWindowEnd, SessionWindowStatus]

  predicate Numeric(c: Column) {
    c in {Concurrency, LoadFactor, Priority, RateMultiplier}
  }

  function ClearedColumns(c: Changes, cs: seq<Column>): seq<Column> {
    if cs == [] then []
    else (if Nillable(cs[0]) && cs[0] in c.cleared then [cs[0]] else []) + ClearedColumns(c, cs[1..])
  }

  function AddedNumbers(m: FieldMap, cs: seq<Column>): seq<FieldSpec> {
    if cs == [] then []
    else (if Numeric(cs[0]) && cs[0] in m then [FieldSpec(cs[0], m[cs[0]])] else []) + AddedNumbers(m, cs[1..])
  }

  function ClearsOf(rel: Rel, edge: Edge, c: EdgeChanges): seq<EdgeSpec> {
    (if c.cleared then [EdgeSpec(rel, edge, {})] else []) +
    (if c.removed != {} && !c.cleared then [EdgeSpec(rel, edge, c.removed)] else [])
  }

  function AddsOf(rel: Rel, edge: Edge, targets: set<int>): seq<EdgeSpec> {
    if targets != {} then [EdgeSpec(rel, edge, targets)] else []
  }

  function ClearEdges(c: Changes): seq<EdgeSpec> {
    ClearsOf(M2M, Groups, c.groups) +
    (if c.proxy.Cleared() then [EdgeSpec(M2O, Proxy, {})] else []) +
    ClearsOf(O2M, UsageLogs, c.usageLogs)
  }

  function AddEdges(c: Changes): seq<EdgeSpec> {
    AddsOf(M2M, Groups, c.groups.added) +
    (if c.proxy.target.Some? then [EdgeSpec(M2O, Proxy, {c.proxy.target.value})] else []) +
    AddsOf(O2M, UsageLogs, c.usageLogs.added)
  }

  function CompileUpdate(c: Changes): UpdateSpec {
    UpdateSpec(SpecFields(c.fields, UPDATE_ORDER), AddedNumbers(c.added, UPDATE_ORDER),
               ClearedColumns(c, UPDATE_ORDER), ClearEdges(c), AddEdges(c))
  }

  // ----- what a specification does -----

  /** An account as stored, with its connections; proxy holds at most one. */
  datatype Stored = Stored(values: map<Column, Value>, groups: set<int>, proxy: set<int>, usageLogs: set<int>) {
    function At(c: Column): Option<Value> {
      ValueAt(values, c)
    }
  }

  /** How the database carries out the field operations on a row. */
  type FieldEngine = (UpdateSpec, map<Column, Value>) -> map<Column, Value>

  function ValueAt(values: map<Column, Value>, c: Column): Option<Value> {
    if c in values then Some(values[c]) else None
  }

  /** The operations of a specification on one column. */
  function SpecChange(spec: UpdateSpec, c: Column): FieldChange {
    FieldChange(FieldIn(spec.setFields, c), c in spec.clearFields, FieldIn(spec.addFields, c))
  }

  /** A column with one operation is set, cleared or added to, and one without stays; several operations on
      the same column are left open. */
  ghost predicate Honours(engine: FieldEngine) {
    forall spec, values, c ::
      !Contested(SpecChange(spec, c)) ==>
        ValueAt(engine(spec, values), c) == FieldMeaning(SpecChange(spec, c), ValueAt(values, c))
  }

  /** An engine that leaves the given value in contested columns. */
  function Engine(contested: Option<Value>): FieldEngine {
    (spec: UpdateSpec, values: map<Column, Value>) =>
      var touched := values.Keys + SpecColumns(spec.setFields) + SpecColumns(spec.addFields);
      map c | c in touched && Outcome(spec, values, c, contested).Some? :: Outcome(spec, values, c, contested).value
  }

  function SpecColumns(fields: seq<FieldSpec>): set<Column> {
    set f | f in fields :: f.column
  }

  function Outcome(spec: UpdateSpec, values: map<Column, Value>, c: Column, contested: Option<Value>): Option<Value> {
    var change := SpecChange(spec, c);
    if Contested(change) then contested else FieldMeaning(change, ValueAt(values, c))
  }

  lemma {:induction false} FieldInColumns(fields: seq<FieldSpec>, c: Column)
    ensures FieldIn(fields, c).Some? <==> c in SpecColumns(fields)
  {
    if fields != [] {
      FieldInColumns(fields[1..], c);
      assert fields == [fields[0]] + fields[1..];
      assert fields[0].column in SpecColumns(fields);
      assert forall f <- fields[1..] :: f in fields;
    }
  }

  lemma EngineDoes(contested: Option<Value>, spec: UpdateSpec, values: map<Column, Value>, c: Column)
    ensures ValueAt(Engine(contested)(spec, values), c) == Outcome(spec, values, c, contested)
  {
    FieldInColumns(spec.setFields, c);
    FieldInColumns(spec.addFields, c);
  }

  lemma EngineHonours(contested: Option<Value>)
    ensures Honours(Engine(contested))
  {
    forall spec, values, c | !Contested(SpecChange(spec, c))
      ensures ValueAt(Engine(contested)(spec, values), c) == FieldMeaning(SpecChange(spec, c), ValueAt(values, c))
    {
      EngineDoes(contested, spec, values, c);
    }
  }

  /** A clear without targets disconnects everything. */
  function Cleared(specs: seq<EdgeSpec>, edge: Edge, now: set<int>): set<int>
    decreases specs
  {
    if specs == [] then now
    else
      var s := specs[0];
      Cleared(specs[1..], edge, if s.edge != edge then now else if s.targets == {} then {} else now - s.targets)
  }

  /** An addition to an edge with one target overwrites it. */
  function Added(specs: seq<EdgeSpec>, edge: Edge, now: set<int>): set<int>
    decreases specs
  {
    if specs == [] then now
    else
      var s := specs[0];
      Added(specs[1..], edge, if s.edge != edge then now else if s.rel.M2O? then s.targets else now + s.targets)
  }

  /** Clears come before additions. */
  function Connected(spec: UpdateSpec, edge: Edge, now: set<int>): set<int> {
    Added(spec.addEdges, edge, Cleared(spec.clearEdges, edge, now))
  }

  function Apply(spec: UpdateSpec, engine: FieldEngine, s: Stored): Stored {
    Stored(engine(spec, s.values), Connected(spec, Groups, s.groups), Connected(spec, Proxy, s.proxy),
           Connected(spec, UsageLogs, s.usageLogs))
  }

  lemma {:induction false} ClearedConcat(a: seq<EdgeSpec>, b: seq<EdgeSpec>, edge: Edge, now: set<int>)
    ensures Cleared(a + b, edge, now) == Cleared(b, edge, Cleared(a, edge, now))
    decreases a
  {
    if a == [] {
      assert a + b == b;
    } else {
      var s := a[0];
      assert (a + b)[1..] == a[1..] + b;
      ClearedConcat(a[1..], b, edge, if s.edge != edge then now else if s.targets == {} then {} else now - s.targets);
    }
  }

  lemma {:induction false} AddedConcat(a: seq<EdgeSpec>, b: seq<EdgeSpec>, edge: Edge, now: set<int>)
    ensures Added(a + b, edge, now) == Added(b, edge, Added(a, edge, now))
    decreases a
  {
    if a == [] {
      assert a + b == b;
    } else {
      var s := a[0];
      assert (a + b)[1..] == a[1..] + b;
      AddedConcat(a[1..], b, edge, if s.edge != edge then now else if s.rel.M2O? then s.targets else now + s.targets);
    }
  }

  lemma ClearsOfMeaning(rel: Rel, own: Edge, c: EdgeChanges, edge: Edge, now: set<int>)
    ensures Cleared(ClearsOf(rel, own, c), edge, now) ==
            if own != edge then now else if c.cleared then {} else now - c.removed
  {
    var all := EdgeSpec(rel, own, {});
    var some := EdgeSpec(rel, own, c.removed);
    assert [all][1..] == [] && [some][1..] == [];
    assert [all] + [] == [all] && [] + [some] == [some];
  }

  function AsSet(o: Option<int>): set<int> {
    if o.Some? then {o.value} else {}
  }

  /** The compiled plan means, for each edge, what the pending changes mean: everything is dropped if
      the edge was cleared and else what was removed, and then what was added is connected. */
  lemma PlanMeansChanges(c: Changes, engine: FieldEngine, s: Stored, proxy: Option<int>)
    requires s.proxy == AsSet(proxy)
    ensures var after := Apply(CompileUpdate(c), engine, s);
            && after.groups == Meaning(c.groups, s.groups)
            && after.usageLogs == Meaning(c.usageLogs, s.usageLogs)
            && after.proxy == AsSet(ProxyMeaning(c.proxy, proxy))
  {
    PlanClears(c, Groups, s.groups);
    PlanClears(c, UsageLogs, s.usageLogs);
    PlanClears(c, Proxy, s.proxy);
    PlanAdds(c, Groups, Cleared(ClearEdges(c), Groups, s.groups));
    PlanAdds(c, UsageLogs, Cleared(ClearEdges(c), UsageLogs, s.usageLogs));
    PlanAdds(c, Proxy, Cleared(ClearEdges(c), Proxy, s.proxy));
  }

  lemma PlanClears(c: Changes, edge: Edge, now: set<int>)
    ensures Cleared(ClearEdges(c), edge, now) ==
            match edge
            case Groups => if c.groups.cleared then {} else now - c.groups.removed
            case Proxy => if c.proxy.Cleared() then {} else now
            case UsageLogs => if c.usageLogs.cleared then {} else now - c.usageLogs.removed
  {
    var g := ClearsOf(M2M, Groups, c.groups);
    var p := if c.proxy.Cleared() then [EdgeSpec(M2O, Proxy, {})] else [];
    var u := ClearsOf(O2M, UsageLogs, c.usageLogs);
    ClearedConcat(g + p, u, edge, now);
    ClearedConcat(g, p, edge, now);
    var afterG := Cleared(g, edge, now);
    var afterP := Cleared(p, edge, afterG);
    ClearsOfMeaning(M2M, Groups, c.groups, edge, now);
    ClearsOfMeaning(O2M, UsageLogs, c.usageLogs, edge, afterP);
    if c.proxy.Cleared() {
      assert [EdgeSpec(M2O, Proxy, {})][1..] == [];
    }
  }

  lemma PlanAdds(c: Changes, edge: Edge, now: set<int>)
    ensures Added(AddEdges(c), edge, now) ==
            match edge
            case Groups => now + c.groups.added
            case Proxy => if c.proxy.target.Some? then {c.proxy.target.value} else now
            case UsageLogs => now + c.usageLogs.added
  {
    var g := AddsOf(M2M, Groups, c.groups.added);
    var p := if c.proxy.target.Some? then [EdgeSpec(M2O, Proxy, {c.proxy.target.value})] else [];
    var u := AddsOf(O2M, UsageLogs, c.usageLogs.added);
    AddedConcat(g + p, u, edge, now);
    AddedConcat(g, p, edge, now);
    AddsOfMeaning(M2M, Groups, c.groups.added, edge, now);
    AddsOfMeaning(O2M, UsageLogs, c.usageLogs.added, edge, Added(p, edge, Added(g, edge, now)));
    if c.proxy.target.Some? {
      assert [EdgeSpec(M2O, Proxy, {c.proxy.target.value})][1..] == [];
    }
  }

  lemma AddsOfMeaning(rel: Rel, own: Edge, targets: set<int>, edge: Edge, now: set<int>)
    requires !rel.M2O?
    ensures Added(AddsOf(rel, own, targets), edge, now) == if own != edge then now else now + targets
  {
    assert [EdgeSpec(rel, own, targets)][1..] == [];
  }

  predicate ClearsAll(specs: seq<EdgeSpec>, edge: Edge) {
    exists s <- specs :: s.edge == edge && s.targets == {}
  }

  lemma ClearsAllConcat(a: seq<EdgeSpec>, b: seq<EdgeSpec>, edge: Edge)
    ensures ClearsAll(a + b, edge) <==> ClearsAll(a, edge) || ClearsAll(b, edge)
  {
    assert forall s <- a :: s in a + b;
    assert forall s <- b :: s in a + b;
  }

  lemma ClearsOfAll(rel: Rel, own: Edge, c: EdgeChanges, edge: Edge)
    ensures ClearsAll(ClearsOf(rel, own, c), edge) <==> edge == own && c.cleared
  {
    assert c.cleared ==> EdgeSpec(rel, own, {}) in ClearsOf(rel, own, c);
  }

  lemma ClearsAllWhen(c: Changes, edge: Edge)
    ensures ClearsAll(ClearEdges(c), edge) <==>
            match edge
            case Groups => c.groups.cleared
            case Proxy => c.proxy.Cleared()
            case UsageLogs => c.usageLogs.cleared
  {
    var g := ClearsOf(M2M, Groups, c.groups);
    var p := if c.proxy.Cleared() then [EdgeSpec(M2O, Proxy, {})] else [];
    var u := ClearsOf(O2M, UsageLogs, c.usageLogs);
    ClearsAllConcat(g + p, u, edge);
    ClearsAllConcat(g, p, edge);
    ClearsOfAll(M2M, Groups, c.groups, edge);
    ClearsOfAll(O2M, UsageLogs, c.usageLogs, edge);
    assert c.proxy.Cleared() ==> EdgeSpec(M2O, Proxy, {}) in p;
  }

  /** A removal never turns into a clear of everything: an edge is cleared without targets exactly when
      the caller cleared it. */
  lemma RemovalIsNeverClearAll(c: Changes)
    ensures ClearsAll(CompileUpdate(c).clearEdges, Groups) <==> c.groups.cleared
    ensures ClearsAll(CompileUpdate(c).clearEdges, UsageLogs) <==> c.usageLogs.cleared
    ensures ClearsAll(CompileUpdate(c).clearEdges, Proxy) <==> c.proxy.Cleared()
  {
    ClearsAllWhen(c, Groups);
    ClearsAllWhen(c, UsageLogs);
    ClearsAllWhen(c, Proxy);
  }

  // ----- the accounts and the two updates -----

  type Accounts = map<int, Stored>

  /** All accounts that satisfy the predicate are updated. */
  function UpdateMany(db: Accounts, spec: UpdateSpec, engine: FieldEngine, where: (int, Stored) -> bool): Accounts {
    map id | id in db :: if where(id, db[id]) then Apply(spec, engine, db[id]) else db[id]
  }

  function Matching(db: Accounts, where: (int, Stored) -> bool): set<int> {
    set id | id in db && where(id, db[id])
  }

  /** The accounts that are selected get the changes, and the others stay. */
  ghost predicate UpdatesSelected(before: Accounts, after: Accounts, spec: UpdateSpec, engine: FieldEngine,
                                  selected: set<int>)
  {
    && after.Keys == before.Keys
    && forall id <- before :: after[id] == if id in selected then Apply(spec, engine, before[id]) else before[id]
  }

  /** Updating one account is the bulk update restricted to its identifier: the same accounts result, and
      where the former finds nothing the latter affects nothing. */
  lemma OneIsManyRestricted(before: Accounts, after: Accounts, id: int, spec: UpdateSpec, engine: FieldEngine,
                            where: (int, Stored) -> bool)
    requires UpdatesSelected(before, after, spec, engine, if id in before && where(id, before[id]) then {id} else {})
    ensures after == UpdateMany(before, spec, engine, OnlyOne(id, where))
    ensures Matching(before, OnlyOne(id, where)) == if id in before && where(id, before[id]) then {id} else {}
  {}

  // ----- the builders -----

  const UPDATE_CHECKS: seq<CheckStep> :=
    [Validate(Name), Validate(Platform), Validate(Type), Validate(Status), Validate(SessionWindowStatus)]

  lemma {:induction false} AddedNumbersSnoc(m: FieldMap, cs: seq<Column>, col: Column)
    ensures AddedNumbers(m, cs + [col]) == AddedNumbers(m, cs) +
            if Numeric(col) && col in m then [FieldSpec(col, m[col])] else []
  {
    if cs == [] {
      assert [col][1..] == [];
    } else {
      assert (cs + [col])[1..] == cs[1..] + [col];
      AddedNumbersSnoc(m, cs[1..], col);
    }
  }

  lemma {:induction false} ClearedColumnsSnoc(c: Changes, cs: seq<Column>, col: Column)
    ensures ClearedColumns(c, cs + [col]) == ClearedColumns(c, cs) +
            if Nillable(col) && col in c.cleared then [col] else []
  {
    if cs == [] {
      assert [col][1..] == [];
    } else {
      assert (cs + [col])[1..] == cs[1..] + [col];
      ClearedColumnsSnoc(c, cs[1..], col);
    }
  }

  /** The field operations for the given columns. */
  function FieldOperations(c: Changes, cs: seq<Column>): UpdateSpec {
    EMPTY_SPEC.(setFields := SpecFields(c.fields, cs), addFields := AddedNumbers(c.added, cs),
                clearFields := ClearedColumns(c, cs))
  }

  lemma FieldOperationsSnoc(c: Changes, cs: seq<Column>, i: nat)
    requires i < |cs|
    ensures var col, spec := cs[i], FieldOperations(c, cs[..i]);
            FieldOperations(c, cs[..i + 1]) ==
            spec.(setFields := spec.setFields + if col in c.fields then [FieldSpec(col, c.fields[col])] else [],
                  addFields := spec.addFields +
                               if Numeric(col) && col in c.added then [FieldSpec(col, c.added[col])] else [],
                  clearFields := spec.clearFields + if Nillable(col) && col in c.cleared then [col] else [])
  {
    assert cs[..i + 1] == cs[..i] + [cs[i]];
    SpecFieldsSnoc(c.fields, cs[..i], cs[i]);
    AddedNumbersSnoc(c.added, cs[..i], cs[i]);
    ClearedColumnsSnoc(c, cs[..i], cs[i]);
  }

  /** The first part of both sqlSave methods: the field operations, column by column. */
  method CompileFields(m: AccountMutation, order: seq<Column>) returns (spec: UpdateSpec)
    requires ProxyID !in order
    ensures spec == FieldOperations(Snapshot(m), order)
  {
    ghost var c := Snapshot(m);
    spec := EMPTY_SPEC;
    for i := 0 to |order|
      invariant spec == FieldOperations(c, order[..i])
    {
      var col := order[i];
      FieldOperationsSnoc(c, order, i);
      if col in m.fields {
        spec := spec.(setFields := spec.setFields + [FieldSpec(col, m.fields[col])]);
      }
      if Numeric(col) && col in m.addedFields {
        spec := spec.(addFields := spec.addFields + [FieldSpec(col, m.addedFields[col])]);
      }
      if Nillable(col) && col in m.clearedFields {
        spec := spec.(clearFields := spec.clearFields + [col]);
      }
    }
    assert order[..|order|] == order;
  }

  /** One edge with targets taken from a Go map. */
  method EdgeTo(rel: Rel, edge: Edge, targets: set<int>) returns (specs: seq<EdgeSpec>)
    ensures specs == AddsOf(rel, edge, targets)
  {
    specs := [];
    var nodes := KeysInAnyOrder(targets);
    if |nodes| > 0 {
      var spec := EdgeSpec(rel, edge, {});
      for i := 0 to |nodes|
        invariant spec == EdgeSpec(rel, edge, Elements(nodes[..i]))
      {
        assert Elements(nodes[..i + 1]) == Elements(nodes[..i]) + {nodes[i]};
        spec := spec.(targets := spec.targets + {nodes[i]});
      }
      assert nodes[..|nodes|] == nodes && Elements(nodes) == targets;
      specs := [spec];
    }
  }

  /** The clears of an edge with many targets: all of them, or those that were removed if there are
      any. */
  method ClearsTo(rel: Rel, edge: Edge, cleared: bool, removed: set<int>, ghost added: set<int>)
      returns (specs: seq<EdgeSpec>)
    ensures specs == ClearsOf(rel, edge, EdgeChanges(added, removed, cleared))
  {
    specs := [];
    if cleared {
      specs := specs + [EdgeSpec(rel, edge, {})];
    }
    if |removed| > 0 && !cleared {
      var some := EdgeTo(rel, edge, removed);
      specs := specs + some;
    }
  }

  /** The second part: the edge plan. */
  method CompileEdges(m: AccountMutation, fields: UpdateSpec) returns (spec: UpdateSpec)
    requires fields.clearEdges == [] && fields.addEdges == []
    ensures spec == fields.(clearEdges := ClearEdges(Snapshot(m)), addEdges := AddEdges(Snapshot(m)))
  {
    var groups := ClearsTo(M2M, Groups, m.clearedGroups, m.removedGroups, m.groups);
    var clear := groups;
    groups := EdgeTo(M2M, Groups, m.groups);
    var add := groups;
    if m.ProxyState().Cleared() {
      clear := clear + [EdgeSpec(M2O, Proxy, {})];
    }
    if m.proxy.Some? {
      add := add + [EdgeSpec(M2O, Proxy, {m.proxy.value})];
    }
    var usageLogs := ClearsTo(O2M, UsageLogs, m.clearedUsageLogs, m.removedUsageLogs, m.usageLogs);
    clear := clear + usageLogs;
    usageLogs := EdgeTo(O2M, UsageLogs, m.usageLogs);
    add := add + usageLogs;
    spec := fields.(clearEdges := clear, addEdges := add);
  }

  /** The accounts behind a driver that performs an update entirely or fails. */
  class Store {
    const engine: FieldEngine
    const outage: Option<Error>
    var accounts: Accounts

    constructor (engine: FieldEngine, outage: Option<Error>, accounts: Accounts)
      ensures this.engine == engine && this.outage == outage && this.accounts == accounts
    {
      this.engine, this.outage, this.accounts := engine, outage, accounts;
    }

    /** The matching accounts are selected first and then updated one by one, in any order. */
    method UpdateNodes(spec: UpdateSpec, where: (int, Stored) -> bool) returns (r: Result<nat, Error>)
      modifies this
      ensures outage.Some? ==> r == Failure(outage.value) && accounts == old(accounts)
      ensures outage.None? ==>
                && r == Success(|Matching(old(accounts), where)|)
                && accounts == UpdateMany(old(accounts), spec, engine, where)
    {
      if outage.Some? {
        return Failure(outage.value);
      }
      var before := accounts;
      var ids := KeysInAnyOrder(Matching(accounts, where));
      for i := 0 to |ids|
        invariant accounts == UpdateMany(before, spec, engine, (id, _) => id in ids[..i])
      {
        assert ids[..i + 1] == ids[..i] + [ids[i]] && ids[i] in ids;
        accounts := accounts[ids[i] := Apply(spec, engine, before[ids[i]])];
      }
      assert ids[..|ids|] == ids;
      r := Success(|ids|);
    }

    method UpdateNode(id: int, spec: UpdateSpec, where: (int, Stored) -> bool) returns (r: Result<Stored, Error>)
      modifies this
      ensures outage.Some? ==> r == Failure(outage.value) && accounts == old(accounts)
      ensures outage.None? ==>
                var before := old(accounts);
                if id in before && where(id, before[id])
                  then accounts == before[id := Apply(spec, engine, before[id])] && r == Success(accounts[id])
                  else accounts == before && r == Failure(NotFound)
    {
      if outage.Some? {
        return Failure(outage.value);
      }
      if id !in accounts || !where(id, accounts[id]) {
        return Failure(NotFound);
      }
      accounts := accounts[id := Apply(spec, engine, accounts[id])];
      r := Success(accounts[id]);
    }
  }

  /** The conjunction of the predicates of a mutation. */
  function Where(predicates: seq<(int, Stored) -> bool>): (int, Stored) -> bool {
    (id, s) => forall i :: 0 <= i < |predicates| ==> predicates[i](id, s)
  }

  lemma EveryPredicate(db: Accounts, predicates: seq<(int, Stored) -> bool>)
    ensures Matching(db, Where(predicates)) == set id | id in db && forall p <- predicates :: p(id, db[id])
    ensures forall id <- db :: Where(predicates)(id, db[id]) <==> forall p <- predicates :: p(id, db[id])
  {
    forall id <- db
      ensures Where(predicates)(id, db[id]) <==> forall p <- predicates :: p(id, db[id])
    {
      if Where(predicates)(id, db[id]) {
        assert forall i :: 0 <= i < |predicates| ==> predicates[i](id, db[id]);
      }
    }
  }

  class AccountUpdateBuilder {
    const mutation: AccountMutation
    var predicates: seq<(int, Stored) -> bool>

    constructor (mutation: AccountMutation, predicates: seq<(int, Stored) -> bool>)
      ensures this.mutation == mutation && this.predicates == predicates
    {
      this.mutation, this.predicates := mutation, predicates;
    }

    method SqlSave(rt: Runtime, store: Store) returns (r: Result<nat, Error>)
      modifies store, mutation`done
      ensures var invalid := CheckOver(rt, mutation.fields, UPDATE_CHECKS);
              var where := Where(predicates);
              if invalid.Some? then r == Failure(invalid.value) && store.accounts == old(store.accounts)
              else if store.outage.Some? then r == Failure(store.outage.value) && store.accounts == old(store.accounts)
              else r == Success(|Matching(old(store.accounts), where)|) &&
                   store.accounts == UpdateMany(old(store.accounts), old(CompileUpdate(Snapshot(mutation))),
                                                store.engine, where)
      ensures r.Success? ==>
                var before := old(store.accounts);
                var selected := set id | id in before && forall p <- predicates :: p(id, before[id]);
                && r.value == |selected|
                && UpdatesSelected(before, store.accounts, old(CompileUpdate(Snapshot(mutation))), store.engine,
                                   selected)
      ensures mutation.done == (old(mutation.done) || r.Success?)
    {
      var invalid := CheckOver(rt, mutation.fields, UPDATE_CHECKS);
      if invalid.Some? {
        return Failure(invalid.value);
      }
      var spec := CompileAll(mutation);
      EveryPredicate(store.accounts, predicates);
      r := store.UpdateNodes(spec, Where(predicates));
      if r.Success? {
        mutation.done := true;
      }
    }
  }

  class AccountUpdateOneBuilder {
    const mutation: AccountMutation
    var predicates: seq<(int, Stored) -> bool>
    var fields: seq<Column>  // the columns to return, all if none are selected

    constructor (mutation: AccountMutation, predicates: seq<(int, Stored) -> bool>, fields: seq<Column>)
      ensures this.mutation == mutation && this.predicates == predicates && this.fields == fields
    {
      this.mutation, this.predicates, this.fields := mutation, predicates, fields;
    }

    /** The account is updated if it satisfies every predicate and is read back with the selected columns; a
        missing account is an error. */
    method SqlSave(rt: Runtime, store: Store) returns (r: Result<Returned, Error>)
      modifies store, mutation`done
      ensures var before, after := old(store.accounts), store.accounts;
              var refused := Refusal(rt, mutation.fields, old(mutation.CurrentID()), fields, store.outage);
              if refused.Some? then r == Failure(refused.value) && after == before
              else
                var id := old(mutation.CurrentID()).value;
                if id in before && forall p <- predicates :: p(id, before[id]) then
                  && r.Success? && id in after && ReadsBack(r.value, id, after[id], fields)
                  && UpdatesSelected(before, after, old(CompileUpdate(Snapshot(mutation))), store.engine, {id})
                else r == Failure(NotFound) && after == before
      ensures mutation.done == (old(mutation.done) || r.Success?)
    {
      var refused := Refuse(rt);
      if refused.Some? {
        return Failure(refused.value);
      }
      var id := mutation.CurrentID().value;
      var spec := CompileAll(mutation);
      r := Update(id, spec, store);
      if r.Success? {
        mutation.done := true;
      }
    }

    /** Updates the account and reads it back. */
    method Update(id: int, spec: UpdateSpec, store: Store) returns (r: Result<Returned, Error>)
      modifies store
      ensures var before, after := old(store.accounts), store.accounts;
              if store.outage.Some? then r == Failure(store.outage.value) && after == before
              else if id in before && forall p <- predicates :: p(id, before[id]) then
                && r.Success? && id in after && ReadsBack(r.value, id, after[id], fields)
                && UpdatesSelected(before, after, spec, store.engine, {id})
              else r == Failure(NotFound) && after == before
    {
      EveryPredicate(store.accounts, predicates);
      var updated := store.UpdateNode(id, spec, Where(predicates));
      r := if updated.Failure? then Failure(updated.error) else Success(Read(id, updated.value, fields));
    }

    /** What is wrong before the driver is asked. */
    method Refuse(rt: Runtime) returns (refused: Option<Error>)
      ensures refused == Refusal(rt, mutation.fields, mutation.CurrentID(), fields, None)
    {
      var invalid := CheckOver(rt, mutation.fields, UPDATE_CHECKS);
      if invalid.Some? {
        return invalid;
      }
      if mutation.CurrentID().None? {
        return Some(MissingID);
      }
      for i := 0 to |fields|
        invariant FirstInvalid(fields[i..]) == FirstInvalid(fields)
      {
        assert fields[i..][1..] == fields[i + 1..];
        if fields[i].Selected? {
          return Some(InvalidColumn(fields[i]));
        }
      }
      assert fields[|fields|..] == [];
      refused := None;
    }
  }

  /** Why an update of one account is not carried out. */
  function Refusal(rt: Runtime, fields: FieldMap, id: Option<int>, columns: seq<Column>, outage: Option<Error>):
      Option<Error>
  {
    var invalid, bad := CheckOver(rt, fields, UPDATE_CHECKS), FirstInvalid(columns);
    if invalid.Some? then invalid
    else if id.None? then Some(MissingID)
    else if bad.Some? then Some(InvalidColumn(bad.value))
    else outage
  }

  function OnlyOne(id: int, where: (int, Stored) -> bool): (int, Stored) -> bool {
    (i: int, s: Stored) => i == id && where(i, s)
  }

  /** An entity as read back after an update: all of its columns, or the selected ones. */
  datatype Returned = Returned(id: int, values: map<Column, Value>, proxy: set<int>)

  function Read(id: int, s: Stored, fields: seq<Column>): Returned {
    Returned(id, map c | c in s.values && (fields == [] || c in fields) :: s.values[c],
             if fields == [] || ProxyID in fields then s.proxy else {})
  }

  /** The entity has the stored value of every column that is read and of no other. */
  ghost predicate ReadsBack(r: Returned, id: int, s: Stored, fields: seq<Column>) {
    && r.id == id
    && (forall c :: c in r.values <==> c in s.values && (fields == [] || c in fields))
    && (forall c <- r.values :: r.values[c] == s.values[c])
    && r.proxy == if fields == [] || ProxyID in fields then s.proxy else {}
  }

  /** Both parts: the whole specification. */
  method CompileAll(m: AccountMutation) returns (spec: UpdateSpec)
    ensures spec == CompileUpdate(Snapshot(m))
  {
    spec := CompileFields(m, UPDATE_ORDER);
    spec := CompileEdges(m, spec);
  }

  /** What an update validates: every field that is set and has a validator is accepted by it, and nothing is
      required. */
  lemma UpdateChecks(rt: Runtime, m: FieldMap)
    requires ForAccounts(rt)
    ensures CheckOver(rt, m, UPDATE_CHECKS).None? <==> forall c <- m :: rt.Accepts(c, m[c])
    ensures CheckOver(rt, m, UPDATE_CHECKS).Some? ==>
              var e := CheckOver(rt, m, UPDATE_CHECKS).value;
              e.ValidatorFailed? && e.column in m && !rt.Accepts(e.column, m[e.column])
  {
    CheckOverIsAllSteps(rt, m, UPDATE_CHECKS);
    if CheckOver(rt, m, UPDATE_CHECKS).None? {
      forall c <- m ensures rt.Accepts(c, m[c]) {
        if c in VALIDATED {
          assert Validate(c) in UPDATE_CHECKS;
          assert Passes(rt, m, Validate(c));
        }
      }
    }
    FirstComplaint(rt, m, UPDATE_CHECKS);
  }

  /** Why an update of one account is refused: a value that is not accepted comes before a missing identifier,
      that before a column that the table does not have, and that before the driver. */
  lemma RefusalIs(rt: Runtime, m: FieldMap, id: Option<int>, columns: seq<Column>, outage: Option<Error>)
    requires ForAccounts(rt)
    ensures var refused, accepted := Refusal(rt, m, id, columns, outage), forall c <- m :: rt.Accepts(c, m[c]);
            && (!accepted ==> refused.Some? && refused.value.ValidatorFailed?)
            && (accepted && id.None? ==> refused == Some(MissingID))
            && (accepted && id.Some? && (forall c <- columns :: !c.Selected?) ==> refused == outage)
            && (accepted && id.Some? && !(forall c <- columns :: !c.Selected?) ==>
                  exists k :: 0 <= k < |columns| && columns[k].Selected? && refused == Some(InvalidColumn(columns[k]))
                    && forall j :: 0 <= j < k ==> !columns[j].Selected?)
  {
    UpdateChecks(rt, m);
    InvalidColumns(columns);
  }

  lemma {:induction false} InvalidColumns(cs: seq<Column>)
    ensures FirstInvalid(cs).None? <==> forall c <- cs :: !c.Selected?
    ensures FirstInvalid(cs).Some? ==>
              exists k :: 0 <= k < |cs| && cs[k].Selected? && FirstInvalid(cs).value == cs[k]
                && forall j :: 0 <= j < k ==> !cs[j].Selected?
  {
    if cs != [] {
      InvalidColumns(cs[1..]);
      assert cs == [cs[0]] + cs[1..];
      if !cs[0].Selected? && FirstInvalid(cs).Some? {
        var k :| 0 <= k < |cs[1..]| && cs[1..][k].Selected? && FirstInvalid(cs).value == cs[1..][k]
          && forall j :: 0 <= j < k ==> !cs[1..][j].Selected?;
        assert cs[k + 1] == cs[1..][k];
        forall j | 0 <= j < k + 1 ensures !cs[j].Selected? {
          assert j > 0 ==> cs[j] == cs[1..][j - 1];
        }
      }
    }
  }

  /** The first column of a selection that the table does not have. */
  function FirstInvalid(cs: seq<Column>): Option<Column> {
    if cs == [] then None else if cs[0].Selected? then Some(cs[0]) else FirstInvalid(cs[1..])
  }
}
