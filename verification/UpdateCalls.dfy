/** From the calls on an update builder to the stored accounts. */
module UpdateCalls {
  import opened Wrappers
  import opened AccountSchema
  import opened AccountCreate
  import opened AccountMutations
  import opened EdgePlan
  import opened FieldPlan
  import opened AccountUpdate
  import opened CreatedRows

  datatype MutationCall =
    | OnField(column: Column, field: FieldCall)
    | OnGroups(groups: EdgeCall)
    | OnProxy(proxy: ProxyCall)
    | OnUsageLogs(usageLogs: EdgeCall)

  /** The columns that update builders have setters for. */
  predicate Updatable(c: Column) {
    Settable(c) && c != CreatedAt
  }

  /** The calls that update builders offer, with the types of their parameters. */
  predicate Offered(call: MutationCall) {
    call.OnField? ==>
      && Updatable(call.column)
      && match call.field
         case SetField(v) => Fits(v, DeclaredType(call.column))
         case ClearField => Nillable(call.column)
         case AddField(amount) => Numeric(call.column) && Fits(amount, DeclaredType(call.column))
         case ResetField => true
  }

  const NO_CHANGES := Changes(map[], map[], {}, UNCHANGED, NO_PROXY_CHANGES, UNCHANGED)

  function ColumnChange(c: Changes, col: Column): FieldChange {
    FieldChange(if col in c.fields then Some(c.fields[col]) else None, col in c.cleared,
                if col in c.added then Some(c.added[col]) else None)
  }

  function Put(m: FieldMap, col: Column, v: Option<Value>): FieldMap {
    if v.Some? then m[col := v.value] else m - {col}
  }

  function DoCall(c: Changes, call: MutationCall): Changes {
    match call
    case OnField(col, field) =>
      var s := DoField(ColumnChange(c, col), field);
      c.(fields := Put(c.fields, col, s.value), added := Put(c.added, col, s.added),
         cleared := if s.cleared then c.cleared + {col} else c.cleared - {col})
    case OnGroups(groups) => c.(groups := Do(c.groups, groups))
    case OnProxy(proxy) => c.(proxy := DoProxy(c.proxy, proxy))
    case OnUsageLogs(usageLogs) => c.(usageLogs := Do(c.usageLogs, usageLogs))
  }

  function DoCalls(calls: seq<MutationCall>): Changes {
    if calls == [] then NO_CHANGES else DoCall(DoCalls(calls[..|calls| - 1]), calls[|calls| - 1])
  }

  // ----- the calls on each part -----

  function FieldCalls(calls: seq<MutationCall>, col: Column): seq<FieldCall> {
    if calls == [] then []
    else
      var last := calls[|calls| - 1];
      FieldCalls(calls[..|calls| - 1], col) + if last.OnField? && last.column == col then [last.field] else []
  }

  function GroupCalls(calls: seq<MutationCall>): seq<EdgeCall> {
    if calls == [] then []
    else
      var last := calls[|calls| - 1];
      GroupCalls(calls[..|calls| - 1]) + if last.OnGroups? then [last.groups] else []
  }

  function ProxyCalls(calls: seq<MutationCall>): seq<ProxyCall> {
    if calls == [] then []
    else
      var last := calls[|calls| - 1];
      ProxyCalls(calls[..|calls| - 1]) + if last.OnProxy? then [last.proxy] else []
  }

  function UsageLogCalls(calls: seq<MutationCall>): seq<EdgeCall> {
    if calls == [] then []
    else
      var last := calls[|calls| - 1];
      UsageLogCalls(calls[..|calls| - 1]) + if last.OnUsageLogs? then [last.usageLogs] else []
  }

  lemma ColumnStep(c: Changes, call: MutationCall, col: Column)
    ensures ColumnChange(DoCall(c, call), col) ==
            if call.OnField? && call.column == col then DoField(ColumnChange(c, col), call.field)
            else ColumnChange(c, col)
  {}

  lemma {:induction false} ColumnAfter(calls: seq<MutationCall>, col: Column)
    ensures ColumnChange(DoCalls(calls), col) == DoFieldAll(UNTOUCHED, FieldCalls(calls, col))
  {
    if calls != [] {
      var init, last := calls[..|calls| - 1], calls[|calls| - 1];
      ColumnAfter(init, col);
      ColumnStep(DoCalls(init), last, col);
      var fs := FieldCalls(init, col);
      if last.OnField? && last.column == col {
        assert FieldCalls(calls, col) == fs + [last.field] && (fs + [last.field])[..|fs|] == fs;
      } else {
        assert FieldCalls(calls, col) == fs;
      }
    }
  }

  lemma {:induction false} EdgesAfter(calls: seq<MutationCall>)
    ensures DoCalls(calls).groups == DoAll(UNCHANGED, GroupCalls(calls))
    ensures DoCalls(calls).usageLogs == DoAll(UNCHANGED, UsageLogCalls(calls))
    ensures DoCalls(calls).proxy == DoProxyAll(NO_PROXY_CHANGES, ProxyCalls(calls))
  {
    if calls != [] {
      var init, last := calls[..|calls| - 1], calls[|calls| - 1];
      EdgesAfter(init);
      var g, p, u := GroupCalls(init), ProxyCalls(init), UsageLogCalls(init);
      assert g + [] == g && p + [] == p && u + [] == u;
      match last {
        case OnGroups(call) => DoAllSnoc(UNCHANGED, g, call);
        case OnUsageLogs(call) => DoAllSnoc(UNCHANGED, u, call);
        case OnProxy(call) => assert (p + [call])[..|p|] == p;
        case OnField(_, _) =>
      }
    }
  }

  predicate OnlyOffered(c: Changes) {
    && (forall col <- c.cleared :: Nillable(col) && Updatable(col))
    && (forall col <- c.added :: Numeric(col))
  }

  lemma {:induction false} OfferedChanges(calls: seq<MutationCall>)
    requires forall call <- calls :: Offered(call)
    ensures OnlyOffered(DoCalls(calls))
  {
    if calls != [] {
      OfferedChanges(calls[..|calls| - 1]);
      assert Offered(calls[|calls| - 1]);
    }
  }

  lemma {:induction false} AmountsOffered(calls: seq<MutationCall>, col: Column)
    requires Updatable(col) && forall call <- calls :: Offered(call)
    ensures AmountsFit(FieldCalls(calls, col), DeclaredType(col))
  {
    if calls != [] {
      AmountsOffered(calls[..|calls| - 1], col);
      assert Offered(calls[|calls| - 1]);
    }
  }

  // ----- what is compiled from them -----

  lemma {:induction false} AddedIn(m: FieldMap, cs: seq<Column>, col: Column)
    requires forall c <- m :: Numeric(c)
    ensures FieldIn(AddedNumbers(m, cs), col) == if col in m && col in cs then Some(m[col]) else None
  {
    if cs != [] {
      var rest := AddedNumbers(m, cs[1..]);
      AddedIn(m, cs[1..], col);
      assert cs == [cs[0]] + cs[1..];
      if cs[0] in m {
        assert AddedNumbers(m, cs) == [FieldSpec(cs[0], m[cs[0]])] + rest;
      } else {
        assert AddedNumbers(m, cs) == rest;
      }
    }
  }

  lemma {:induction false} ClearedIn(c: Changes, cs: seq<Column>, col: Column)
    requires forall x <- c.cleared :: Nillable(x)
    ensures col in ClearedColumns(c, cs) <==> col in c.cleared && col in cs
  {
    if cs != [] {
      ClearedIn(c, cs[1..], col);
      assert cs == [cs[0]] + cs[1..];
    }
  }

  lemma UpdatableIsCompiled(col: Column)
    requires Updatable(col)
    ensures col in UPDATE_ORDER
  {}

  lemma CompiledIsUpdatable(i: nat)
    requires i < |UPDATE_ORDER|
    ensures Updatable(UPDATE_ORDER[i])
  {}

  lemma NumbersOfUpdates(col: Column)
    ensures Numeric(col) <==> Updatable(col) && IsNumber(DeclaredType(col))
  {}

  /** The columns that an update writes are those with setters, and amounts go to the numbers among them. */
  lemma UpdateColumns(col: Column)
    ensures col in UPDATE_ORDER <==> Updatable(col)
    ensures Numeric(col) <==> Updatable(col) && IsNumber(DeclaredType(col))
  {
    NumbersOfUpdates(col);
    if Updatable(col) {
      UpdatableIsCompiled(col);
    }
    if col in UPDATE_ORDER {
      var i :| 0 <= i < |UPDATE_ORDER| && UPDATE_ORDER[i] == col;
      CompiledIsUpdatable(i);
    }
  }

  /** Updates go through the columns in the order of creates. */
  lemma PlaceOfUpdate(i: nat)
    requires i < |UPDATE_ORDER|
    ensures Place(UPDATE_ORDER[i]) == i + 1
  {}

  lemma UpdateOrderDistinct()
    ensures Distinct(UPDATE_ORDER)
  {
    forall i | 0 <= i < |UPDATE_ORDER| ensures Place(UPDATE_ORDER[i]) == i + 1 {
      PlaceOfUpdate(i);
    }
  }

  function NumbersOf(m: FieldMap): FieldMap {
    map c | c in m && Numeric(c) :: m[c]
  }

  lemma {:induction false} NumbersAreFields(m: FieldMap, cs: seq<Column>)
    ensures AddedNumbers(m, cs) == SpecFields(NumbersOf(m), cs)
  {
    if cs != [] {
      NumbersAreFields(m, cs[1..]);
    }
  }

  lemma {:induction false} ClearedDistinct(c: Changes, cs: seq<Column>)
    requires Distinct(cs)
    ensures Distinct(ClearedColumns(c, cs)) && forall x <- ClearedColumns(c, cs) :: x in cs
  {
    if cs != [] {
      var rest := ClearedColumns(c, cs[1..]);
      ClearedDistinct(c, cs[1..]);
      assert cs == [cs[0]] + cs[1..];
      forall j | 0 <= j < |rest| ensures rest[j] != cs[0] {
        assert rest[j] in cs[1..];
      }
    }
  }

  ghost predicate EachOnce(fields: seq<FieldSpec>) {
    forall i, j :: 0 <= i < j < |fields| ==> fields[i].column != fields[j].column
  }

  lemma FieldsOnce(m: FieldMap, cs: seq<Column>)
    requires Distinct(cs)
    ensures EachOnce(SpecFields(m, cs))
  {
    SpecFieldsDistinct(m, cs);
  }

  lemma AddedOnce(m: FieldMap, cs: seq<Column>)
    requires Distinct(cs)
    ensures EachOnce(AddedNumbers(m, cs))
  {
    NumbersAreFields(m, cs);
    FieldsOnce(NumbersOf(m), cs);
  }

  /** No column is set, added to or cleared twice by one statement. */
  lemma CompiledOnce(c: Changes)
    ensures var spec := CompileUpdate(c);
            EachOnce(spec.setFields) && EachOnce(spec.addFields) && Distinct(spec.clearFields)
  {
    UpdateOrderDistinct();
    FieldsOnce(c.fields, UPDATE_ORDER);
    AddedOnce(c.added, UPDATE_ORDER);
    ClearedDistinct(c, UPDATE_ORDER);
  }

  /** The specification holds for every column the operations that its changes ask for. */
  lemma CompiledColumn(c: Changes, col: Column)
    requires Updatable(col) && OnlyOffered(c)
    ensures SpecChange(CompileUpdate(c), col) == ColumnChange(c, col)
  {
    UpdatableIsCompiled(col);
    FieldInSpec(c.fields, UPDATE_ORDER, col);
    AddedIn(c.added, UPDATE_ORDER, col);
    ClearedIn(c, UPDATE_ORDER, col);
  }

  // ----- what is stored -----

  predicate StoredFits(values: map<Column, Value>) {
    forall c <- values :: !c.Selected? ==> Fits(values[c], DeclaredType(c))
  }

  /** The column holds what its calls since the last reset say, one by one, unless these set it after a
      clear or add to it after a set or a clear. */
  ghost predicate ColumnEndsAs(calls: seq<MutationCall>, col: Column, before: Stored, after: Stored) {
    var r := SinceReset(FieldCalls(calls, col));
    Harmonious(r) ==> after.At(col) == ReplayField(r, before.At(col))
  }

  /** The edge holds what its calls since the last reset say, one by one, and what leaked through a
      clear. */
  predicate EdgeEndsAs(calls: seq<EdgeCall>, before: set<int>, after: set<int>) {
    var r := EdgeSinceReset(calls);
    after == ReplayFrom(r, before) + Leaked(UNCHANGED, {}, r)
  }

  ghost predicate EndsAs(calls: seq<MutationCall>, before: Stored, after: Stored) {
    && (forall col :: Updatable(col) ==> ColumnEndsAs(calls, col, before, after))
    && EdgeEndsAs(GroupCalls(calls), before.groups, after.groups)
    && EdgeEndsAs(UsageLogCalls(calls), before.usageLogs, after.usageLogs)
    && forall p: Option<int> :: before.proxy == AsSet(p) ==>
         exists q: Option<int> :: after.proxy == AsSet(q) && ProxyEndsAs(ProxyCalls(calls), p, q)
  }

  lemma ColumnSaved(calls: seq<MutationCall>, col: Column, engine: FieldEngine, before: Stored)
    requires Honours(engine) && (forall call <- calls :: Offered(call)) && StoredFits(before.values) && Updatable(col)
    ensures ColumnEndsAs(calls, col, before, Apply(CompileUpdate(DoCalls(calls)), engine, before))
  {
    var fs := FieldCalls(calls, col);
    OfferedChanges(calls);
    CompiledColumn(DoCalls(calls), col);
    ColumnAfter(calls, col);
    AmountsOffered(calls, col);
    ContestedExactlyWhen(fs);
    if Harmonious(SinceReset(fs)) {
      SavedFieldAsCalled(fs, DeclaredType(col), before.At(col));
    }
  }

  /** What an uncontested column holds then. */
  lemma ColumnComesTo(calls: seq<MutationCall>, col: Column, engine: FieldEngine, before: Stored)
    requires Honours(engine) && (forall call <- calls :: Offered(call)) && StoredFits(before.values) && Updatable(col)
    ensures var r, after := SinceReset(FieldCalls(calls, col)), Apply(CompileUpdate(DoCalls(calls)), engine, before);
            Harmonious(r) ==> ComesTo(r, DeclaredType(col), before.At(col), after.At(col))
  {
    ColumnSaved(calls, col, engine, before);
    AmountsOffered(calls, col);
    SinceResetIn(FieldCalls(calls, col));
    ReplayComesTo(SinceReset(FieldCalls(calls, col)), DeclaredType(col), before.At(col));
  }

  /** Saving a fresh mutation after any calls leaves every column and every edge of an account as the calls
      say, with the stated exceptions. */
  lemma SavedEndsAs(calls: seq<MutationCall>, engine: FieldEngine, before: Stored)
    requires Honours(engine) && (forall call <- calls :: Offered(call)) && StoredFits(before.values)
    ensures EndsAs(calls, before, Apply(CompileUpdate(DoCalls(calls)), engine, before))
  {
    var after := Apply(CompileUpdate(DoCalls(calls)), engine, before);
    forall col | Updatable(col) ensures ColumnEndsAs(calls, col, before, after) {
      ColumnSaved(calls, col, engine, before);
    }
    EdgesSaved(calls, engine, before);
    forall p: Option<int> | before.proxy == AsSet(p)
      ensures exists q: Option<int> :: after.proxy == AsSet(q) && ProxyEndsAs(ProxyCalls(calls), p, q)
    {
      ProxySaved(calls, engine, before, p);
      ProxySavedAsCalled(ProxyCalls(calls), p);
    }
  }

  lemma ProxySaved(calls: seq<MutationCall>, engine: FieldEngine, before: Stored, p: Option<int>)
    requires before.proxy == AsSet(p)
    ensures var q := ProxyMeaning(DoProxyAll(NO_PROXY_CHANGES, ProxyCalls(calls)), p);
            Apply(CompileUpdate(DoCalls(calls)), engine, before).proxy == AsSet(q)
  {
    EdgesAfter(calls);
    PlanMeansChanges(DoCalls(calls), engine, before, p);
  }

  lemma EdgesSaved(calls: seq<MutationCall>, engine: FieldEngine, before: Stored)
    ensures var after := Apply(CompileUpdate(DoCalls(calls)), engine, before);
            && EdgeEndsAs(GroupCalls(calls), before.groups, after.groups)
            && EdgeEndsAs(UsageLogCalls(calls), before.usageLogs, after.usageLogs)
  {
    EdgesAfter(calls);
    PlanMeansChanges(DoCalls(calls), engine, before.(proxy := {}), None);
    SavedFromScratch(GroupCalls(calls), before.groups);
    SavedFromScratch(UsageLogCalls(calls), before.usageLogs);
  }

  /** A column that ends as its calls say, one by one, whatever engine honours uncontested operations. */
  ghost predicate AlwaysAsCalled(calls: seq<MutationCall>, col: Column) {
    forall engine: FieldEngine, before: Stored :: Honours(engine) && StoredFits(before.values) ==>
      Apply(CompileUpdate(DoCalls(calls)), engine, before).At(col) ==
      ReplayField(SinceReset(FieldCalls(calls, col)), before.At(col))
  }

  /** The exception for columns is exact: a column always ends as its calls say if and only if the calls
      since the last reset end in a clear, end in a set without a clear, or only add. */
  lemma ColumnEndsAsCalledExactlyWhen(calls: seq<MutationCall>, col: Column)
    requires (forall call <- calls :: Offered(call)) && Updatable(col)
    ensures AlwaysAsCalled(calls, col) <==> Harmonious(SinceReset(FieldCalls(calls, col)))
  {
    if Harmonious(SinceReset(FieldCalls(calls, col))) {
      forall engine: FieldEngine, before: Stored | Honours(engine) && StoredFits(before.values)
        ensures ColumnEndsAs(calls, col, before, Apply(CompileUpdate(DoCalls(calls)), engine, before))
      {
        ColumnSaved(calls, col, engine, before);
      }
    } else {
      ContestedIsOpen(calls, col);
    }
  }

  lemma ContestedIsOpen(calls: seq<MutationCall>, col: Column)
    requires (forall call <- calls :: Offered(call)) && Updatable(col)
    requires !Harmonious(SinceReset(FieldCalls(calls, col)))
    ensures !AlwaysAsCalled(calls, col)
  {
    var replayed := ReplayField(SinceReset(FieldCalls(calls, col)), None);
    var other := if replayed == None then Some(Zero(TypeInt)) else None;
    var before := Stored(map[], {}, {}, {});
    EngineHonours(other);
    ContestedHolds(calls, col, other, before);
  }

  lemma ContestedHolds(calls: seq<MutationCall>, col: Column, other: Option<Value>, before: Stored)
    requires (forall call <- calls :: Offered(call)) && Updatable(col)
    requires !Harmonious(SinceReset(FieldCalls(calls, col)))
    ensures Apply(CompileUpdate(DoCalls(calls)), Engine(other), before).At(col) == other
  {
    OfferedChanges(calls);
    CompiledColumn(DoCalls(calls), col);
    ColumnAfter(calls, col);
    ContestedExactlyWhen(FieldCalls(calls, col));
    EngineDoes(other, CompileUpdate(DoCalls(calls)), before.values, col);
  }

  // ----- performing them -----

  method Perform(m: AccountMutation, call: MutationCall)
    requires Offered(call)
    modifies m
    ensures Snapshot(m) == DoCall(old(Snapshot(m)), call)
    ensures m.id == old(m.id) && m.done == old(m.done)
  {
    match call {
      case OnField(c, field) =>
        PerformOnField(m, c, field);
      case OnGroups(Add(ids)) =>
        m.AddGroupIDs(ids);
      case OnGroups(Remove(ids)) =>
        m.RemoveGroupIDs(ids);
      case OnGroups(Clear) =>
        m.ClearGroups();
      case OnGroups(Reset) =>
        m.ResetGroups();
      case OnProxy(proxy) =>
        m.ChangeProxy(proxy);
      case OnUsageLogs(Add(ids)) =>
        m.AddUsageLogIDs(ids);
      case OnUsageLogs(Remove(ids)) =>
        m.RemoveUsageLogIDs(ids);
      case OnUsageLogs(Clear) =>
        m.ClearUsageLogs();
      case OnUsageLogs(Reset) =>
        m.ResetUsageLogs();
    }
  }

  method PerformOnField(m: AccountMutation, c: Column, call: FieldCall)
    requires Offered(OnField(c, call))
    modifies m`fields, m`addedFields, m`clearedFields
    ensures Snapshot(m) == DoCall(old(Snapshot(m)), OnField(c, call))
  {
    match call {
      case SetField(v) =>
        m.Set(c, v);
      case ClearField =>
        m.Clear(c);
      case AddField(amount) =>
        m.AddNumber(c, amount);
      case ResetField =>
        m.ResetColumn(c);
    }
  }
}
