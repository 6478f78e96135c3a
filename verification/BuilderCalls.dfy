/** The calls that the update builders themselves offer, from the calls to the stored accounts. */
module BuilderCalls {
  import opened Wrappers
  import opened AccountSchema
  import opened AccountCreate
  import opened AccountMutations
  import opened EdgePlan
  import opened FieldPlan
  import opened AccountUpdate
  import opened UpdateCalls

  /** A method of the builder, or a method of the mutation that the builder hands out. */
  datatype BuilderCall = Direct(call: MutationCall) | OnMutation(call: MutationCall)

  predicate Resets(call: MutationCall) {
    match call
    case OnField(_, field) => field.ResetField?
    case OnGroups(groups) => groups.Reset?
    case OnProxy(proxy) => ResetsProxy(proxy)
    case OnUsageLogs(usageLogs) => usageLogs.Reset?
  }

  /** Builders have no resets of their own. */
  predicate Available(calls: seq<BuilderCall>) {
    forall c <- calls :: Offered(c.call) && (c.Direct? ==> !Resets(c.call))
  }

  /** The setters of numbers forget earlier changes to the column first. */
  predicate ResetsFirst(c: BuilderCall) {
    c.Direct? && c.call.OnField? && c.call.field.SetField? && Numeric(c.call.column)
  }

  function Expand(c: BuilderCall): seq<MutationCall> {
    if ResetsFirst(c) then [OnField(c.call.column, ResetField), c.call] else [c.call]
  }

  function Expanded(calls: seq<BuilderCall>): seq<MutationCall> {
    if calls == [] then [] else Expanded(calls[..|calls| - 1]) + Expand(calls[|calls| - 1])
  }

  /** The calls as they are written. */
  function Written(calls: seq<BuilderCall>): seq<MutationCall> {
    if calls == [] then [] else Written(calls[..|calls| - 1]) + [calls[|calls| - 1].call]
  }

  predicate OnlyDirect(calls: seq<BuilderCall>) {
    forall c <- calls :: c.Direct?
  }

  // ----- what the calls mean -----

  lemma {:induction false} ExpandedOffered(calls: seq<BuilderCall>)
    requires Available(calls)
    ensures forall call <- Expanded(calls) :: Offered(call)
  {
    if calls != [] {
      var init, last := calls[..|calls| - 1], calls[|calls| - 1];
      assert last in calls && forall c <- init :: c in calls;
      ExpandedOffered(init);
    }
  }

  lemma FieldCallsSnoc(calls: seq<MutationCall>, call: MutationCall, col: Column)
    ensures FieldCalls(calls + [call], col) ==
            if call.OnField? && call.column == col then FieldCalls(calls, col) + [call.field]
            else FieldCalls(calls, col)
  {
    assert (calls + [call])[..|calls|] == calls;
    assert FieldCalls(calls, col) + [] == FieldCalls(calls, col);
  }

  /** The calls from the last set on. */
  function FromLastSet(calls: seq<FieldCall>): (r: seq<FieldCall>)
    requires NoFieldReset(calls)
    ensures NoFieldReset(r)
  {
    if calls == [] then []
    else
      var last := calls[|calls| - 1];
      if last.SetField? then [last] else FromLastSet(calls[..|calls| - 1]) + [last]
  }

  lemma {:induction false} FromLastSetReplays(calls: seq<FieldCall>, now: Option<Value>)
    requires NoFieldReset(calls)
    ensures ReplayField(FromLastSet(calls), now) == ReplayField(calls, now)
  {
    if calls != [] && !calls[|calls| - 1].SetField? {
      var r := FromLastSet(calls[..|calls| - 1]);
      FromLastSetReplays(calls[..|calls| - 1], now);
      assert (r + [calls[|calls| - 1]])[..|r|] == r;
    }
  }

  lemma {:induction false} FromLastSetIs(calls: seq<FieldCall>)
    requires NoFieldReset(calls)
    ensures var r := FromLastSet(calls);
            && (r == [] <==> calls == [])
            && (calls != [] ==> r[|r| - 1] == calls[|calls| - 1])
            && (OnlyAdds(r) <==> OnlyAdds(calls))
  {
    if calls != [] {
      var init, last := calls[..|calls| - 1], calls[|calls| - 1];
      assert calls == init + [last];
      OnlyAddsSnoc(init, last);
      if last.SetField? {
        OnlyAddsSnoc([], last);
        assert [] + [last] == [last];
      } else {
        FromLastSetIs(init);
        OnlyAddsSnoc(FromLastSet(init), last);
      }
    }
  }

  lemma OnlyAddsSnoc(calls: seq<FieldCall>, call: FieldCall)
    ensures OnlyAdds(calls + [call]) <==> OnlyAdds(calls) && call.AddField?
  {
    assert forall c <- calls :: c in calls + [call];
    assert call in calls + [call];
  }

  /** Calls of a builder on one column that end in a clear, that end in a set, with no clear unless the
      column is a number, or that only add. */
  predicate Settled(calls: seq<FieldCall>, numeric: bool) {
    || calls == []
    || calls[|calls| - 1].ClearField?
    || (calls[|calls| - 1].SetField? && (numeric || ClearField !in calls))
    || OnlyAdds(calls)
  }

  lemma ExpandOnField(e: seq<MutationCall>, c: BuilderCall, col: Column)
    ensures FieldCalls(e + Expand(c), col) ==
            if !c.call.OnField? || c.call.column != col then FieldCalls(e, col)
            else if ResetsFirst(c) then FieldCalls(e, col) + [ResetField] + [c.call.field]
            else FieldCalls(e, col) + [c.call.field]
  {
    if ResetsFirst(c) {
      var reset := OnField(c.call.column, ResetField);
      FieldCallsSnoc(e, reset, col);
      FieldCallsSnoc(e + [reset], c.call, col);
      assert e + Expand(c) == e + [reset] + [c.call];
    } else {
      FieldCallsSnoc(e, c.call, col);
    }
  }

  lemma SinceResetSnoc(calls: seq<FieldCall>, call: FieldCall)
    ensures SinceReset(calls + [call]) == if call.ResetField? then [] else SinceReset(calls) + [call]
  {
    assert (calls + [call])[..|calls|] == calls;
  }

  lemma FromLastSetSnoc(calls: seq<FieldCall>, call: FieldCall)
    requires NoFieldReset(calls) && !call.ResetField?
    ensures NoFieldReset(calls + [call])
    ensures FromLastSet(calls + [call]) == if call.SetField? then [call] else FromLastSet(calls) + [call]
  {
    assert (calls + [call])[..|calls|] == calls;
  }

  lemma OneMoreCall(e: seq<FieldCall>, calls: seq<FieldCall>, call: FieldCall, numeric: bool)
    requires NoFieldReset(calls) && !call.ResetField?
    requires SinceReset(e) == if numeric then FromLastSet(calls) else calls
    ensures NoFieldReset(calls + [call])
    ensures SinceReset(if numeric && call.SetField? then e + [ResetField] + [call] else e + [call]) ==
            if numeric then FromLastSet(calls + [call]) else calls + [call]
  {
    FromLastSetSnoc(calls, call);
    SinceResetSnoc(e, call);
    SinceResetSnoc(e, ResetField);
    SinceResetSnoc(e + [ResetField], call);
  }

  /** What counts of the calls on a number starts with the last set. */
  lemma {:induction false} ExpandedField(calls: seq<BuilderCall>, col: Column)
    requires Available(calls) && OnlyDirect(calls)
    ensures NoFieldReset(FieldCalls(Written(calls), col))
    ensures SinceReset(FieldCalls(Expanded(calls), col)) ==
            if Numeric(col) then FromLastSet(FieldCalls(Written(calls), col)) else FieldCalls(Written(calls), col)
  {
    if calls != [] {
      var init, last := calls[..|calls| - 1], calls[|calls| - 1];
      assert last in calls && forall c <- init :: c in calls;
      ExpandedField(init, col);
      ExpandOnField(Expanded(init), last, col);
      FieldCallsSnoc(Written(init), last.call, col);
      if last.call.OnField? && last.call.column == col {
        OneMoreCall(FieldCalls(Expanded(init), col), FieldCalls(Written(init), col), last.call.field, Numeric(col));
      }
    }
  }

  lemma SettledFromLastSet(calls: seq<FieldCall>)
    requires NoFieldReset(calls)
    ensures Settled(calls, true) <==> Harmonious(FromLastSet(calls))
  {
    if calls != [] {
      FromLastSetIs(calls);
      if calls[|calls| - 1].SetField? {
        assert FromLastSet(calls) == [calls[|calls| - 1]];
      }
    }
  }

  lemma SettledIsHarmonious(calls: seq<BuilderCall>, col: Column)
    requires Available(calls) && OnlyDirect(calls)
    ensures Settled(FieldCalls(Written(calls), col), Numeric(col)) <==>
            Harmonious(SinceReset(FieldCalls(Expanded(calls), col)))
  {
    ExpandedField(calls, col);
    SettledFromLastSet(FieldCalls(Written(calls), col));
  }

  lemma ReplayedAsWritten(calls: seq<BuilderCall>, col: Column, now: Option<Value>)
    requires Available(calls) && OnlyDirect(calls)
    ensures NoFieldReset(FieldCalls(Written(calls), col))
    ensures ReplayField(SinceReset(FieldCalls(Expanded(calls), col)), now) ==
            ReplayField(FieldCalls(Written(calls), col), now)
  {
    ExpandedField(calls, col);
    FromLastSetReplays(FieldCalls(Written(calls), col), now);
  }

  /** The column ends as the calls on it say, one by one, whatever engine honours uncontested operations. */
  ghost predicate ColumnAlwaysAsCalled(calls: seq<BuilderCall>, col: Column)
    requires NoFieldReset(FieldCalls(Written(calls), col))
  {
    forall engine: FieldEngine, before: Stored :: Honours(engine) && StoredFits(before.values) ==>
      Apply(CompileUpdate(DoCalls(Expanded(calls))), engine, before).At(col) ==
      ReplayField(FieldCalls(Written(calls), col), before.At(col))
  }

  lemma AlwaysAsWritten(calls: seq<BuilderCall>, col: Column)
    requires Available(calls) && OnlyDirect(calls)
    ensures NoFieldReset(FieldCalls(Written(calls), col))
    ensures ColumnAlwaysAsCalled(calls, col) <==> AlwaysAsCalled(Expanded(calls), col)
  {
    forall now: Option<Value>
      ensures NoFieldReset(FieldCalls(Written(calls), col))
      ensures ReplayField(SinceReset(FieldCalls(Expanded(calls), col)), now) ==
              ReplayField(FieldCalls(Written(calls), col), now)
    {
      ReplayedAsWritten(calls, col, now);
    }
  }

  /** Exactly which calls of a builder make a column end as they say. */
  lemma BuilderColumnEndsAsCalledExactlyWhen(calls: seq<BuilderCall>, col: Column)
    requires Available(calls) && OnlyDirect(calls) && Updatable(col)
    ensures NoFieldReset(FieldCalls(Written(calls), col))
    ensures ColumnAlwaysAsCalled(calls, col) <==> Settled(FieldCalls(Written(calls), col), Numeric(col))
  {
    ExpandedOffered(calls);
    AlwaysAsWritten(calls, col);
    SettledIsHarmonious(calls, col);
    ColumnEndsAsCalledExactlyWhen(Expanded(calls), col);
  }

  function ClearAndSet(v: Value): seq<MutationCall> {
    [OnField(LoadFactor, ClearField), OnField(LoadFactor, SetField(v))]
  }

  lemma ClearAndSetCalls(v: Value)
    ensures FieldCalls(ClearAndSet(v), LoadFactor) == [ClearField, SetField(v)]
  {
    FieldCallsSnoc([], OnField(LoadFactor, ClearField), LoadFactor);
    FieldCallsSnoc([OnField(LoadFactor, ClearField)], OnField(LoadFactor, SetField(v)), LoadFactor);
    assert ClearAndSet(v) == [] + [OnField(LoadFactor, ClearField)] + [OnField(LoadFactor, SetField(v))];
  }

  lemma ClearAndSetIsContested(v: Value)
    ensures !Harmonious(SinceReset([ClearField, SetField(v)]))
  {
    var calls := [ClearField, SetField(v)];
    assert calls[..1] == [ClearField] && [ClearField][..0] == [];
    assert SinceReset([ClearField]) == [ClearField];
    assert SinceReset(calls) == calls;
    assert calls[0] in calls && calls[1] in calls;
  }

  function Directly(calls: seq<MutationCall>): (r: seq<BuilderCall>)
    ensures |r| == |calls| && forall i :: 0 <= i < |r| ==> r[i] == Direct(calls[i])
  {
    seq(|calls|, i requires 0 <= i < |calls| => Direct(calls[i]))
  }

  lemma {:induction false} DirectlyWritten(calls: seq<MutationCall>)
    ensures Written(Directly(calls)) == calls
  {
    if calls != [] {
      DirectlyWritten(calls[..|calls| - 1]);
      assert Directly(calls)[..|calls| - 1] == Directly(calls[..|calls| - 1]);
    }
  }

  lemma ClearThenSetOnMutation(v: Value)
    requires Fits(v, TypeInt)
    ensures !AlwaysAsCalled(ClearAndSet(v), LoadFactor)
  {
    ClearAndSetCalls(v);
    ClearAndSetIsContested(v);
    ColumnEndsAsCalledExactlyWhen(ClearAndSet(v), LoadFactor);
  }

  lemma ClearThenSetOnBuilder(v: Value)
    requires Fits(v, TypeInt)
    ensures NoFieldReset(FieldCalls(Written(Directly(ClearAndSet(v))), LoadFactor))
    ensures ColumnAlwaysAsCalled(Directly(ClearAndSet(v)), LoadFactor)
  {
    var calls := Directly(ClearAndSet(v));
    assert Available(calls) && OnlyDirect(calls);
    assert Settled(FieldCalls(Written(calls), LoadFactor), Numeric(LoadFactor)) by {
      ClearAndSetCalls(v);
      DirectlyWritten(ClearAndSet(v));
    }
    BuilderColumnEndsAsCalledExactlyWhen(calls, LoadFactor);
  }

  /** Clearing and then setting a number is left open on a mutation but ends as called on a builder. */
  lemma ClearThenSetNumber(v: Value)
    requires Fits(v, TypeInt)
    ensures !AlwaysAsCalled(ClearAndSet(v), LoadFactor)
    ensures NoFieldReset(FieldCalls(Written(Directly(ClearAndSet(v))), LoadFactor))
    ensures ColumnAlwaysAsCalled(Directly(ClearAndSet(v)), LoadFactor)
  {
    ClearThenSetOnMutation(v);
    ClearThenSetOnBuilder(v);
  }

  lemma EdgeCallsSnoc(calls: seq<MutationCall>, call: MutationCall)
    ensures GroupCalls(calls + [call]) ==
            if call.OnGroups? then GroupCalls(calls) + [call.groups] else GroupCalls(calls)
    ensures ProxyCalls(calls + [call]) ==
            if call.OnProxy? then ProxyCalls(calls) + [call.proxy] else ProxyCalls(calls)
    ensures UsageLogCalls(calls + [call]) ==
            if call.OnUsageLogs? then UsageLogCalls(calls) + [call.usageLogs] else UsageLogCalls(calls)
  {
    assert (calls + [call])[..|calls|] == calls;
    assert GroupCalls(calls) + [] == GroupCalls(calls) && ProxyCalls(calls) + [] == ProxyCalls(calls);
    assert UsageLogCalls(calls) + [] == UsageLogCalls(calls);
  }

  lemma ExpandOnEdges(e: seq<MutationCall>, c: BuilderCall)
    ensures GroupCalls(e + Expand(c)) == GroupCalls(e + [c.call])
    ensures ProxyCalls(e + Expand(c)) == ProxyCalls(e + [c.call])
    ensures UsageLogCalls(e + Expand(c)) == UsageLogCalls(e + [c.call])
  {
    if ResetsFirst(c) {
      var reset := OnField(c.call.column, ResetField);
      EdgeCallsSnoc(e, reset);
      EdgeCallsSnoc(e, c.call);
      EdgeCallsSnoc(e + [reset], c.call);
      assert e + Expand(c) == e + [reset] + [c.call];
    }
  }

  lemma {:induction false} ExpandedEdges(calls: seq<BuilderCall>)
    ensures GroupCalls(Expanded(calls)) == GroupCalls(Written(calls))
    ensures ProxyCalls(Expanded(calls)) == ProxyCalls(Written(calls))
    ensures UsageLogCalls(Expanded(calls)) == UsageLogCalls(Written(calls))
  {
    if calls != [] {
      var init, last := calls[..|calls| - 1], calls[|calls| - 1];
      ExpandedEdges(init);
      ExpandOnEdges(Expanded(init), last);
      EdgeCallsSnoc(Written(init), last.call);
      EdgeCallsSnoc(Expanded(init), last.call);
    }
  }

  // ----- what is stored -----

  ghost predicate DirectColumnEndsAs(calls: seq<FieldCall>, col: Column, before: Stored, after: Stored) {
    NoFieldReset(calls) && (Settled(calls, Numeric(col)) ==> after.At(col) == ReplayField(calls, before.At(col)))
  }

  /** Columns, edges and the proxy are as the calls on the mutation say, sets of numbers coming after a
      reset; and, if only the builder was called, as the calls on the builder say. */
  ghost predicate BuilderEndsAs(calls: seq<BuilderCall>, before: Stored, after: Stored) {
    && EndsAs(Expanded(calls), before, after)
    && EdgeEndsAs(GroupCalls(Written(calls)), before.groups, after.groups)
    && EdgeEndsAs(UsageLogCalls(Written(calls)), before.usageLogs, after.usageLogs)
    && (OnlyDirect(calls) ==>
          forall col :: Updatable(col) ==> DirectColumnEndsAs(FieldCalls(Written(calls), col), col, before, after))
  }

  lemma BuilderSaved(calls: seq<BuilderCall>, engine: FieldEngine, before: Stored)
    requires Honours(engine) && Available(calls) && StoredFits(before.values)
    ensures BuilderEndsAs(calls, before, Apply(CompileUpdate(DoCalls(Expanded(calls))), engine, before))
  {
    var after := Apply(CompileUpdate(DoCalls(Expanded(calls))), engine, before);
    ExpandedOffered(calls);
    SavedEndsAs(Expanded(calls), engine, before);
    ExpandedEdges(calls);
    if OnlyDirect(calls) {
      forall col | Updatable(col) ensures DirectColumnEndsAs(FieldCalls(Written(calls), col), col, before, after) {
        BuilderColumnSaved(calls, col, before, after);
      }
    }
  }

  lemma BuilderColumnSaved(calls: seq<BuilderCall>, col: Column, before: Stored, after: Stored)
    requires Available(calls) && OnlyDirect(calls) && ColumnEndsAs(Expanded(calls), col, before, after)
    ensures DirectColumnEndsAs(FieldCalls(Written(calls), col), col, before, after)
  {
    SettledIsHarmonious(calls, col);
    ReplayedAsWritten(calls, col, before.At(col));
  }

  /** What a column holds after calls of the builder. */
  lemma DirectColumnComesTo(calls: seq<BuilderCall>, col: Column, before: Stored, after: Stored)
    requires Available(calls) && OnlyDirect(calls) && BuilderEndsAs(calls, before, after) && Updatable(col)
    ensures var fs := FieldCalls(Written(calls), col);
            Settled(fs, Numeric(col)) ==> ComesTo(fs, DeclaredType(col), before.At(col), after.At(col))
  {
    WrittenOffered(calls);
    AmountsOffered(Written(calls), col);
    ReplayComesTo(FieldCalls(Written(calls), col), DeclaredType(col), before.At(col));
  }

  lemma {:induction false} WrittenOffered(calls: seq<BuilderCall>)
    requires Available(calls)
    ensures forall call <- Written(calls) :: Offered(call)
  {
    if calls != [] {
      var init := calls[..|calls| - 1];
      assert calls[|calls| - 1] in calls && forall c <- init :: c in calls;
      WrittenOffered(init);
    }
  }

  // ----- the builders -----

  method PerformBy(m: AccountMutation, c: BuilderCall)
    requires Offered(c.call)
    modifies m
    ensures Snapshot(m) == if ResetsFirst(c)
                             then DoCall(DoCall(old(Snapshot(m)), OnField(c.call.column, ResetField)), c.call)
                             else DoCall(old(Snapshot(m)), c.call)
    ensures m.id == old(m.id) && m.done == old(m.done)
  {
    if ResetsFirst(c) {
      Perform(m, OnField(c.call.column, ResetField));
    }
    Perform(m, c.call);
  }

  lemma DoCallsSnoc(calls: seq<MutationCall>, call: MutationCall)
    ensures DoCalls(calls + [call]) == DoCall(DoCalls(calls), call)
  {
    assert (calls + [call])[..|calls|] == calls;
  }

  lemma DoExpanded(calls: seq<BuilderCall>, c: BuilderCall)
    ensures DoCalls(Expanded(calls + [c])) ==
            if ResetsFirst(c)
              then DoCall(DoCall(DoCalls(Expanded(calls)), OnField(c.call.column, ResetField)), c.call)
              else DoCall(DoCalls(Expanded(calls)), c.call)
  {
    assert (calls + [c])[..|calls|] == calls;
    var e := Expanded(calls);
    if ResetsFirst(c) {
      var reset := OnField(c.call.column, ResetField);
      DoCallsSnoc(e, reset);
      DoCallsSnoc(e + [reset], c.call);
      assert e + Expand(c) == e + [reset] + [c.call];
    } else {
      DoCallsSnoc(e, c.call);
    }
  }

  method PerformAll(m: AccountMutation, calls: seq<BuilderCall>)
    requires Snapshot(m) == NO_CHANGES && Available(calls)
    modifies m
    ensures Snapshot(m) == DoCalls(Expanded(calls))
    ensures m.id == old(m.id) && m.done == old(m.done)
  {
    for i := 0 to |calls|
      invariant Snapshot(m) == DoCalls(Expanded(calls[..i]))
      invariant m.id == old(m.id) && m.done == old(m.done)
    {
      var c := calls[i];
      assert c in calls && Offered(c.call);
      assert calls[..i + 1] == calls[..i] + [c];
      DoExpanded(calls[..i], c);
      PerformBy(m, c);
    }
    assert calls[..|calls|] == calls;
  }

  ghost predicate AllStoredFit(db: Accounts) {
    forall id <- db :: StoredFits(db[id].values)
  }

  /** The selected accounts end as the calls say and the others stay. */
  ghost predicate EndAs(calls: seq<BuilderCall>, before: Accounts, after: Accounts, selected: set<int>) {
    && after.Keys == before.Keys
    && forall id <- before ::
         if id in selected then BuilderEndsAs(calls, before[id], after[id]) else after[id] == before[id]
  }

  lemma ManyEndAs(calls: seq<BuilderCall>, engine: FieldEngine, db: Accounts, where: (int, Stored) -> bool)
    requires Honours(engine) && AllStoredFit(db) && Available(calls)
    ensures EndAs(calls, db, UpdateMany(db, CompileUpdate(DoCalls(Expanded(calls))), engine, where),
                  Matching(db, where))
  {
    forall id <- db | where(id, db[id])
      ensures BuilderEndsAs(calls, db[id], Apply(CompileUpdate(DoCalls(Expanded(calls))), engine, db[id]))
    {
      BuilderSaved(calls, engine, db[id]);
    }
  }

  /** Stored values fit, and the database carries out uncontested operations. */
  ghost predicate Sound(store: Store)
    reads store
  {
    Honours(store.engine) && AllStoredFit(store.accounts)
  }

  /** The fields that the calls leave to be checked. */
  function FieldsAfter(calls: seq<BuilderCall>): FieldMap {
    DoCalls(Expanded(calls)).fields
  }

  /** Any calls on a builder with a fresh mutation, followed by saving it, leave the accounts that satisfy
      its predicates as the calls say. It fails just if the check or the driver does, and then all accounts
      are as they were. */
  method UpdateAccounts(b: AccountUpdateBuilder, calls: seq<BuilderCall>, rt: Runtime, store: Store)
      returns (r: Result<nat, Error>)
    requires Snapshot(b.mutation) == NO_CHANGES && Available(calls)
    requires Sound(store)
    modifies b.mutation, store
    ensures var invalid := CheckOver(rt, FieldsAfter(calls), UPDATE_CHECKS);
            var refused := if invalid.Some? then invalid else store.outage;
            var before := old(store.accounts);
            var selected := set id | id in before && forall p <- b.predicates :: p(id, before[id]);
            if refused.Some? then r == Failure(refused.value) && store.accounts == before
            else r == Success(|selected|) && EndAs(calls, before, store.accounts, selected)
  {
    ghost var before := store.accounts;
    PerformAll(b.mutation, calls);
    r := b.SqlSave(rt, store);
    if r.Success? {
      EveryPredicate(before, b.predicates);
      ManyEndAs(calls, store.engine, before, Where(b.predicates));
    }
  }

  /** The same for the builder of one account. It fails just if the check, the identifier, a selected column
      or the driver does, in that order, or else if there is no such account that satisfies its predicates. */
  method UpdateAccount(b: AccountUpdateOneBuilder, calls: seq<BuilderCall>, rt: Runtime, store: Store)
      returns (r: Result<Returned, Error>)
    requires Snapshot(b.mutation) == NO_CHANGES && Available(calls)
    requires Sound(store)
    modifies b.mutation, store
    ensures var before, after, id := old(store.accounts), store.accounts, old(b.mutation.CurrentID());
            var refused := Refusal(rt, FieldsAfter(calls), id, b.fields, store.outage);
            if refused.Some? then r == Failure(refused.value) && after == before
            else if id.value in before && forall p <- b.predicates :: p(id.value, before[id.value]) then
              && r.Success? && id.value in after && ReadsBack(r.value, id.value, after[id.value], b.fields)
              && EndAs(calls, before, after, {id.value})
            else r == Failure(NotFound) && after == before
  {
    ghost var before := store.accounts;
    PerformAll(b.mutation, calls);
    assert b.mutation.CurrentID() == old(b.mutation.CurrentID());
    r := b.SqlSave(rt, store);
    if r.Success? {
      OneEndsAs(calls, store.engine, before, store.accounts, r.value.id);
    }
  }

  lemma OneEndsAs(calls: seq<BuilderCall>, engine: FieldEngine, before: Accounts, after: Accounts, id: int)
    requires Honours(engine) && AllStoredFit(before) && Available(calls) && id in before
    requires UpdatesSelected(before, after, CompileUpdate(DoCalls(Expanded(calls))), engine, {id})
    ensures EndAs(calls, before, after, {id})
  {
    BuilderSaved(calls, engine, before[id]);
  }
}
