/** What the rows that creates insert ask for, told from the mutations: their fields, their edges, and the
    path that a mutation takes through the hooks. */
module CreatedRows {
  import opened Wrappers
  import opened AccountSchema
  import opened AccountCreate
  import opened BulkChain
  import SingleSave
  import opened AccountMutations
  import opened BulkCreate

  // ----- specifications -----

  /** All targets of the edges of one kind. */
  function TargetsOf(edges: seq<EdgeSpec>, edge: Edge): set<int> {
    set e, t | e in edges && e.edge == edge && t in e.targets :: t
  }

  /** Every column that is set is written once, with its value, and no other. */
  ghost predicate WritesFields(fields: seq<FieldSpec>, m: FieldMap) {
    && (forall c :: (exists f <- fields :: f.column == c) <==> c in m)
    && (forall f <- fields :: f.column in m ==> f.value == m[f.column])
    && forall i, j :: 0 <= i < j < |fields| ==> fields[i].column != fields[j].column
  }

  /** The groups, the proxy and the usage logs are connected, each by one edge of its relation. */
  ghost predicate WritesEdges(edges: seq<EdgeSpec>, d: Draft) {
    && TargetsOf(edges, Groups) == d.groups
    && TargetsOf(edges, UsageLogs) == d.usageLogs
    && (forall t :: t in TargetsOf(edges, Proxy) <==> d.proxy == Some(t))
    && (forall e <- edges ::
          e.targets != {} && e.rel == match e.edge case Groups => M2M case Proxy => M2O case UsageLogs => O2M)
    && forall i, j :: 0 <= i < j < |edges| ==> edges[i].edge != edges[j].edge
  }

  lemma TargetsAre(edges: seq<EdgeSpec>, edge: Edge, targets: set<int>)
    requires forall e <- edges :: e.edge == edge ==> e.targets == targets
    requires targets != {} ==> exists e <- edges :: e.edge == edge
    ensures TargetsOf(edges, edge) == targets
  {
    forall t <- targets ensures t in TargetsOf(edges, edge) {
      var e :| e in edges && e.edge == edge;
    }
  }

  lemma SpecWritesEdges(d: Draft)
    ensures WritesEdges(SpecEdges(d), d)
  {
    var g := if d.groups != {} then [EdgeSpec(M2M, Groups, d.groups)] else [];
    var p := if d.proxy.Some? then [EdgeSpec(M2O, Proxy, {d.proxy.value})] else [];
    var u := if d.usageLogs != {} then [EdgeSpec(O2M, UsageLogs, d.usageLogs)] else [];
    var edges := g + p + u;
    assert d.groups != {} ==> g[0] in edges;
    assert d.proxy.Some? ==> p[0] in edges;
    assert d.usageLogs != {} ==> u[0] in edges;
    assert forall e <- edges :: e in g || e in p || e in u;
    TargetsAre(edges, Groups, d.groups);
    TargetsAre(edges, UsageLogs, d.usageLogs);
    TargetsAre(edges, Proxy, if d.proxy.Some? then {d.proxy.value} else {});
  }

  lemma {:induction false} SpecFieldIn(m: FieldMap, cs: seq<Column>, f: FieldSpec)
    ensures f in SpecFields(m, cs) <==> f.column in cs && f.column in m && f.value == m[f.column]
  {
    if cs != [] {
      SpecFieldIn(m, cs[1..], f);
      assert cs == [cs[0]] + cs[1..];
    }
  }

  predicate Distinct(cs: seq<Column>) {
    forall i, j :: 0 <= i < j < |cs| ==> cs[i] != cs[j]
  }

  lemma {:induction false} SpecFieldsDistinct(m: FieldMap, cs: seq<Column>)
    requires Distinct(cs)
    ensures var fields := SpecFields(m, cs);
            forall i, j :: 0 <= i < j < |fields| ==> fields[i].column != fields[j].column
  {
    if cs != [] {
      var rest := SpecFields(m, cs[1..]);
      SpecFieldsDistinct(m, cs[1..]);
      forall j | 0 <= j < |rest| ensures rest[j].column != cs[0] {
        SpecFieldIn(m, cs[1..], rest[j]);
        var k :| 0 <= k < |cs[1..]| && cs[1..][k] == rest[j].column;
        assert cs[k + 1] == rest[j].column;
      }
    }
  }

  lemma SpecWritesFields(m: FieldMap, cs: seq<Column>)
    requires Distinct(cs) && forall c <- m :: c in cs
    ensures WritesFields(SpecFields(m, cs), m)
  {
    var fields := SpecFields(m, cs);
    SpecFieldsDistinct(m, cs);
    forall f <- fields ensures f.column in m && f.value == m[f.column] {
      SpecFieldIn(m, cs, f);
    }
    forall c <- m ensures exists f <- fields :: f.column == c {
      SpecFieldIn(m, cs, FieldSpec(c, m[c]));
    }
  }

  /** Where createSpec writes a column. */
  function Place(c: Column): nat {
    match c
    case CreatedAt => 0
    case UpdatedAt => 1
    case DeletedAt => 2
    case Name => 3
    case Notes => 4
    case Platform => 5
    case Type => 6
    case Credentials => 7
    case Extra => 8
    case Concurrency => 9
    case LoadFactor => 10
    case Priority => 11
    case RateMultiplier => 12
    case Status => 13
    case ErrorMessage => 14
    case LastUsedAt => 15
    case ExpiresAt => 16
    case AutoPauseOnExpired => 17
    case Schedulable => 18
    case RateLimitedAt => 19
    case RateLimitResetAt => 20
    case OverloadUntil => 21
    case TempUnschedulableUntil => 22
    case TempUnschedulableReason => 23
    case SessionWindowStart => 24
    case SessionWindowEnd => 25
    case SessionWindowStatus => 26
    case _ => |CREATE_ORDER|
  }

  lemma PlaceInOrder(i: nat)
    requires i < |CREATE_ORDER|
    ensures Place(CREATE_ORDER[i]) == i
  {}

  lemma CreateOrderDistinct()
    ensures Distinct(CREATE_ORDER)
  {
    forall i | 0 <= i < |CREATE_ORDER| ensures Place(CREATE_ORDER[i]) == i {
      PlaceInOrder(i);
    }
  }

  /** Defaults and checks go through the columns in the same order; a column is required before its value is
      validated. */
  lemma ChecksFollowTheColumns(i: nat)
    requires i + 1 < |CHECKS|
    ensures var step, next := CHECKS[i], CHECKS[i + 1];
            Place(step.c) < Place(next.c) || (step.Require? && next == Validate(step.c))
  {}

  lemma DefaultsFollowTheColumns(i: nat)
    requires i + 1 < |DEFAULTED|
    ensures Place(DEFAULTED[i]) < Place(DEFAULTED[i + 1])
  {}

  lemma CreateOrderComplete(c: Column)
    requires Settable(c)
    ensures c in CREATE_ORDER
  {}

  /** The specification of an account writes what the mutation asks for, no more and no less. */
  lemma SpecWrites(rt: Runtime, d: Draft)
    requires ForAccounts(rt) && forall c <- d.fields :: Settable(c)
    ensures WritesFields(SpecOf(rt, d).fields, d.fields)
    ensures WritesEdges(SpecOf(rt, d).edges, d)
  {
    SpecWritesEdges(d);
    CreateOrderDistinct();
    forall c <- d.fields ensures c in CREATE_ORDER {
      CreateOrderComplete(c);
    }
    SpecWritesFields(d.fields, CREATE_ORDER);
  }

  // ----- the way of a mutation through the hooks -----

  /** What the next hook sees after a step: an edit changes an account mutation in place, a replacement is
      another one, and None is a mutation of another entity. */
  predicate Passes(step: Step, seen: Option<Draft>, next: Option<Draft>) {
    match step
    case Stop(_) => false
    case Edit(d) => next == if seen.Some? then Some(d) else None
    case Replace(d) => next == Some(d)
    case PassForeign => next == None
  }

  /** What each hook sees, and what the last one passes on. */
  ghost predicate AreSeen(hooks: seq<Hook>, seen: seq<Option<Draft>>) {
    |seen| == |hooks| + 1 && forall k :: 0 <= k < |hooks| ==> Passes(hooks[k].before(seen[k]), seen[k], seen[k + 1])
  }

  /** The builder's own mutation is the one that is passed on until a hook passes on another one. */
  ghost predicate IsOwn(hooks: seq<Hook>, seen: seq<Option<Draft>>, own: Draft)
    requires |seen| == |hooks| + 1
  {
    exists m :: 0 <= m <= |hooks| && seen[m] == Some(own)
      && (forall k :: 0 <= k < m ==> hooks[k].before(seen[k]).Edit?)
      && (m < |hooks| ==> !hooks[m].before(seen[m]).Edit?)
  }

  lemma {:induction false} SeenFrom(hooks: seq<Hook>, h: nat, own: Draft, passed: Passed)
      returns (seen: seq<Option<Draft>>)
    requires h <= |hooks| && DescendFrom(hooks, h, own, passed).Arrived?
    ensures var d := DescendFrom(hooks, h, own, passed);
            && AreSeen(hooks[h..], seen) && seen[0] == See(own, passed)
            && seen[|hooks| - h] == See(d.own, d.passed)
            && (passed.Own? ==> IsOwn(hooks[h..], seen, d.own)) && (!passed.Own? ==> d.own == own)
    decreases |hooks| - h
  {
    if h == |hooks| {
      seen := [See(own, passed)];
    } else {
      var step := hooks[h].before(See(own, passed));
      var (own', passed') := Take(step, own, passed);
      var rest := SeenFrom(hooks, h + 1, own', passed');
      seen := [See(own, passed)] + rest;
      assert hooks[h..][1..] == hooks[h + 1..] && hooks[h..] == [hooks[h]] + hooks[h + 1..];
      if passed.Own? {
        OwnSeen(hooks[h..], seen, own, DescendFrom(hooks, h, own, passed).own, passed', rest);
      }
    }
  }

  lemma OwnSeen(hooks: seq<Hook>, seen: seq<Option<Draft>>, own: Draft, last: Draft, passed: Passed,
                rest: seq<Option<Draft>>)
    requires hooks != [] && seen == [Some(own)] + rest && |rest| == |hooks|
    requires var step := hooks[0].before(Some(own));
             && !step.Stop? && passed == Take(step, own, Own).1
             && (if passed.Own? then IsOwn(hooks[1..], rest, last) else last == own)
    ensures IsOwn(hooks, seen, last)
  {
    if passed.Own? {
      var m :| 0 <= m <= |hooks[1..]| && rest[m] == Some(last)
        && (forall k :: 0 <= k < m ==> hooks[1..][k].before(rest[k]).Edit?)
        && (m < |hooks[1..]| ==> !hooks[1..][m].before(rest[m]).Edit?);
      assert seen[m + 1] == Some(last);
      forall k | 0 <= k < m + 1 ensures hooks[k].before(seen[k]).Edit? {
        if k > 0 {
          assert hooks[1..][k - 1].before(rest[k - 1]).Edit?;
        }
      }
      assert m + 1 < |hooks| ==> hooks[m + 1] == hooks[1..][m];
    } else {
      assert seen[0] == Some(last);
    }
  }

  /** The draft with its defaults filled in. */
  function Filled(rt: Runtime, d: Draft): Draft {
    Draft(Defaults(rt, d.fields).0, d.groups, d.proxy, d.usageLogs)
  }

  /** The row of builder k in the batch that a save hands to the driver: it writes the mutation that the last
      hook passes on, and the check has passed the builder's own. */
  lemma InsertedRow(c: Chain, k: nat) returns (batch: seq<CreateSpec>, seen: seq<Option<Draft>>, own: Draft)
    requires ForAccounts(c.rt) && k < |c.builders| && Inserts(Save(c).trace) != []
    ensures Inserts(Save(c).trace) == [batch] && |batch| == |c.builders|
    ensures var hooks := c.builders[k].hooks;
            && AreSeen(hooks, seen) && seen[0] == Some(Filled(c.rt, c.builders[k].draft))
            && IsOwn(hooks, seen, own) && Check(c.rt, own.fields).None?
            && seen[|hooks|].Some?
            && var d := seen[|hooks|].value;
            && WritesEdges(batch[k].edges, d)
            && ((forall col <- d.fields :: Settable(col)) ==> WritesFields(batch[k].fields, d.fields))
  {
    var p := Prepare(c);
    var b := p.builders[k];
    InsertsExactlyOnce(c);
    batch := SpecsFrom(p, 0);
    assert Reaches(c.rt, b);
    var d := Descend(b);
    seen := SeenByHooks(b);
    own := d.own;
    SpecWritesEdges(See(d.own, d.passed).value);
    if forall col <- See(d.own, d.passed).value.fields :: Settable(col) {
      SpecWrites(c.rt, See(d.own, d.passed).value);
    }
  }

  /** The row of a single save: its mutation is checked as the last hook passes it on. */
  lemma SavedRow(rt: Runtime, create: SingleSave.NodeInsert, b: Builder)
      returns (row: CreateSpec, seen: seq<Option<Draft>>)
    requires ForAccounts(rt) && Inserts(SingleSave.Save(rt, create, b).trace) != []
    ensures Inserts(SingleSave.Save(rt, create, b).trace) == [[row]]
    ensures AreSeen(b.hooks, seen) && seen[0] == Some(Filled(rt, b.draft)) && seen[|b.hooks|].Some?
    ensures var d := seen[|b.hooks|].value;
            && Check(rt, d.fields).None? && WritesEdges(row.edges, d)
            && ((forall col <- d.fields :: Settable(col)) ==> WritesFields(row.fields, d.fields))
  {
    var d := SavedDraft(rt, create, b);
    row := SpecOf(rt, d);
    seen := SeenByHooks(Prepared(rt, b));
    SpecWritesEdges(d);
    if forall col <- d.fields :: Settable(col) {
      SpecWrites(rt, d);
    }
  }

  lemma SeenByHooks(b: Builder) returns (seen: seq<Option<Draft>>)
    requires Descend(b).Arrived?
    ensures AreSeen(b.hooks, seen) && seen[0] == Some(b.draft) && IsOwn(b.hooks, seen, Descend(b).own)
    ensures seen[|b.hooks|] == See(Descend(b).own, Descend(b).passed)
  {
    seen := SeenFrom(b.hooks, 0, b.draft, Own);
    assert b.hooks[0..] == b.hooks;
  }

  lemma SavedDraft(rt: Runtime, create: SingleSave.NodeInsert, b: Builder) returns (d: Draft)
    requires Inserts(SingleSave.Save(rt, create, b).trace) != []
    ensures var a := Descend(Prepared(rt, b)); a.Arrived? && See(a.own, a.passed) == Some(d)
    ensures Inserts(SingleSave.Save(rt, create, b).trace) == [[SpecOf(rt, d)]] && Check(rt, d.fields).None?
  {
    SingleSave.InsertsIffSavesAlone(rt, create, b);
    var a := Descend(Prepared(rt, b));
    d := See(a.own, a.passed).value;
  }

  // ----- without hooks -----

  ghost predicate NoHooks(c: Chain) {
    forall b <- c.builders :: b.hooks == []
  }

  /** What an insert comes to. */
  function InsertError(r: Result<seq<Option<int>>, DriverError>): Option<Error> {
    match r
    case Success(_) => None
    case Failure(Constraint(msg)) => Some(ConstraintError(msg))
    case Failure(Failed(msg)) => Some(OtherError(msg))
  }

  lemma {:induction false} UnhookedFrom(c: Chain, i: nat, specs: seq<CreateSpec>) returns (k: nat)
    requires NoHooks(c) && i <= |c.builders|
    ensures i <= k <= |c.builders|
    ensures forall j :: i <= j < k ==> Check(c.rt, c.builders[j].draft.fields).None?
    ensures k < |c.builders| ==>
              Check(c.rt, c.builders[k].draft.fields).Some? &&
              Deeper(c, i, specs) == Outcome(Check(c.rt, c.builders[k].draft.fields), [], {})
    ensures k == |c.builders| ==>
              var all := specs + seq(k - i, j requires 0 <= j < k - i => SpecOf(c.rt, c.builders[i + j].draft));
              var o := Deeper(c, i, specs);
              && o.err == InsertError(c.insert(all)) && o.trace == [Insert(all)]
              && forall j :: j in o.done <==> o.err.None? && i <= j < k
    decreases |c.builders| - i
  {
    if i == |c.builders| {
      k := i;
      assert specs + [] == specs;
    } else {
      var b := c.builders[i];
      assert b in c.builders && b.hooks == [];
      assert Deeper(c, i, specs) == Base(c, i, b.draft, Own, specs);
      if Check(c.rt, b.draft.fields).Some? {
        k := i;
      } else {
        var spec := SpecOf(c.rt, b.draft);
        k := UnhookedFrom(c, i + 1, specs + [spec]);
        if k == |c.builders| {
          var rest := seq(k - i - 1, j requires 0 <= j < k - i - 1 => SpecOf(c.rt, c.builders[i + 1 + j].draft));
          var all := seq(k - i, j requires 0 <= j < k - i => SpecOf(c.rt, c.builders[i + j].draft));
          assert all == [spec] + rest && specs + [spec] + rest == specs + all;
        }
      }
    }
  }

  /** Without hooks the first failing check stops a save before anything is inserted. Else one batch has a row
      for each builder, in their order; its failure is reported as what it is, and all mutations are done
      just if it succeeds. */
  lemma UnhookedSave(c: Chain) returns (k: nat, batch: seq<CreateSpec>)
    requires NoHooks(c) && c.builders != []
    ensures k <= |c.builders|
    ensures forall j :: 0 <= j < k ==> Check(c.rt, Filled(c.rt, c.builders[j].draft).fields).None?
    ensures k < |c.builders| ==>
              var failed := Check(c.rt, Filled(c.rt, c.builders[k].draft).fields);
              failed.Some? && Save(c) == Outcome(failed, [], {})
    ensures k == |c.builders| ==>
              && |batch| == k && Save(c).trace == [Insert(batch)]
              && (Save(c).err == match c.insert(batch)
                                 case Success(_) => None
                                 case Failure(Constraint(msg)) => Some(ConstraintError(msg))
                                 case Failure(Failed(msg)) => Some(OtherError(msg)))
              && (forall j :: j in Save(c).done <==> c.insert(batch).Success? && 0 <= j < k)
              && forall j :: 0 <= j < k ==> batch[j] == SpecOf(c.rt, Filled(c.rt, c.builders[j].draft))
  {
    var p := Prepare(c);
    forall b <- p.builders ensures b.hooks == [] {
      var j :| 0 <= j < |p.builders| && p.builders[j] == b;
      assert c.builders[j] in c.builders;
    }
    k := UnhookedFrom(p, 0, []);
    batch := [];
    if k == |c.builders| {
      batch := seq(k, j requires 0 <= j < k => SpecOf(c.rt, p.builders[j].draft));
      assert [] + batch == batch;
      assert seq(k - 0, j requires 0 <= j < k - 0 => SpecOf(p.rt, p.builders[0 + j].draft)) == batch;
    }
  }

  /** And each row writes what its mutation asks for, filled in. */
  lemma UnhookedRows(c: Chain, batch: seq<CreateSpec>, j: nat)
    requires ForAccounts(c.rt) && j < |batch| == |c.builders|
    requires batch[j] == SpecOf(c.rt, Filled(c.rt, c.builders[j].draft))
    requires forall col <- c.builders[j].draft.fields :: Settable(col)
    ensures WritesFields(batch[j].fields, Filled(c.rt, c.builders[j].draft).fields)
    ensures WritesEdges(batch[j].edges, c.builders[j].draft)
  {
    FilledSettable(c.rt, c.builders[j].draft);
    SpecWrites(c.rt, Filled(c.rt, c.builders[j].draft));
  }

  lemma FilledSettable(rt: Runtime, d: Draft)
    requires ForAccounts(rt) && forall col <- d.fields :: Settable(col)
    ensures forall col <- Filled(rt, d).fields :: Settable(col)
  {
    forall col <- Filled(rt, d).fields ensures Settable(col) {
      DefaultsOnlyFillGaps(rt, d.fields, rt.defaulted, col);
    }
  }

  /** The same for a single save, which also stops at a failing default. */
  lemma UnhookedSingleSave(rt: Runtime, create: SingleSave.NodeInsert, b: Builder) returns (row: CreateSpec)
    requires ForAccounts(rt) && b.hooks == [] && forall col <- b.draft.fields :: Settable(col)
    ensures WritesFields(row.fields, Filled(rt, b.draft).fields) && WritesEdges(row.edges, b.draft)
    ensures var o, d := SingleSave.Save(rt, create, b), Filled(rt, b.draft);
            if Defaults(rt, b.draft.fields).1.Some? then o == Outcome(Defaults(rt, b.draft.fields).1, [], {})
            else if Check(rt, d.fields).Some? then o == Outcome(Check(rt, d.fields), [], {})
            else match create(row)
                 case Success(_) => o == Outcome(None, [Insert([row])], {0})
                 case Failure(Constraint(msg)) => o == Outcome(Some(ConstraintError(msg)), [Insert([row])], {})
                 case Failure(Failed(msg)) => o == Outcome(Some(OtherError(msg)), [Insert([row])], {})
  {
    row := SpecOf(rt, Filled(rt, b.draft));
    FilledSettable(rt, b.draft);
    SpecWrites(rt, Filled(rt, b.draft));
  }

  // ----- the batch that the driver is handed -----

  /** The chain describes builders without hooks whose mutations are these. */
  ghost predicate Unhooked(c: Chain, drafts: seq<Draft>) {
    && c.builders != [] && ForAccounts(c.rt) && |c.builders| == |drafts|
    && forall j :: 0 <= j < |drafts| ==>
         && c.builders[j] == Builder(drafts[j], [])
         && forall col <- drafts[j].fields :: Settable(col)
  }

  lemma UnhookedBatch(c: Chain, drafts: seq<Draft>) returns (batch: seq<CreateSpec>)
    requires Unhooked(c, drafts)
    ensures var o := Save(c);
            && (o.err.None? ==>
                  && Inserts(o.trace) == [batch] && |batch| == |drafts| && c.insert(batch).Success?
                  && (forall j :: 0 <= j < |drafts| ==> j in o.done)
                  && forall j :: 0 <= j < |drafts| ==>
                       && WritesFields(batch[j].fields, Filled(c.rt, drafts[j]).fields)
                       && WritesEdges(batch[j].edges, drafts[j]))
            && (o.err.Some? ==> o.done == {})
  {
    var k;
    k, batch := UnhookedSave(c);
    if Save(c).err.None? {
      assert Inserts([Insert(batch)]) == [batch];
      forall j | 0 <= j < |drafts|
        ensures WritesFields(batch[j].fields, Filled(c.rt, drafts[j]).fields)
        ensures WritesEdges(batch[j].edges, drafts[j])
      {
        UnhookedRows(c, batch, j);
      }
    }
  }

  /** A bulk create of builders without hooks that succeeds hands the driver one batch, in which row j writes
      the mutation of builder j, filled in, and every node has the identifier reported for its row. */
  method CreateAll(bulk: AccountCreateBulk, rt: Runtime, ghost drafts: seq<Draft>)
      returns (r: Result<seq<AccountEntity?>, Error>, ghost batch: seq<CreateSpec>)
    requires bulk.Unsaved() && bulk.err.None? && Unhooked(bulk.Chain(rt), drafts)
    modifies bulk.driver, bulk.builders, set b | b in bulk.builders :: b.mutation
    ensures r.Success? ==>
              && bulk.driver.batches == old(bulk.driver.batches) + [batch]
              && |batch| == |r.value| == |drafts|
              && forall j :: 0 <= j < |drafts| ==>
                   && WritesFields(batch[j].fields, Filled(rt, drafts[j]).fields)
                   && WritesEdges(batch[j].edges, drafts[j])
    ensures r.Success? ==>
              && bulk.driver.insert(batch).Success?
              && var ids := bulk.driver.insert(batch).value;
              && forall j :: 0 <= j < |r.value| ==>
                   && r.value[j] != null && bulk.builders[j].mutation.done
                   && r.value[j].id == (if j < |ids| && ids[j].Some? then ids[j].value else 0)
                   && bulk.builders[j].mutation.CurrentID() == Some(r.value[j].id)
    ensures r.Failure? ==> forall j :: 0 <= j < |drafts| ==> !bulk.builders[j].mutation.done
  {
    batch := UnhookedBatch(bulk.Chain(rt), drafts);
    ghost var nodes, trace;
    r, nodes, trace := bulk.Save(rt);
  }
}
