/** The create builders as objects: a single builder, and the bulk builder whose mutators share the
    specs and nodes of one Save. The methods are proved against the functions of BulkChain. */
module BulkCreate {
  import opened Wrappers
  import opened AccountSchema
  import opened AccountCreate
  import opened AccountMutations
  import opened BulkChain

  /** The driver, which performs batch inserts and remembers what it was asked for. */
  class Driver {
    const insert: BatchInsert
    var batches: seq<seq<CreateSpec>>

    constructor (insert: BatchInsert)
      ensures this.insert == insert && batches == []
    {
      this.insert := insert;
      batches := [];
    }

    method BatchCreate(specs: seq<CreateSpec>) returns (r: Result<seq<Option<int>>, DriverError>)
      modifies this
      ensures r == insert(specs)
      ensures batches == old(batches) + [specs]
    {
      batches := batches + [specs];
      r := insert(specs);
    }
  }

  class AccountBuilder {
    const hooks: seq<Hook>
    var mutation: AccountMutation

    constructor (mutation: AccountMutation, hooks: seq<Hook>)
      ensures this.mutation == mutation && this.hooks == hooks
    {
      this.mutation, this.hooks := mutation, hooks;
    }

    function Abstract(): Builder
      reads this, mutation
    {
      Builder(mutation.Draft(), hooks)
    }

    method SetDefaults(rt: Runtime) returns (err: Option<Error>)
      modifies mutation`fields
      ensures (mutation.fields, err) == Defaults(rt, old(mutation.fields))
    {
      for i := 0 to |rt.defaulted|
        invariant DefaultsOver(rt, mutation.fields, rt.defaulted[i..]) == Defaults(rt, old(mutation.fields))
      {
        var c := rt.defaulted[i];
        assert rt.defaulted[i..][1..] == rt.defaulted[i + 1..];
        if c !in mutation.fields {
          if c !in rt.defaults {
            return Some(UninitializedDefault(c));
          }
          mutation.fields := mutation.fields[c := rt.defaults[c]];
        }
      }
      err := None;
    }

    /** The checks run on the builder's own mutation. */
    method CheckMutation(rt: Runtime) returns (err: Option<Error>)
      ensures err == Check(rt, mutation.fields)
    {
      for i := 0 to |rt.checks|
        invariant CheckOver(rt, mutation.fields, rt.checks[i..]) == Check(rt, mutation.fields)
      {
        assert rt.checks[i..][1..] == rt.checks[i + 1..];
        if !Passes(rt, mutation.fields, rt.checks[i]) {
          return Some(Complaint(rt.checks[i]));
        }
      }
      err := None;
    }

    /** The per-field part of createSpec: each set field goes into the spec and onto the node. */
    method CopyFields(node: AccountEntity, order: seq<Column>) returns (fields: seq<FieldSpec>)
      requires node.values == map[]
      modifies node`values
      ensures fields == SpecFields(mutation.fields, order)
      ensures node.values == CopiedFields(mutation.fields, order)
    {
      fields := [];
      ghost var m := mutation.fields;
      for i := 0 to |order|
        invariant fields == SpecFields(m, order[..i])
        invariant node.values == CopiedFields(m, order[..i])
      {
        var c := order[i];
        assert order[..i + 1] == order[..i] + [c];
        SpecFieldsSnoc(m, order[..i], c);
        CopiedFieldsSnoc(m, order[..i], c);
        if c in mutation.fields {
          fields := fields + [FieldSpec(c, mutation.fields[c])];
          node.values := node.values[c := mutation.fields[c]];
        }
      }
      assert order[..|order|] == order;
    }

    /** The per-edge part: one edge for each kind of target that was asked for. */
    method CompileEdges() returns (edges: seq<EdgeSpec>)
      ensures edges == SpecEdges(mutation.Draft())
    {
      edges := [];
      var groups := KeysInAnyOrder(mutation.groups);
      if |groups| > 0 {
        var edge := Append(EdgeSpec(M2M, Groups, {}), groups);
        assert edge.targets == mutation.groups;
        edges := edges + [edge];
      }
      if mutation.proxy.Some? {
        edges := edges + [EdgeSpec(M2O, Proxy, {mutation.proxy.value})];
      }
      var usageLogs := KeysInAnyOrder(mutation.usageLogs);
      if |usageLogs| > 0 {
        var edge := Append(EdgeSpec(O2M, UsageLogs, {}), usageLogs);
        assert edge.targets == mutation.usageLogs;
        edges := edges + [edge];
      }
    }

    /** createSpec: compiles the mutation into the node to return and the specification to insert. */
    method Compile(rt: Runtime) returns (node: AccountEntity, spec: CreateSpec)
      ensures fresh(node) && node.id == 0
      ensures node.values == NodeValues(rt, mutation.Draft())
      ensures spec == SpecOf(rt, mutation.Draft())
    {
      node := new AccountEntity();
      var fields := CopyFields(node, rt.copied);
      if mutation.proxy.Some? {
        node.values := node.values[ProxyID := Int(mutation.proxy.value)];
      }
      var edges := CompileEdges();
      spec := CreateSpec(fields, edges);
    }
  }

  /** Appends target identifiers to an edge one by one. */
  method Append(edge: EdgeSpec, ids: seq<int>) returns (r: EdgeSpec)
    ensures r == edge.(targets := edge.targets + Elements(ids))
  {
    r := edge;
    for i := 0 to |ids|
      invariant r == edge.(targets := edge.targets + Elements(ids[..i]))
    {
      assert Elements(ids[..i + 1]) == Elements(ids[..i]) + {ids[i]};
      r := r.(targets := r.targets + {ids[i]});
    }
    assert ids[..|ids|] == ids;
  }

  /** The variables that the mutators of one Save share. The ids are those the driver writes into the
      specs; None is an identifier it did not report. */
  class BulkSave {
    const rt: Runtime
    const builders: seq<AccountBuilder>
    const driver: Driver
    var specs: seq<Option<CreateSpec>>
    var ids: seq<Option<int>>
    var nodes: seq<AccountEntity?>

    constructor (rt: Runtime, builders: seq<AccountBuilder>, driver: Driver)
      ensures this.rt == rt && this.builders == builders && this.driver == driver
      ensures |specs| == |ids| == |nodes| == |builders|
      ensures forall j :: 0 <= j < |ids| ==> ids[j] == None
    {
      this.rt, this.builders, this.driver := rt, builders, driver;
      specs := seq(|builders|, _ => None);
      ids := seq(|builders|, _ => None);
      nodes := seq(|builders|, _ => null);
    }

    /** The slices cover all builders, and no two builders share a mutation. */
    ghost predicate Valid()
      reads this, builders
    {
      && |specs| == |ids| == |nodes| == |builders|
      && (forall j, k :: 0 <= j < k < |builders| ==>
            builders[j] != builders[k] && builders[j].mutation != builders[k].mutation)
    }

    /** The chain c describes the hooks of all builders, and the mutations of those after i. */
    ghost predicate Describes(c: Chain, i: nat)
      reads *
    {
      && c.rt == rt && c.insert == driver.insert && |c.builders| == |builders|
      && (forall j :: 0 <= j < |builders| ==> c.builders[j].hooks == builders[j].hooks)
      && (forall j :: i < j < |builders| ==> c.builders[j].draft == builders[j].mutation.Draft())
    }

    ghost predicate Collected(prefix: seq<CreateSpec>)
      reads this
    {
      |prefix| <= |specs| && forall j :: 0 <= j < |prefix| ==> specs[j] == Some(prefix[j])
    }

    /** The object m is what travels down builder i's hooks as passed; null is a mutation of another
        entity. */
    ghost predicate Travels(i: nat, m: AccountMutation?, passed: Passed)
      requires i < |builders|
      reads *
    {
      match passed
      case Own => m == builders[i].mutation
      case Other(d) => m != null && m.Draft() == d && forall b <- builders :: b.mutation != m
      case Foreign => m == null
    }

    ghost predicate NoneDone(i: nat)
      reads *
    {
      forall j :: i <= j < |builders| ==> !builders[j].mutation.done
    }

    /** What every call of mutator i leaves behind for builder i and those further in. */
    ghost predicate Reflects(done: set<nat>, i: nat)
      requires Valid()
      reads *
    {
      forall j :: i <= j < |builders| ==>
        && (builders[j].mutation.done <==> j in done)
        && (j in done ==>
              && nodes[j] != null
              && builders[j].mutation.id == IDField(nodes[j])
              && nodes[j].id == if ids[j].Some? then ids[j].value else 0)
    }

    /** The driver's answer to an insert is what the ids hold. */
    ghost predicate Reported(c: Chain, batches: seq<seq<CreateSpec>>)
      reads this
    {
      batches != [] && c.insert(batches[0]).Success? ==>
        ids == Padded(c.insert(batches[0]).value, |builders|)
    }

    method Batch(ghost c: Chain, ghost prefix: seq<CreateSpec>) returns (err: Option<Error>, ghost trace: seq<Event>)
      requires Valid() && Describes(c, |builders|) && Collected(prefix) && |prefix| == |builders|
      modifies this`ids, driver
      ensures |ids| == |builders|
      ensures var o := BulkChain.Batch(c, prefix);
              && err == o.err && trace == o.trace
              && driver.batches == old(driver.batches) + Inserts(o.trace)
              && Reported(c, Inserts(o.trace))
    {
      var rows := seq(|specs|, j requires 0 <= j < |specs| && specs[j].Some? reads this => specs[j].value);
      assert rows == prefix;
      var r := driver.BatchCreate(rows);
      trace := [Insert(rows)];
      match r {
        case Success(reported) =>
          ids := Padded(reported, |builders|);
          err := None;
        case Failure(e) =>
          err := Some(Wrap(e));
      }
    }

    /** What a hook that goes on hands to the next mutator. */
    method PassOn(i: nat, step: Step, m: AccountMutation?, ghost passed: Passed) returns (next: AccountMutation?)
      requires Valid() && i < |builders| && Travels(i, m, passed) && !step.Stop? && (m != null ==> !m.done)
      modifies m
      ensures m != null ==> m.done == old(m.done) && m.id == old(m.id)
      ensures next == m || next == null || fresh(next)
      ensures next != null ==> !next.done
      ensures builders[i].mutation.Draft() == Take(step, old(builders[i].mutation.Draft()), passed).0
      ensures Travels(i, next, Take(step, old(builders[i].mutation.Draft()), passed).1)
    {
      match step {
        case Edit(d) =>
          if m != null {
            m.fields, m.groups, m.proxy, m.usageLogs := d.fields, d.groups, d.proxy, d.usageLogs;
          }
          next := m;
        case Replace(d) =>
          next := new AccountMutation(d);
        case PassForeign =>
          next := null;
      }
    }

    /** The set rest holds the builders from i on and their mutations, and none of the others. */
    ghost predicate Separates(i: nat, rest: set<object>)
      reads this, builders
    {
      && this !in rest && driver !in rest
      && (forall j :: i <= j < |builders| ==> builders[j] in rest && builders[j].mutation in rest)
      && (forall j :: 0 <= j < i && j < |builders| ==> builders[j] !in rest && builders[j].mutation !in rest)
    }

    /** Mutator i from hook h on, called with the mutation m; o is what it must come to. */
    method Hooked(i: nat, h: nat, m: AccountMutation?, ghost c: Chain, ghost passed: Passed,
                  ghost prefix: seq<CreateSpec>, ghost rest: set<object>, ghost o: Outcome)
        returns (err: Option<Error>, ghost trace: seq<Event>)
      requires Valid() && i < |builders| && h <= |builders[i].hooks| && Separates(i + 1, rest)
      requires Describes(c, i) && Travels(i, m, passed) && m !in rest
      requires Collected(prefix) && |prefix| == i
      requires NoneDone(i) && (m != null ==> !m.done)
      requires o == BulkChain.Hooked(c, i, h, builders[i].mutation.Draft(), passed, prefix)
      modifies this, driver, builders[i], builders[i].mutation, m, rest
      ensures Valid() && forall j :: 0 <= j < i ==> nodes[j] == old(nodes[j])
      ensures err == o.err && trace == o.trace
      ensures driver.batches == old(driver.batches) + Inserts(o.trace)
      ensures Reflects(o.done, i) && Reported(c, Inserts(o.trace))
      ensures forall j :: i <= j < |builders| && j in o.done ==> fresh(nodes[j])
      decreases |builders| - i, |builders[i].hooks| - h, 2
    {
      if h == |builders[i].hooks| {
        err, trace := Base(i, m, c, passed, prefix, rest, o);
        return;
      }
      ghost var own := builders[i].mutation.Draft();
      AtHook(c, i, h, own, passed, prefix);
      var hook := builders[i].hooks[h];
      var step := hook.before(if m == null then None else Some(m.Draft()));
      assert step == hook.before(See(own, passed));
      if step.Stop? {
        return step.result, [Enter(i, h)] + [] + [Leave(i, h)];
      }
      ghost var inner := BulkChain.Hooked(c, i, h + 1, Take(step, own, passed).0, Take(step, own, passed).1, prefix);
      var next := PassOn(i, step, m, passed);
      err, trace := Hooked(i, h + 1, next, c, Take(step, own, passed).1, prefix, rest, inner);
      err := hook.after(err);
      trace := [Enter(i, h)] + trace + [Leave(i, h)];
    }

    /** The innermost step of mutator i. */
    method Base(i: nat, m: AccountMutation?, ghost c: Chain, ghost passed: Passed,
                ghost prefix: seq<CreateSpec>, ghost rest: set<object>, ghost o: Outcome)
        returns (err: Option<Error>, ghost trace: seq<Event>)
      requires Valid() && i < |builders| && Separates(i + 1, rest)
      requires Describes(c, i) && Travels(i, m, passed) && m !in rest
      requires Collected(prefix) && |prefix| == i
      requires NoneDone(i) && (m != null ==> !m.done)
      requires o == BulkChain.Base(c, i, builders[i].mutation.Draft(), passed, prefix)
      modifies this, driver, builders[i], m, rest
      ensures Valid() && forall j :: 0 <= j < i ==> nodes[j] == old(nodes[j])
      ensures err == o.err && trace == o.trace
      ensures driver.batches == old(driver.batches) + Inserts(o.trace)
      ensures Reflects(o.done, i) && Reported(c, Inserts(o.trace))
      ensures forall j :: i <= j < |builders| && j in o.done ==> fresh(nodes[j])
      decreases |builders| - i, 0, 1
    {
      trace := [];
      err := Screen(i, m);
      if err.Some? {
        return;
      }
      var node, spec := CompileInto(i, m);
      ghost var inner := Deeper(c, i + 1, prefix + [spec]);
      assert o == inner.(done := if inner.err.Some? then inner.done else inner.done + {i});
      err, trace := Finish(i, m, node, c, prefix + [spec], rest, inner);
    }

    /** Runs what is further in and, if that succeeds, completes builder i. */
    method Finish(i: nat, m: AccountMutation, node: AccountEntity, ghost c: Chain,
                  ghost prefix: seq<CreateSpec>, ghost rest: set<object>, ghost inner: Outcome)
        returns (err: Option<Error>, ghost trace: seq<Event>)
      requires Valid() && i < |builders| && Separates(i + 1, rest) && Describes(c, i)
      requires builders[i].mutation == m && nodes[i] == node && node.id == 0 && node !in rest
      requires Collected(prefix) && |prefix| == i + 1
      requires NoneDone(i)
      requires inner == Deeper(c, i + 1, prefix)
      modifies this, driver, m, node, rest
      ensures Valid() && forall j :: 0 <= j < i ==> nodes[j] == old(nodes[j])
      ensures err == inner.err && trace == inner.trace
      ensures driver.batches == old(driver.batches) + Inserts(inner.trace)
      ensures Reflects(if inner.err.Some? then inner.done else inner.done + {i}, i)
      ensures Reported(c, Inserts(inner.trace))
      ensures nodes[i] == node && forall j :: i < j < |builders| && j in inner.done ==> fresh(nodes[j])
      decreases |builders| - i, 0, 0
    {
      err, trace := Next(i + 1, c, prefix, rest, inner);
      if err.None? {
        Complete(i, m, node, inner.done);
      }
    }

    /** The type assertion and the check that come before anything else. */
    method Screen(i: nat, m: AccountMutation?) returns (err: Option<Error>)
      requires i < |builders|
      ensures err == if m == null then Some(UnexpectedMutationType) else Check(rt, builders[i].mutation.fields)
    {
      if m == null {
        return Some(UnexpectedMutationType);
      }
      err := builders[i].CheckMutation(rt);
    }

    /** Makes m the builder's mutation and stores the node and the spec compiled from it. */
    method CompileInto(i: nat, m: AccountMutation) returns (node: AccountEntity, spec: CreateSpec)
      requires Valid() && i < |builders|
      requires forall j :: 0 <= j < |builders| && j != i ==> builders[j].mutation != m
      modifies this`nodes, this`specs, builders[i]
      ensures Valid() && builders[i].mutation == m
      ensures fresh(node) && node.id == 0 && spec == SpecOf(rt, m.Draft())
      ensures nodes == old(nodes)[i := node] && specs == old(specs)[i := Some(spec)]
    {
      builders[i].mutation := m;
      node, spec := builders[i].Compile(rt);
      nodes, specs := nodes[i := node], specs[i := Some(spec)];
    }

    /** What the base step of builder i - 1 calls: the next mutator, or after the last the insert. */
    method Next(i: nat, ghost c: Chain, ghost prefix: seq<CreateSpec>, ghost rest: set<object>, ghost o: Outcome)
        returns (err: Option<Error>, ghost trace: seq<Event>)
      requires Valid() && 0 < i <= |builders| && Separates(i, rest)
      requires Describes(c, i - 1) && Collected(prefix) && |prefix| == i
      requires NoneDone(i)
      requires o == Deeper(c, i, prefix)
      modifies this, driver, rest
      ensures Valid() && forall j :: 0 <= j < i ==> nodes[j] == old(nodes[j])
      ensures err == o.err && trace == o.trace
      ensures driver.batches == old(driver.batches) + Inserts(o.trace)
      ensures Reflects(o.done, i) && Reported(c, Inserts(o.trace))
      ensures forall j :: i <= j < |builders| && j in o.done ==> fresh(nodes[j])
      decreases |builders| - i, if i < |builders| then |builders[i].hooks| else 0, 3
    {
      if i < |builders| {
        var m := builders[i].mutation;
        err, trace := Hooked(i, 0, m, c, Own, prefix, rest - {builders[i], m}, o);
      } else {
        err, trace := Batch(c, prefix);
      }
    }

    /** Calls mutator 0 of the chain p, which describes all builders. */
    method Start(ghost p: Chain) returns (err: Option<Error>, ghost trace: seq<Event>)
      requires Valid() && builders != [] && NoneDone(0) && Describes(p, 0)
      requires p.builders[0].draft == builders[0].mutation.Draft()
      modifies this, driver, builders, set b | b in builders :: b.mutation
      ensures Valid()
      ensures var o := Deeper(p, 0, []);
              && err == o.err && trace == o.trace
              && driver.batches == old(driver.batches) + Inserts(o.trace)
              && Reflects(o.done, 0) && Reported(p, Inserts(o.trace))
    {
      var m := builders[0].mutation;
      ghost var owned: set<AccountBuilder> := set b | b in builders[1..] :: b;
      ghost var mutations: set<AccountMutation> := set b | b in owned :: b.mutation;
      assert builders[0] !in owned && m !in mutations;
      ghost var rest: set<object> := owned + mutations;
      assert Separates(1, rest) by {
        forall j | 1 <= j < |builders| ensures builders[j] in owned {
          assert builders[1..][j - 1] in builders[1..];
        }
      }
      err, trace := Hooked(0, 0, m, p, Own, [], rest, Deeper(p, 0, []));
    }

    /** After success further in: the mutation's id refers to the node, the node takes the identifier
        the driver reported, and the mutation is done. */
    method Complete(i: nat, m: AccountMutation, node: AccountEntity, ghost done: set<nat>)
      requires Valid() && i < |builders| && builders[i].mutation == m && nodes[i] == node && node.id == 0
      requires Reflects(done, i + 1) && forall j :: i < j < |builders| && j in done ==> nodes[j] != node
      modifies m`id, m`done, node
      ensures Reflects(done + {i}, i)
    {
      m.id := IDField(node);
      if ids[i].Some? {
        node.id := ids[i].value;
      }
      m.done := true;
    }
  }

  /** The driver may report fewer identifiers than rows. */
  function Padded(ids: seq<Option<int>>, n: nat): (r: seq<Option<int>>)
    ensures |r| == n && forall j :: 0 <= j < n ==> r[j] == if j < |ids| then ids[j] else None
  {
    seq(n, j requires 0 <= j < n => if j < |ids| then ids[j] else None)
  }

  class AccountCreateBulk {
    const driver: Driver
    const builders: seq<AccountBuilder>
    var err: Option<Error>

    constructor (driver: Driver, builders: seq<AccountBuilder>)
      ensures this.driver == driver && this.builders == builders && err == None
    {
      this.driver, this.builders, this.err := driver, builders, None;
    }

    /** No two builders are the same or share a mutation, and no mutation was saved before. */
    ghost predicate Unsaved()
      reads *
    {
      && (forall j, k :: 0 <= j < k < |builders| ==>
            builders[j] != builders[k] && builders[j].mutation != builders[k].mutation)
      && (forall b <- builders :: !b.mutation.done)
    }

    ghost function Chain(rt: Runtime): Chain
      reads *
    {
      BulkChain.Chain(rt, seq(|builders|, j requires 0 <= j < |builders| reads * => builders[j].Abstract()),
                      driver.insert)
    }

    /** Fills the defaults of every builder; the errors are dropped. */
    method FillDefaults(rt: Runtime, ghost p: Chain)
      requires Unsaved() && |p.builders| == |builders|
      requires forall j :: 0 <= j < |builders| ==> p.builders[j] == Prepared(rt, builders[j].Abstract())
      modifies (set b | b in builders :: b.mutation)`fields
      ensures forall j :: 0 <= j < |builders| ==> builders[j].Abstract() == p.builders[j]
    {
      ghost var target := seq(|builders|, j requires 0 <= j < |builders| reads * =>
                                            Defaults(rt, builders[j].mutation.fields).0);
      for i := 0 to |builders|
        invariant forall j :: 0 <= j < i ==> builders[j].mutation.fields == target[j]
        invariant forall j :: i <= j < |builders| ==>
                    builders[j].mutation.fields == old(builders[j].mutation.fields)
      {
        var ignored := builders[i].SetDefaults(rt);
      }
    }

    /** Builder j, if it is done, refers to the node returned for it, which has the ID reported for its
        row if the driver performed an insert. */
    ghost predicate Complete(o: Outcome, nodes: seq<AccountEntity?>)
      reads *
    {
      && |nodes| == |builders|
      && forall j :: 0 <= j < |builders| ==>
           && (builders[j].mutation.done <==> j in o.done)
           && (j in o.done ==>
                 && nodes[j] != null
                 && builders[j].mutation.CurrentID() == Some(nodes[j].id)
                 && forall batch :: Inserts(o.trace) == [batch] && driver.insert(batch).Success? ==>
                      var ids := driver.insert(batch).value;
                      nodes[j].id == if j < |ids| && ids[j].Some? then ids[j].value else 0)
    }

    /** Creates the accounts. The outcome is the one BulkChain.Save describes, the driver sees the
        inserts of its trace, and exactly the mutations it lists end up done. */
    method Save(rt: Runtime)
        returns (r: Result<seq<AccountEntity?>, Error>, ghost nodes: seq<AccountEntity?>, ghost trace: seq<Event>)
      requires Unsaved()
      modifies driver, builders, set b | b in builders :: b.mutation
      ensures err.Some? ==> r == Failure(err.value) && driver.batches == old(driver.batches)
      ensures err.None? ==>
                var o := BulkChain.Save(old(Chain(rt)));
                && trace == o.trace
                && r == (if o.err.Some? then Failure(o.err.value) else Success(nodes))
                && driver.batches == old(driver.batches) + Inserts(o.trace)
                && Complete(o, nodes)
    {
      nodes, trace := [], [];
      if err.Some? {
        return Failure(err.value), nodes, trace;
      }
      ghost var p := Prepare(Chain(rt));
      FillDefaults(rt, p);
      if |builders| > 0 {
        r, nodes, trace := Run(rt, p);
      } else {
        r := Success([]);
      }
    }

    /** Calls the first mutator of the chain p, which describes the builders as they are. */
    method Run(rt: Runtime, ghost p: Chain)
        returns (r: Result<seq<AccountEntity?>, Error>, ghost nodes: seq<AccountEntity?>, ghost trace: seq<Event>)
      requires Unsaved() && builders != []
      requires p.rt == rt && p.insert == driver.insert && |p.builders| == |builders|
      requires forall j :: 0 <= j < |builders| ==> builders[j].Abstract() == p.builders[j]
      modifies driver, builders, set b | b in builders :: b.mutation
      ensures var o := Deeper(p, 0, []);
              && trace == o.trace
              && r == (if o.err.Some? then Failure(o.err.value) else Success(nodes))
              && driver.batches == old(driver.batches) + Inserts(o.trace)
              && Complete(o, nodes)
    {
      var save := new BulkSave(rt, builders, driver);
      var e;
      e, trace := save.Start(p);
      nodes := save.nodes;
      r := if e.Some? then Failure(e.value) else Success(save.nodes);
    }
  }
}
