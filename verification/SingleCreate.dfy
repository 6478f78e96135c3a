/** The single Save of a create builder as code: withHooks around sqlSave. */
module SingleCreate {
  import opened Wrappers
  import opened AccountSchema
  import opened AccountCreate
  import opened AccountMutations
  import opened BulkChain
  import opened BulkCreate
  import opened SingleSave

  /** The driver, which inserts one row at a time and remembers what it was asked for. */
  class NodeDriver {
    const create: NodeInsert
    var created: seq<CreateSpec>

    constructor (create: NodeInsert)
      ensures this.create == create && created == []
    {
      this.create, created := create, [];
    }

    method CreateNode(spec: CreateSpec) returns (r: Result<int, DriverError>)
      modifies this
      ensures r == create(spec) && created == old(created) + [spec]
    {
      created := created + [spec];
      r := create(spec);
    }
  }

  /** The rows of a trace of single inserts. */
  function Rows(batches: seq<seq<CreateSpec>>): seq<CreateSpec> {
    if batches == [] then [] else batches[0] + Rows(batches[1..])
  }

  /** The object m is what travels down the hooks of b as passed; null is a mutation of another entity. */
  ghost predicate Travels(b: AccountBuilder, m: AccountMutation?, passed: Passed)
    reads b, m
  {
    match passed
    case Own => m == b.mutation
    case Other(d) => m != null && m != b.mutation && m.Draft() == d
    case Foreign => m == null
  }

  /** What a hook that goes on hands to the next mutator. */
  method PassOn(b: AccountBuilder, step: Step, m: AccountMutation?, ghost passed: Passed)
      returns (next: AccountMutation?)
    requires Travels(b, m, passed) && !step.Stop?
    modifies m
    ensures b.mutation.done == old(b.mutation.done)
    ensures next == m || next == null || fresh(next)
    ensures b.mutation.Draft() == Take(step, old(b.mutation.Draft()), passed).0
    ensures Travels(b, next, Take(step, old(b.mutation.Draft()), passed).1)
  {
    match step {
      case Edit(d) =>
        if m != null {
          m.fields, m.groups, m.proxy, m.usageLogs := d.fields, d.groups, d.proxy, d.usageLogs;
        }
        next := m;
      case Replace(d) =>
        next := new AccountMutation(d);
      case PassForeign =>
        next := null;
    }
  }

  /** What a save did: nothing is done without a row, and with one the builder's mutation is done and its
      identifier is that of the node and of the row. */
  ghost predicate Reflects(b: AccountBuilder, driver: NodeDriver, node: AccountEntity?, o: Outcome)
    reads b, b.mutation, node, if b.mutation.id.IDField? then {b.mutation.id.node} else {}
  {
    && (b.mutation.done <==> 0 in o.done)
    && (0 in o.done ==>
          && node != null && b.mutation.CurrentID() == Some(node.id)
          && |Rows(Inserts(o.trace))| == 1 && driver.create(Rows(Inserts(o.trace))[0]) == Success(node.id))
  }

  /** sqlSave, after withHooks copied the mutation that was passed down over the builder's own. */
  method SqlSave(b: AccountBuilder, rt: Runtime, driver: NodeDriver, m: AccountMutation?, ghost passed: Passed)
      returns (err: Option<Error>, node: AccountEntity?, ghost trace: seq<Event>)
    requires Travels(b, m, passed) && !b.mutation.done
    modifies b.mutation, driver
    ensures var o := SingleSave.SqlSave(rt, driver.create, old(b.mutation.Draft()), passed);
            && err == o.err && trace == o.trace && driver.created == old(driver.created) + Rows(Inserts(o.trace))
            && Reflects(b, driver, node, o)
  {
    trace, node := [], null;
    if m == null {
      return Some(UnexpectedMutationType), null, trace;
    }
    b.mutation.fields, b.mutation.groups := m.fields, m.groups;
    b.mutation.proxy, b.mutation.usageLogs := m.proxy, m.usageLogs;
    err := b.CheckMutation(rt);
    if err.Some? {
      return;
    }
    var entity, spec := b.Compile(rt);
    var r := driver.CreateNode(spec);
    trace := [Insert([spec])];
    OneRow(spec);
    match r {
      case Failure(e) =>
        err := Some(Wrap(e));
      case Success(id) =>
        entity.id := id;
        b.mutation.id := IDField(entity);
        b.mutation.done := true;
        node := entity;
    }
  }

  lemma OneRow(spec: CreateSpec)
    ensures Rows(Inserts([Insert([spec])])) == [spec]
  {
    assert Inserts([Insert([spec])]) == [[spec]] + Inserts([]);
    assert Rows([[spec]]) == [spec] + Rows([]);
  }

  /** The hooks from hook h on, called with the mutation m. */
  method Wrapped(b: AccountBuilder, rt: Runtime, driver: NodeDriver, h: nat, m: AccountMutation?, ghost passed: Passed)
      returns (err: Option<Error>, node: AccountEntity?, ghost trace: seq<Event>)
    requires h <= |b.hooks| && Travels(b, m, passed) && !b.mutation.done
    modifies b.mutation, driver, m
    ensures var o := SingleSave.Wrapped(rt, driver.create, b.hooks, h, old(b.mutation.Draft()), passed);
            && err == o.err && trace == o.trace && driver.created == old(driver.created) + Rows(Inserts(o.trace))
            && Reflects(b, driver, node, o)
    decreases |b.hooks| - h
  {
    if h == |b.hooks| {
      err, node, trace := SqlSave(b, rt, driver, m, passed);
      return;
    }
    ghost var own := b.mutation.Draft();
    var step := b.hooks[h].before(if m == null then None else Some(m.Draft()));
    assert step == b.hooks[h].before(See(own, passed));
    if step.Stop? {
      InsertsInside(0, h, []);
      assert [Enter(0, h), Leave(0, h)] == [Enter(0, h)] + [] + [Leave(0, h)];
      return step.result, null, [Enter(0, h), Leave(0, h)];
    }
    var next := PassOn(b, step, m, passed);
    err, node, trace := Wrapped(b, rt, driver, h + 1, next, Take(step, own, passed).1);
    InsertsInside(0, h, trace);
    err := b.hooks[h].after(err);
    trace := [Enter(0, h)] + trace + [Leave(0, h)];
  }

  /** Save, up to the type of the value that the hooks return: the error, the inserted rows, and what
      became of the mutation are those of SingleSave.Save. */
  method Save(b: AccountBuilder, rt: Runtime, driver: NodeDriver)
      returns (err: Option<Error>, node: AccountEntity?, ghost trace: seq<Event>)
    requires !b.mutation.done
    modifies b.mutation, driver
    ensures var o := SingleSave.Save(rt, driver.create, old(b.Abstract()));
            && err == o.err && trace == o.trace && driver.created == old(driver.created) + Rows(Inserts(o.trace))
            && Reflects(b, driver, node, o)
  {
    err := b.SetDefaults(rt);
    if err.Some? {
      return err, null, [];
    }
    err, node, trace := Wrapped(b, rt, driver, 0, b.mutation, Own);
  }
}
