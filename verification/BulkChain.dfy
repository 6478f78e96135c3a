/** The chain of mutators behind a bulk create, as a function of the builders, their hooks and the
    driver. Mutator i runs builder i's hooks around its base step, and the base step of builder i
    calls mutator i + 1; only the base step of the last builder performs the insert. */
module BulkChain {
  import opened Wrappers
  import opened AccountSchema
  import opened AccountCreate

  /** What a hook decides before it calls the next mutator, if it does: edit in place the mutation it
      was given, hand over another account mutation, or hand over a mutation of another entity. */
  datatype Step =
    | Stop(result: Option<Error>)
    | Edit(draft: Draft)
    | Replace(draft: Draft)
    | PassForeign

  /** A hook that calls next at most once. It sees None for a mutation of another entity, and after
      the call it may turn the error it gets into any other result. */
  datatype Hook = Hook(before: Option<Draft> -> Step, after: Option<Error> -> Option<Error>)

  datatype Builder = Builder(draft: Draft, hooks: seq<Hook>)

  /** The mutation that travels down a hook chain: the builder's own object or something else. */
  datatype Passed = Own | Other(draft: Draft) | Foreign

  datatype DriverError = Constraint(msg: string) | Failed(msg: string)

  /** One atomic batch insert: an error, or for each row the identifier the driver reported. */
  type BatchInsert = seq<CreateSpec> -> Result<seq<Option<int>>, DriverError>

  datatype Chain = Chain(rt: Runtime, builders: seq<Builder>, insert: BatchInsert)

  datatype Event =
    | Enter(builder: nat, hook: nat)
    | Leave(builder: nat, hook: nat)
    | Insert(specs: seq<CreateSpec>)

  /** What one call of a mutator did: the error it returned, the hook calls and inserts in order, and
      the builders whose mutation it marked as done. */
  datatype Outcome = Outcome(err: Option<Error>, trace: seq<Event>, done: set<nat>)

  function Wrap(e: DriverError): Error {
    match e
    case Constraint(msg) => ConstraintError(msg)
    case Failed(msg) => OtherError(msg)
  }

  function See(own: Draft, passed: Passed): Option<Draft> {
    match passed
    case Own => Some(own)
    case Other(d) => Some(d)
    case Foreign => None
  }

  /** The builder's own mutation and the travelling one after a hook's decision to go on. */
  function Take(step: Step, own: Draft, passed: Passed): (Draft, Passed)
    requires !step.Stop?
  {
    match step
    case Edit(d) => if passed.Own? then (d, Own) else if passed.Other? then (own, Other(d)) else (own, Foreign)
    case Replace(d) => (own, Other(d))
    case PassForeign => (own, Foreign)
  }

  /** Mutator i from hook h on, with the specs that the builders before i have compiled. */
  function Hooked(c: Chain, i: nat, h: nat, own: Draft, passed: Passed, specs: seq<CreateSpec>): (o: Outcome)
    requires i < |c.builders| && h <= |c.builders[i].hooks|
    ensures forall j :: j in o.done ==> i <= j < |c.builders|
    decreases |c.builders| - i, |c.builders[i].hooks| - h, 1
  {
    if h == |c.builders[i].hooks| then Base(c, i, own, passed, specs)
    else
      var hook := c.builders[i].hooks[h];
      var step := hook.before(See(own, passed));
      if step.Stop? then Outcome(step.result, [Enter(i, h), Leave(i, h)], {})
      else
        var (own', passed') := Take(step, own, passed);
        var inner := Hooked(c, i, h + 1, own', passed', specs);
        Outcome(hook.after(inner.err), [Enter(i, h)] + inner.trace + [Leave(i, h)], inner.done)
  }

  /** The innermost step of mutator i. The check reads the builder's own mutation; the spec is
      compiled from the one that was passed down. */
  function Base(c: Chain, i: nat, own: Draft, passed: Passed, specs: seq<CreateSpec>): (o: Outcome)
    requires i < |c.builders|
    ensures forall j :: j in o.done ==> i <= j < |c.builders|
    decreases |c.builders| - i, 0, 0
  {
    if passed.Foreign? then Outcome(Some(UnexpectedMutationType), [], {})
    else if Check(c.rt, own.fields).Some? then Outcome(Check(c.rt, own.fields), [], {})
    else
      var specs' := specs + [SpecOf(c.rt, See(own, passed).value)];
      var inner := Deeper(c, i + 1, specs');
      if inner.err.Some? then inner else inner.(done := inner.done + {i})
  }

  /** What the base step of builder i - 1 calls: the next mutator, or after the last the insert. */
  function Deeper(c: Chain, i: nat, specs: seq<CreateSpec>): (o: Outcome)
    requires i <= |c.builders|
    ensures forall j :: j in o.done ==> i <= j < |c.builders|
    decreases |c.builders| - i, if i < |c.builders| then |c.builders[i].hooks| else 0, 2
  {
    if i < |c.builders| then Hooked(c, i, 0, c.builders[i].draft, Own, specs) else Batch(c, specs)
  }

  function Batch(c: Chain, specs: seq<CreateSpec>): (o: Outcome)
    ensures Inserts(o.trace) == [specs]
  {
    assert Inserts([Insert(specs)]) == [specs] + Inserts([]);
    match c.insert(specs)
    case Success(_) => Outcome(None, [Insert(specs)], {})
    case Failure(e) => Outcome(Some(Wrap(e)), [Insert(specs)], {})
  }

  /** Save fills the defaults of every builder, ignoring the error, before it starts the chain. */
  function Prepared(rt: Runtime, b: Builder): Builder {
    b.(draft := b.draft.(fields := Defaults(rt, b.draft.fields).0))
  }

  function Prepare(c: Chain): (p: Chain)
    ensures |p.builders| == |c.builders|
    ensures forall i :: 0 <= i < |c.builders| ==> p.builders[i] == Prepared(c.rt, c.builders[i])
  {
    c.(builders := seq(|c.builders|, i requires 0 <= i < |c.builders| => Prepared(c.rt, c.builders[i])))
  }

  function Save(c: Chain): Outcome {
    if c.builders == [] then Outcome(None, [], {}) else Deeper(Prepare(c), 0, [])
  }

  // ----- one builder on its own -----

  /** Where a builder's own hooks lead, whatever happens further in. */
  datatype Descent = Stopped(at: nat, result: Option<Error>) | Arrived(own: Draft, passed: Passed)

  function DescendFrom(hooks: seq<Hook>, h: nat, own: Draft, passed: Passed): (d: Descent)
    requires h <= |hooks|
    ensures d.Stopped? ==> h <= d.at < |hooks|
    decreases |hooks| - h
  {
    if h == |hooks| then Arrived(own, passed)
    else
      var step := hooks[h].before(See(own, passed));
      if step.Stop? then Stopped(h, step.result)
      else
        var (own', passed') := Take(step, own, passed);
        DescendFrom(hooks, h + 1, own', passed')
  }

  function Descend(b: Builder): Descent {
    DescendFrom(b.hooks, 0, b.draft, Own)
  }

  predicate Admits(rt: Runtime, d: Descent) {
    d.Arrived? && !d.passed.Foreign? && Check(rt, d.own.fields).None?
  }

  /** Every hook of the builder called next, with an account mutation, and the check passed. */
  predicate Reaches(rt: Runtime, b: Builder) {
    Admits(rt, Descend(b))
  }

  function AdmittedSpec(rt: Runtime, d: Descent): CreateSpec
    requires Admits(rt, d)
  {
    SpecOf(rt, See(d.own, d.passed).value)
  }

  // ----- exactly once -----

  function Inserts(trace: seq<Event>): seq<seq<CreateSpec>> {
    if trace == [] then []
    else (if trace[0].Insert? then [trace[0].specs] else []) + Inserts(trace[1..])
  }

  lemma {:induction false} InsertsConcat(s: seq<Event>, t: seq<Event>)
    ensures Inserts(s + t) == Inserts(s) + Inserts(t)
  {
    if s == [] {
      assert s + t == t;
    } else {
      InsertsConcat(s[1..], t);
      assert (s + t)[0] == s[0] && (s + t)[1..] == s[1..] + t;
      assert Inserts(s + t) == (if s[0].Insert? then [s[0].specs] else []) + Inserts(s[1..] + t);
    }
  }

  lemma InsertsInside(i: nat, h: nat, t: seq<Event>)
    ensures Inserts([Enter(i, h)] + t + [Leave(i, h)]) == Inserts(t)
  {
    InsertsConcat([Enter(i, h)] + t, [Leave(i, h)]);
    InsertsConcat([Enter(i, h)], t);
  }

  /** A hook step read off its two cases. */
  lemma AtHook(c: Chain, i: nat, h: nat, own: Draft, passed: Passed, specs: seq<CreateSpec>)
    requires i < |c.builders| && h < |c.builders[i].hooks|
    ensures var hook := c.builders[i].hooks[h];
            var step := hook.before(See(own, passed));
            var o := Hooked(c, i, h, own, passed, specs);
            if step.Stop? then
              o == Outcome(step.result, [Enter(i, h)] + [] + [Leave(i, h)], {}) && Inserts(o.trace) == []
            else
              var inner := Hooked(c, i, h + 1, Take(step, own, passed).0, Take(step, own, passed).1, specs);
              && o == Outcome(hook.after(inner.err), [Enter(i, h)] + inner.trace + [Leave(i, h)], inner.done)
              && Inserts(o.trace) == Inserts(inner.trace)
  {
    var step := c.builders[i].hooks[h].before(See(own, passed));
    if step.Stop? {
      InsertsInside(i, h, []);
      assert [Enter(i, h), Leave(i, h)] == [Enter(i, h)] + [] + [Leave(i, h)];
    } else {
      InsertsInside(i, h, Hooked(c, i, h + 1, Take(step, own, passed).0, Take(step, own, passed).1, specs).trace);
    }
  }

  /** The base step read off its two cases. */
  lemma AtBase(c: Chain, i: nat, own: Draft, passed: Passed, specs: seq<CreateSpec>)
    requires i < |c.builders|
    ensures var o := Hooked(c, i, |c.builders[i].hooks|, own, passed, specs);
            if Admits(c.rt, Arrived(own, passed)) then
              var specs' := specs + [AdmittedSpec(c.rt, Arrived(own, passed))];
              var inner := Deeper(c, i + 1, specs');
              && o.trace == inner.trace && o.err == inner.err
              && o.done == if inner.err.Some? then inner.done else inner.done + {i}
            else o.err.Some? && o.trace == [] && o.done == {}
  {
    assert Hooked(c, i, |c.builders[i].hooks|, own, passed, specs) == Base(c, i, own, passed, specs);
  }

  predicate AllReach(c: Chain, i: nat)
    requires i <= |c.builders|
  {
    forall j :: i <= j < |c.builders| ==> Reaches(c.rt, c.builders[j])
  }

  lemma AllReachStep(c: Chain, i: nat)
    requires i < |c.builders|
    ensures AllReach(c, i) <==> Reaches(c.rt, c.builders[i]) && AllReach(c, i + 1)
  {}

  /** The specs of builders i, i + 1, ... in builder order. */
  function SpecsFrom(c: Chain, i: nat): (r: seq<CreateSpec>)
    requires i <= |c.builders| && AllReach(c, i)
    ensures |r| == |c.builders| - i
    ensures forall j :: 0 <= j < |r| ==> r[j] == AdmittedSpec(c.rt, Descend(c.builders[i + j]))
    decreases |c.builders| - i
  {
    if i == |c.builders| then []
    else [AdmittedSpec(c.rt, Descend(c.builders[i]))] + SpecsFrom(c, i + 1)
  }

  lemma SpecsSplit(c: Chain, specs: seq<CreateSpec>, i: nat)
    requires i < |c.builders| && Reaches(c.rt, c.builders[i]) && AllReach(c, i + 1)
    ensures AllReach(c, i)
    ensures specs + [AdmittedSpec(c.rt, Descend(c.builders[i]))] + SpecsFrom(c, i + 1) == specs + SpecsFrom(c, i)
  {}

  lemma {:induction false} HookedInserts(c: Chain, i: nat, h: nat, own: Draft, passed: Passed, specs: seq<CreateSpec>)
    requires i < |c.builders| && h <= |c.builders[i].hooks|
    ensures var d := DescendFrom(c.builders[i].hooks, h, own, passed);
            Inserts(Hooked(c, i, h, own, passed, specs).trace) ==
            if Admits(c.rt, d) && AllReach(c, i + 1)
              then [specs + [AdmittedSpec(c.rt, d)] + SpecsFrom(c, i + 1)] else []
    decreases |c.builders| - i, |c.builders[i].hooks| - h
  {
    if h < |c.builders[i].hooks| {
      AtHook(c, i, h, own, passed, specs);
      var step := c.builders[i].hooks[h].before(See(own, passed));
      if !step.Stop? {
        HookedInserts(c, i, h + 1, Take(step, own, passed).0, Take(step, own, passed).1, specs);
      }
      return;
    }
    AtBase(c, i, own, passed, specs);
    if Admits(c.rt, Arrived(own, passed)) {
      var specs' := specs + [AdmittedSpec(c.rt, Arrived(own, passed))];
      if i + 1 < |c.builders| {
        HookedInserts(c, i + 1, 0, c.builders[i + 1].draft, Own, specs');
        AllReachStep(c, i + 1);
        if AllReach(c, i + 1) {
          SpecsSplit(c, specs', i + 1);
        }
      } else {
        assert specs' + SpecsFrom(c, i + 1) == specs';
      }
    }
  }

  lemma InsertsFromStart(c: Chain)
    requires c.builders != []
    ensures Inserts(Hooked(c, 0, 0, c.builders[0].draft, Own, []).trace) ==
            if AllReach(c, 0) then [SpecsFrom(c, 0)] else []
  {
    var trace := Hooked(c, 0, 0, c.builders[0].draft, Own, []).trace;
    HookedInserts(c, 0, 0, c.builders[0].draft, Own, []);
    AllReachStep(c, 0);
    if AllReach(c, 0) {
      SpecsSplit(c, [], 0);
      assert Inserts(trace) == [[] + SpecsFrom(c, 0)];
      assert [] + SpecsFrom(c, 0) == SpecsFrom(c, 0);
    }
  }

  /** For any builders and hooks the driver is asked to insert at most once; it is asked exactly when
      every builder's hooks call next and every check passes, and then for one row per builder, in
      builder order. */
  lemma InsertsExactlyOnce(c: Chain)
    requires c.builders != []
    ensures var p := Prepare(c);
            Inserts(Save(c).trace) == if AllReach(p, 0) then [SpecsFrom(p, 0)] else []
  {
    InsertsFromStart(Prepare(c));
  }

  // ----- all or nothing -----

  /** The hook calls next for some mutation. */
  ghost predicate GoesOn(h: Hook) {
    exists d: Option<Draft> :: !h.before(d).Stop?
  }

  /** The hook does not claim success without calling next, and if it ever calls next it reports a failure
      of what it wraps as some failure. */
  ghost predicate KeepsErrors(h: Hook) {
    && (forall d: Option<Draft> :: h.before(d) != Stop(None))
    && (GoesOn(h) ==> forall e: Error :: h.after(Some(e)).Some?)
  }

  /** It moreover reports success as success. */
  ghost predicate KeepsOutcome(h: Hook) {
    KeepsErrors(h) && (GoesOn(h) ==> h.after(None).None?)
  }

  ghost predicate AllHooks(c: Chain, p: Hook -> bool) {
    forall i, h :: 0 <= i < |c.builders| && 0 <= h < |c.builders[i].hooks| ==> p(c.builders[i].hooks[h])
  }

  /** The rows that the driver was asked for are in the database. */
  predicate Inserted(c: Chain, trace: seq<Event>) {
    var batches := Inserts(trace);
    |batches| == 1 && c.insert(batches[0]).Success?
  }

  /** The mutations of builders k, k + 1, ... and no others. */
  ghost predicate DoneFrom(c: Chain, done: set<nat>, k: nat) {
    forall j: nat :: j in done <==> k <= j < |c.builders|
  }

  /** With hooks that keep errors, the mutations marked done are those of the builders from some k on:
      the chain completes from the inside out. None is marked unless the rows are in the database, and
      success means that all are. */
  lemma {:induction false} HookedDone(c: Chain, i: nat, h: nat, own: Draft, passed: Passed, specs: seq<CreateSpec>)
      returns (k: nat)
    requires i < |c.builders| && h <= |c.builders[i].hooks|
    requires AllHooks(c, KeepsErrors)
    ensures i <= k <= |c.builders|
    ensures DoneFrom(c, Hooked(c, i, h, own, passed, specs).done, k)
    ensures Hooked(c, i, h, own, passed, specs).err.None? ==> k == i
    ensures k < |c.builders| ==> Inserted(c, Hooked(c, i, h, own, passed, specs).trace)
    decreases |c.builders| - i, |c.builders[i].hooks| - h
  {
    k := |c.builders|;
    if h < |c.builders[i].hooks| {
      AtHook(c, i, h, own, passed, specs);
      var hook := c.builders[i].hooks[h];
      assert KeepsErrors(hook);
      var step := hook.before(See(own, passed));
      if !step.Stop? {
        assert GoesOn(hook);
        k := HookedDone(c, i, h + 1, Take(step, own, passed).0, Take(step, own, passed).1, specs);
      }
      return;
    }
    AtBase(c, i, own, passed, specs);
    if Admits(c.rt, Arrived(own, passed)) {
      var specs' := specs + [AdmittedSpec(c.rt, Arrived(own, passed))];
      if i + 1 < |c.builders| {
        k := HookedDone(c, i + 1, 0, c.builders[i + 1].draft, Own, specs');
      }
      if Hooked(c, i, h, own, passed, specs).err.None? {
        k := i;
      }
    }
  }

  /** With hooks that keep the outcome, an insert that worked is reported as a success. */
  lemma {:induction false} HookedReports(c: Chain, i: nat, h: nat, own: Draft, passed: Passed, specs: seq<CreateSpec>)
    requires i < |c.builders| && h <= |c.builders[i].hooks|
    requires AllHooks(c, KeepsOutcome)
    ensures Inserted(c, Hooked(c, i, h, own, passed, specs).trace) ==>
              Hooked(c, i, h, own, passed, specs).err.None?
    decreases |c.builders| - i, |c.builders[i].hooks| - h
  {
    if h < |c.builders[i].hooks| {
      AtHook(c, i, h, own, passed, specs);
      var hook := c.builders[i].hooks[h];
      assert KeepsOutcome(hook);
      var step := hook.before(See(own, passed));
      if !step.Stop? {
        assert GoesOn(hook);
        HookedReports(c, i, h + 1, Take(step, own, passed).0, Take(step, own, passed).1, specs);
      }
      return;
    }
    AtBase(c, i, own, passed, specs);
    if Admits(c.rt, Arrived(own, passed)) && i + 1 < |c.builders| {
      HookedReports(c, i + 1, 0, c.builders[i + 1].draft, Own, specs + [AdmittedSpec(c.rt, Arrived(own, passed))]);
    }
  }

  /** Save succeeds just if the rows are stored, and it marks every mutation or none. */
  ghost predicate IsAllOrNothing(c: Chain) {
    var o := Save(c);
    && (o.err.None? <==> Inserted(c, o.trace))
    && DoneFrom(c, o.done, if o.err.None? then 0 else |c.builders|)
  }

  /** All or nothing: with hooks that keep the outcome, Save succeeds exactly when every builder
      reaches the insert and the driver performs it, and it marks every mutation or none. */
  lemma AllOrNothing(c: Chain)
    requires c.builders != [] && AllHooks(c, KeepsOutcome)
    ensures IsAllOrNothing(c)
    ensures var p := Prepare(c);
            Save(c).err.None? <==> AllReach(p, 0) && c.insert(SpecsFrom(p, 0)).Success?
  {
    var p := Prepare(c);
    forall i, h | 0 <= i < |p.builders| && 0 <= h < |p.builders[i].hooks|
      ensures KeepsOutcome(p.builders[i].hooks[h])
    {
      assert KeepsOutcome(c.builders[i].hooks[h]);
    }
    forall i, h | 0 <= i < |p.builders| && 0 <= h < |p.builders[i].hooks|
      ensures KeepsErrors(p.builders[i].hooks[h])
    {
      assert KeepsOutcome(p.builders[i].hooks[h]);
    }
    var k := HookedDone(p, 0, 0, p.builders[0].draft, Own, []);
    HookedReports(p, 0, 0, p.builders[0].draft, Own, []);
    InsertsExactlyOnce(c);
  }

  // ----- which hooks all or nothing depends on -----

  /** A hook that does the same for every mutation and passes on every result. */
  function Always(step: Step): Hook {
    Hook(_ => step, e => e)
  }

  /** Every hook of the chain is h or keeps the outcome. */
  ghost predicate OnlyBeside(c: Chain, h: Hook) {
    forall i, k :: 0 <= i < |c.builders| && 0 <= k < |c.builders[i].hooks| ==>
      c.builders[i].hooks[k] == h || KeepsOutcome(c.builders[i].hooks[k])
  }

  /** A chain of one builder in which h is shown d, while the builder's own mutation passes the check. */
  function Around(rt: Runtime, d: Option<Draft>, h: Hook, inner: Step, good: Draft): Chain {
    var shown := Always(if d.Some? then Replace(d.value) else PassForeign);
    Chain(rt, [Builder(good, [Always(Edit(good)), shown, h, Always(inner)])],
          specs => Success(seq(|specs|, _ => None)))
  }

  lemma AroundIsBeside(rt: Runtime, d: Option<Draft>, h: Hook, inner: Step, good: Draft)
    requires inner != Stop(None)
    ensures OnlyBeside(Around(rt, d, h, inner, good), h)
  {}

  function Shown(d: Option<Draft>): Passed {
    if d.Some? then Other(d.value) else Foreign
  }

  /** The first two hooks only arrange what h is shown. */
  lemma AroundStarts(rt: Runtime, d: Option<Draft>, h: Hook, inner: Step, good: Draft)
    ensures var c := Around(rt, d, h, inner, good);
            var o := Hooked(Prepare(c), 0, 2, good, Shown(d), []);
            Save(c).err == o.err && Inserts(Save(c).trace) == Inserts(o.trace)
  {
    var p := Prepare(Around(rt, d, h, inner, good));
    AtHook(p, 0, 0, p.builders[0].draft, Own, []);
    AtHook(p, 0, 1, good, Own, []);
  }

  lemma AroundEnds(rt: Runtime, p: Chain, h: Hook, inner: Step, good: Draft, passed: Passed)
    requires |p.builders| == 1 && |p.builders[0].hooks| == 4 && p.builders[0].hooks[3] == Always(inner) && p.rt == rt
    requires forall specs :: p.insert(specs).Success?
    requires Check(rt, good.fields).None?
    ensures var o := Hooked(p, 0, 3, good, passed, []);
            && (inner.Stop? ==> o.err == inner.result && Inserts(o.trace) == [])
            && (inner == Replace(good) ==> o.err == None && Inserts(o.trace) == [[SpecOf(rt, good)]])
  {
    AtHook(p, 0, 3, good, passed, []);
    if inner == Replace(good) {
      AtBase(p, 0, good, Other(good), []);
      InsertOfOne(p, [] + [SpecOf(rt, good)]);
      assert [] + [SpecOf(rt, good)] == [SpecOf(rt, good)];
    }
  }

  /** What comes out of that chain is what h makes of what comes out further in. */
  lemma AroundRuns(rt: Runtime, d: Option<Draft>, h: Hook, inner: Step, good: Draft)
    requires Check(rt, good.fields).None?
    ensures var c := Around(rt, d, h, inner, good);
            var o := Save(c);
            var step := h.before(d);
            && (step.Stop? ==> o.err == step.result && !Inserted(c, o.trace))
            && (!step.Stop? && inner.Stop? ==> o.err == h.after(inner.result) && !Inserted(c, o.trace))
            && (!step.Stop? && inner == Replace(good) ==> o.err == h.after(None) && Inserted(c, o.trace))
  {
    var p := Prepare(Around(rt, d, h, inner, good));
    AroundStarts(rt, d, h, inner, good);
    AtHook(p, 0, 2, good, Shown(d), []);
    var step := h.before(d);
    assert step == h.before(See(good, Shown(d)));
    if !step.Stop? {
      assert Take(step, good, Shown(d)).0 == good;
      AroundEnds(rt, p, h, inner, good, Take(step, good, Shown(d)).1);
    }
  }

  lemma InsertOfOne(c: Chain, specs: seq<CreateSpec>)
    requires |c.builders| == 1 && c.insert(specs).Success?
    ensures Deeper(c, 1, specs) == Outcome(None, [Insert(specs)], {}) && Inserts([Insert(specs)]) == [specs]
  {
    assert Deeper(c, 1, specs) == Batch(c, specs);
  }

  /** All or nothing holds of every chain in which h is placed among hooks that keep the outcome if and
      only if h keeps it too: it never stops with success and, if it ever calls next, it reports failure
      as failure and success as success. */
  lemma KeepingTheOutcomeIsExact(rt: Runtime, h: Hook, good: Draft)
    requires Check(rt, good.fields).None?
    ensures KeepsOutcome(h) <==>
            forall c: Chain :: c.rt == rt && c.builders != [] && OnlyBeside(c, h) ==> IsAllOrNothing(c)
  {
    if KeepsOutcome(h) {
      forall c: Chain | c.rt == rt && c.builders != [] && OnlyBeside(c, h) ensures IsAllOrNothing(c) {
        AllOrNothing(c);
      }
    } else {
      var c := BrokenBy(rt, h, good);
    }
  }

  lemma BrokenBy(rt: Runtime, h: Hook, good: Draft) returns (c: Chain)
    requires Check(rt, good.fields).None? && !KeepsOutcome(h)
    ensures c.rt == rt && c.builders != [] && OnlyBeside(c, h) && !IsAllOrNothing(c)
  {
    if d: Option<Draft> :| h.before(d) == Stop(None) {
      c := Around(rt, d, h, Replace(good), good);
      AroundIsBeside(rt, d, h, Replace(good), good);
      AroundRuns(rt, d, h, Replace(good), good);
      return;
    }
    var d: Option<Draft> :| !h.before(d).Stop?;
    if e: Error :| h.after(Some(e)).None? {
      c := Around(rt, d, h, Stop(Some(e)), good);
      AroundIsBeside(rt, d, h, Stop(Some(e)), good);
      AroundRuns(rt, d, h, Stop(Some(e)), good);
    } else {
      c := Around(rt, d, h, Replace(good), good);
      AroundIsBeside(rt, d, h, Replace(good), good);
      AroundRuns(rt, d, h, Replace(good), good);
    }
  }

  /** For one: a hook further in that claims success without calling next makes the builders outside it
      count as done, and Save as successful, with nothing inserted. */
  lemma SilentStopMarksDone(rt: Runtime, insert: BatchInsert, d: Draft, hook: Hook)
    requires Check(rt, Defaults(rt, d.fields).0).None?
    requires hook.before(Some(Draft(Defaults(rt, d.fields).0, d.groups, d.proxy, d.usageLogs))) == Stop(None)
    ensures var c := Chain(rt, [Builder(d, []), Builder(d, [hook])], insert);
            Save(c) == Outcome(None, [Enter(1, 0), Leave(1, 0)], {0})
  {
    var c := Chain(rt, [Builder(d, []), Builder(d, [hook])], insert);
    var p := Prepare(c);
    assert p.builders[1].hooks == [hook] && p.builders[0].hooks == [];
    AtBase(p, 0, p.builders[0].draft, Own, []);
    AtHook(p, 1, 0, p.builders[1].draft, Own, [] + [SpecOf(rt, p.builders[0].draft)]);
  }

  // ----- hook nesting -----

  /** The hooks a builder enters: all of them, or those up to the one that stops. */
  function Entered(i: nat, from: nat, to: nat): seq<Event>
    requires from <= to
  {
    seq(to - from, j requires 0 <= j < to - from => Enter(i, from + j))
  }

  /** The closing events for a run of opening ones: same hooks, opposite order. */
  function Mirror(opens: seq<Event>): seq<Event> {
    if opens == [] then []
    else
      var e := opens[0];
      Mirror(opens[1..]) + (if e.Enter? then [Leave(e.builder, e.hook)] else [])
  }

  lemma {:induction false} MirrorConcat(s: seq<Event>, t: seq<Event>)
    ensures Mirror(s + t) == Mirror(t) + Mirror(s)
  {
    if s == [] {
      assert s + t == t;
    } else {
      MirrorConcat(s[1..], t);
      assert (s + t)[1..] == s[1..] + t;
    }
  }

  /** The hook calls of builder i from hook h on and of every builder that is reached through it. */
  function Opens(c: Chain, i: nat, h: nat, d: Descent): seq<Event>
    requires i < |c.builders| && h <= |c.builders[i].hooks|
    requires d.Stopped? ==> h <= d.at < |c.builders[i].hooks|
    decreases |c.builders| - i
  {
    if d.Stopped? then Entered(i, h, d.at + 1)
    else
      Entered(i, h, |c.builders[i].hooks|) +
      if Admits(c.rt, d) && i + 1 < |c.builders|
        then Opens(c, i + 1, 0, Descend(c.builders[i + 1]))
        else []
  }

  /** The insert in the middle of a trace, if there was one. */
  function Core(batches: seq<seq<CreateSpec>>): seq<Event> {
    if batches == [] then [] else [Insert(batches[0])]
  }

  /** The trace is well bracketed around at most one insert: hooks open in order, builder by builder
      and hooks[0] first, and close in exactly the opposite order. */
  lemma {:induction false} HookedNests(c: Chain, i: nat, h: nat, own: Draft, passed: Passed, specs: seq<CreateSpec>)
    requires i < |c.builders| && h <= |c.builders[i].hooks|
    ensures var opens := Opens(c, i, h, DescendFrom(c.builders[i].hooks, h, own, passed));
            var trace := Hooked(c, i, h, own, passed, specs).trace;
            trace == opens + Core(Inserts(trace)) + Mirror(opens)
    decreases |c.builders| - i, |c.builders[i].hooks| - h
  {
    var d := DescendFrom(c.builders[i].hooks, h, own, passed);
    if h < |c.builders[i].hooks| {
      AtHook(c, i, h, own, passed, specs);
      var step := c.builders[i].hooks[h].before(See(own, passed));
      if step.Stop? {
        OpensStep(c, i, h, d, [], []);
      } else {
        HookedNests(c, i, h + 1, Take(step, own, passed).0, Take(step, own, passed).1, specs);
        var inner := Hooked(c, i, h + 1, Take(step, own, passed).0, Take(step, own, passed).1, specs);
        OpensStep(c, i, h, d, Opens(c, i, h + 1, d), Core(Inserts(inner.trace)));
      }
      return;
    }
    AtBase(c, i, own, passed, specs);
    assert Entered(i, h, h) == [];
    if Admits(c.rt, d) && i + 1 < |c.builders| {
      HookedNests(c, i + 1, 0, c.builders[i + 1].draft, Own, specs + [AdmittedSpec(c.rt, d)]);
      assert Opens(c, i, h, d) == Opens(c, i + 1, 0, Descend(c.builders[i + 1]));
    } else {
      assert Opens(c, i, h, d) == [];
    }
  }

  /** One more hook outside what opens already holds. */
  lemma OpensStep(c: Chain, i: nat, h: nat, d: Descent, opens: seq<Event>, core: seq<Event>)
    requires i < |c.builders| && h < |c.builders[i].hooks|
    requires d.Stopped? ==> h <= d.at < |c.builders[i].hooks|
    requires opens == if d.Stopped? && d.at == h then [] else Opens(c, i, h + 1, d)
    ensures [Enter(i, h)] + (opens + core + Mirror(opens)) + [Leave(i, h)] ==
            Opens(c, i, h, d) + core + Mirror(Opens(c, i, h, d))
  {
    OpensHead(c, i, h, d, opens);
    MirrorConcat([Enter(i, h)], opens);
    assert Mirror([Enter(i, h)]) == Mirror([]) + [Leave(i, h)];
    Regroup([Enter(i, h)], opens, core, Mirror(opens), [Leave(i, h)]);
  }

  lemma OpensHead(c: Chain, i: nat, h: nat, d: Descent, opens: seq<Event>)
    requires i < |c.builders| && h < |c.builders[i].hooks|
    requires d.Stopped? ==> h <= d.at < |c.builders[i].hooks|
    requires opens == if d.Stopped? && d.at == h then [] else Opens(c, i, h + 1, d)
    ensures Opens(c, i, h, d) == [Enter(i, h)] + opens
  {
    var to := if d.Stopped? then d.at + 1 else |c.builders[i].hooks|;
    assert Entered(i, h, to) == [Enter(i, h)] + Entered(i, h + 1, to);
  }

  lemma Regroup(a: seq<Event>, o: seq<Event>, core: seq<Event>, m: seq<Event>, z: seq<Event>)
    ensures a + (o + core + m) + z == (a + o) + core + (m + z)
  {}

  /** Lexicographic order on hook calls: by builder, then by position in the builder's hooks. */
  predicate Outside(a: Event, b: Event) {
    a.Enter? && b.Enter? && (a.builder < b.builder || (a.builder == b.builder && a.hook < b.hook))
  }

  predicate InOrder(opens: seq<Event>) {
    forall a, b :: 0 <= a < b < |opens| ==> Outside(opens[a], opens[b])
  }

  predicate AllFrom(opens: seq<Event>, i: nat) {
    forall e <- opens :: e.Enter? && i <= e.builder
  }

  lemma {:induction false} OpensInOrder(c: Chain, i: nat, h: nat, d: Descent)
    requires i < |c.builders| && h <= |c.builders[i].hooks|
    requires d.Stopped? ==> h <= d.at < |c.builders[i].hooks|
    ensures InOrder(Opens(c, i, h, d)) && AllFrom(Opens(c, i, h, d), i)
    decreases |c.builders| - i
  {
    if d.Arrived? {
      var own := Entered(i, h, |c.builders[i].hooks|);
      if Admits(c.rt, d) && i + 1 < |c.builders| {
        var rest := Opens(c, i + 1, 0, Descend(c.builders[i + 1]));
        OpensInOrder(c, i + 1, 0, Descend(c.builders[i + 1]));
        assert forall e <- own + rest :: e in own || e in rest;
        assert Opens(c, i, h, d) == own + rest;
      } else {
        assert Opens(c, i, h, d) == own + [] == own;
      }
    }
  }

  /** Hook nesting over a whole Save: the hook calls open in builder order with hooks[0] of each
      builder outermost, no hook is called twice, at most one insert happens at the innermost point,
      and every call returns in exactly the opposite order. */
  lemma HooksNest(c: Chain)
    requires c.builders != []
    ensures var trace := Save(c).trace;
            var opens := Opens(Prepare(c), 0, 0, Descend(Prepare(c).builders[0]));
            && trace == opens + Core(Inserts(trace)) + Mirror(opens)
            && InOrder(opens)
  {
    var p := Prepare(c);
    HookedNests(p, 0, 0, p.builders[0].draft, Own, []);
    OpensInOrder(p, 0, 0, Descend(p.builders[0]));
  }
}
