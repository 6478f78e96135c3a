/** Hooks of a bulk create that may call the next mutator several times, as a hook that retries does. They
    leave the mutation alone and decide by the results of the calls they have made. */
module Retries {
  import opened Wrappers
  import opened AccountSchema
  import opened AccountCreate
  import BulkChain

  datatype Turn = Return(result: Option<Error>) | CallNext

  /** What a hook does after the calls with the given results; after limit calls it returns. */
  datatype Hook = Hook(turn: seq<Option<Error>> -> Turn, limit: nat, last: seq<Option<Error>> -> Option<Error>)
  {
    function Decide(results: seq<Option<Error>>): Turn {
      if |results| >= limit then Return(last(results)) else turn(results)
    }
  }

  datatype Builder = Builder(draft: Draft, hooks: seq<Hook>)

  /** The insert may come to something else each time it is attempted. */
  datatype Chain = Chain(rt: Runtime, builders: seq<Builder>, outcome: nat -> Option<Error>)

  /** The error of a call, and the inserts attempted until its end. */
  datatype Ended = Ended(err: Option<Error>, attempts: nat)

  /** Mutator i from hook h on, after n attempts. */
  function Hooked(c: Chain, i: nat, h: nat, n: nat): (r: Ended)
    requires i < |c.builders| && h <= |c.builders[i].hooks|
    ensures r.attempts >= n
    decreases |c.builders| - i, |c.builders[i].hooks| - h,
              if h < |c.builders[i].hooks| then c.builders[i].hooks[h].limit + 1 else 0
  {
    if h < |c.builders[i].hooks| then Turns(c, i, h, [], n)
    else if Check(c.rt, c.builders[i].draft.fields).Some? then Ended(Check(c.rt, c.builders[i].draft.fields), n)
    else Deeper(c, i + 1, n)
  }

  /** Hook h of builder i after the calls with the given results. */
  function Turns(c: Chain, i: nat, h: nat, results: seq<Option<Error>>, n: nat): (r: Ended)
    requires i < |c.builders| && h < |c.builders[i].hooks| && |results| <= c.builders[i].hooks[h].limit
    ensures r.attempts >= n
    decreases |c.builders| - i, |c.builders[i].hooks| - h, c.builders[i].hooks[h].limit - |results|
  {
    match c.builders[i].hooks[h].Decide(results)
    case Return(result) => Ended(result, n)
    case CallNext =>
      var r := Hooked(c, i, h + 1, n);
      Turns(c, i, h, results + [r.err], r.attempts)
  }

  function Deeper(c: Chain, i: nat, n: nat): (r: Ended)
    requires i <= |c.builders|
    ensures r.attempts >= n
    decreases |c.builders| - i, if i < |c.builders| then |c.builders[i].hooks| + 1 else 0, 0
  {
    if i < |c.builders| then Hooked(c, i, 0, n) else Ended(c.outcome(n), n + 1)
  }

  function Save(c: Chain): Ended {
    if c.builders == [] then Ended(None, 0) else Deeper(c, 0, 0)
  }

  /** How often the rows are stored by the attempts from the first up to the last. */
  function Stored(c: Chain, first: nat, last: nat): nat
    requires first <= last
    decreases last
  {
    if first == last then 0 else Stored(c, first, last - 1) + if c.outcome(last - 1).None? then 1 else 0
  }

  lemma {:induction false} StoredSplit(c: Chain, a: nat, b: nat, d: nat)
    requires a <= b <= d
    ensures Stored(c, a, d) == Stored(c, a, b) + Stored(c, b, d)
    decreases d
  {
    if b < d {
      StoredSplit(c, a, b, d - 1);
    }
  }

  // ----- how many inserts are attempted -----

  /** A hook that makes all of its calls whatever they come to. */
  ghost predicate Steady(h: Hook) {
    forall results: seq<Option<Error>> :: |results| < h.limit ==> h.turn(results).CallNext?
  }

  ghost predicate AllSteady(c: Chain) {
    forall b <- c.builders, h <- b.hooks :: Steady(h)
  }

  predicate ChecksPass(c: Chain, i: nat)
    requires i <= |c.builders|
    decreases |c.builders| - i
  {
    i < |c.builders| ==> Check(c.rt, c.builders[i].draft.fields).None? && ChecksPass(c, i + 1)
  }

  /** The product of the numbers of calls. */
  function Paths(c: Chain, i: nat, h: nat): nat
    requires i < |c.builders| && h <= |c.builders[i].hooks|
    decreases |c.builders| - i, |c.builders[i].hooks| - h
  {
    if h < |c.builders[i].hooks| then c.builders[i].hooks[h].limit * Paths(c, i, h + 1)
    else if i + 1 < |c.builders| then Paths(c, i + 1, 0)
    else 1
  }

  /** Hooks that always call next so and so often multiply the inserts; a failing check prevents all. */
  lemma {:induction false} AttemptsMultiply(c: Chain, i: nat, h: nat, n: nat)
    requires i < |c.builders| && h <= |c.builders[i].hooks| && AllSteady(c)
    ensures Hooked(c, i, h, n).attempts == n + if ChecksPass(c, i) then Paths(c, i, h) else 0
    decreases |c.builders| - i, |c.builders[i].hooks| - h,
              if h < |c.builders[i].hooks| then c.builders[i].hooks[h].limit + 1 else 0
  {
    if h < |c.builders[i].hooks| {
      TurnsMultiply(c, i, h, [], n);
    } else if i + 1 < |c.builders| {
      AttemptsMultiply(c, i + 1, 0, n);
    }
  }

  lemma {:induction false} TurnsMultiply(c: Chain, i: nat, h: nat, results: seq<Option<Error>>, n: nat)
    requires i < |c.builders| && h < |c.builders[i].hooks| && |results| <= c.builders[i].hooks[h].limit
    requires AllSteady(c)
    ensures Turns(c, i, h, results, n).attempts ==
            n + (c.builders[i].hooks[h].limit - |results|) * if ChecksPass(c, i) then Paths(c, i, h + 1) else 0
    decreases |c.builders| - i, |c.builders[i].hooks| - h, c.builders[i].hooks[h].limit - |results|
  {
    var hook := c.builders[i].hooks[h];
    assert Steady(hook) by {
      assert c.builders[i] in c.builders && hook in c.builders[i].hooks;
    }
    if |results| < hook.limit {
      var r := Hooked(c, i, h + 1, n);
      AttemptsMultiply(c, i, h + 1, n);
      TurnsMultiply(c, i, h, results + [r.err], r.attempts);
      assert Turns(c, i, h, results, n) == Turns(c, i, h, results + [r.err], r.attempts);
      Distributes(hook.limit - |results|, r.attempts - n);
    }
  }

  lemma Distributes(k: int, x: int)
    ensures k * x == x + (k - 1) * x
  {}

  // ----- storing the rows at most once -----

  /** The hook gets as far as these results. */
  predicate Reaches(h: Hook, results: seq<Option<Error>>) {
    forall k :: 0 <= k < |results| ==> h.Decide(results[..k]).CallNext?
  }

  predicate FirstSuccess(results: seq<Option<Error>>) {
    && results != [] && results[|results| - 1].None?
    && forall k :: 0 <= k < |results| - 1 ==> results[k].Some?
  }

  /** After the first call that succeeds the hook returns success. */
  ghost predicate Careful(h: Hook) {
    forall results :: Reaches(h, results) && FirstSuccess(results) ==> h.Decide(results) == Return(None)
  }

  ghost predicate AllCareful(c: Chain) {
    forall b <- c.builders, h <- b.hooks :: Careful(h)
  }

  /** The rows were stored at most once, and then the call succeeded. */
  predicate Once(c: Chain, n: nat, r: Ended)
    requires n <= r.attempts
  {
    Stored(c, n, r.attempts) <= 1 && (Stored(c, n, r.attempts) == 1 ==> r.err.None?)
  }

  lemma {:induction false} HookedOnce(c: Chain, i: nat, h: nat, n: nat)
    requires i < |c.builders| && h <= |c.builders[i].hooks| && AllCareful(c)
    ensures Once(c, n, Hooked(c, i, h, n))
    decreases |c.builders| - i, |c.builders[i].hooks| - h,
              if h < |c.builders[i].hooks| then c.builders[i].hooks[h].limit + 1 else 0
  {
    if h < |c.builders[i].hooks| {
      TurnsOnce(c, i, h, [], n);
    } else if i + 1 < |c.builders| {
      HookedOnce(c, i + 1, 0, n);
    }
  }

  lemma {:induction false} TurnsOnce(c: Chain, i: nat, h: nat, results: seq<Option<Error>>, n: nat)
    requires i < |c.builders| && h < |c.builders[i].hooks| && |results| <= c.builders[i].hooks[h].limit
    requires AllCareful(c) && Reaches(c.builders[i].hooks[h], results) && forall e <- results :: e.Some?
    ensures Once(c, n, Turns(c, i, h, results, n))
    decreases |c.builders| - i, |c.builders[i].hooks| - h, c.builders[i].hooks[h].limit - |results|
  {
    var hook := c.builders[i].hooks[h];
    if hook.Decide(results).CallNext? {
      var r := Hooked(c, i, h + 1, n);
      var more := results + [r.err];
      HookedOnce(c, i, h + 1, n);
      assert forall k :: 0 <= k < |more| ==> more[..k] == results[..k];
      assert results[..|results|] == results;
      if r.err.None? {
        assert Careful(hook) by {
          assert c.builders[i] in c.builders && hook in c.builders[i].hooks;
        }
        assert Turns(c, i, h, more, r.attempts) == Ended(None, r.attempts);
      } else {
        TurnsOnce(c, i, h, more, r.attempts);
        StoredSplit(c, n, r.attempts, Turns(c, i, h, more, r.attempts).attempts);
      }
    }
  }

  // ----- and exactly which hooks keep it so -----

  ghost predicate OnlyBeside(c: Chain, h: Hook) {
    forall b <- c.builders, x <- b.hooks :: x == h || Careful(x)
  }

  predicate StoresOnce(c: Chain) {
    Stored(c, 0, Save(c).attempts) <= 1
  }

  /** A careful hook that calls next once more after an error. */
  const RETRY := Hook((results: seq<Option<Error>>) =>
                        if results == [] || results[|results| - 1].Some? then CallNext else Return(None),
                      2,
                      (results: seq<Option<Error>>) => if results == [] then None else results[|results| - 1])

  /** The innermost hook of the last builder gets the outcomes of the attempts. */
  lemma {:induction false} Follows(c: Chain, h: nat, results: seq<Option<Error>>, k: nat)
    requires |c.builders| == 1 && |c.builders[0].hooks| == h + 1 && Check(c.rt, c.builders[0].draft.fields).None?
    requires Reaches(c.builders[0].hooks[h], results) && k <= |results| <= c.builders[0].hooks[h].limit
    requires forall n :: 0 <= n < |results| ==> c.outcome(n) == results[n]
    ensures Turns(c, 0, h, results[..k], k) == Turns(c, 0, h, results, |results|)
    decreases |results| - k
  {
    if k == |results| {
      assert results[..k] == results;
    } else {
      assert Hooked(c, 0, h + 1, k) == Ended(results[k], k + 1);
      assert results[..k] + [results[k]] == results[..k + 1];
      Follows(c, h, results, k + 1);
    }
  }

  lemma StoredAgain(c: Chain, k: nat, attempts: nat)
    requires 0 < k < attempts && c.outcome(k - 1).None? && c.outcome(k).None?
    ensures Stored(c, 0, attempts) >= 2
  {
    StoredSplit(c, 0, k - 1, attempts);
    StoredSplit(c, k - 1, k + 1, attempts);
    assert Stored(c, k - 1, k) == 1;
  }

  lemma OneMoreAttempt(c: Chain, h: nat, results: seq<Option<Error>>, n: nat)
    requires |c.builders| == 1 && |c.builders[0].hooks| == h + 1 && Check(c.rt, c.builders[0].draft.fields).None?
    requires c.builders[0].hooks[h].Decide(results).CallNext?
    ensures |results| <= c.builders[0].hooks[h].limit && Turns(c, 0, h, results, n).attempts > n
  {
    assert Hooked(c, 0, h + 1, n).attempts == n + 1;
  }

  /** A hook that calls next after a success stores the rows again; one that reports an error after a
      success makes a hook around it do so. */
  lemma StoresTwice(rt: Runtime, h: Hook, results: seq<Option<Error>>, good: Draft) returns (c: Chain)
    requires Check(rt, good.fields).None?
    requires Reaches(h, results) && FirstSuccess(results) && h.Decide(results) != Return(None)
    ensures c.rt == rt && OnlyBeside(c, h) && !StoresOnce(c)
  {
    var k := |results|;
    var outcome := (n: nat) => if n < k then results[n] else None;
    var again := h.Decide(results).CallNext?;
    c := Chain(rt, [Builder(good, if again then [h] else [RETRY, h])], outcome);
    assert h.Decide(results[..k - 1]).CallNext? && h.Decide(results[..0]).CallNext?;
    assert results[..0] == [];
    if again {
      Follows(c, 0, results, 0);
      OneMoreAttempt(c, 0, results, k);
      assert Save(c) == Hooked(c, 0, 0, 0) == Turns(c, 0, 0, [], 0);
    } else {
      Follows(c, 1, results, 0);
      OneMoreAttempt(c, 1, [], k);
      RetriesOnce(c, h.Decide(results).result, k);
    }
    StoredAgain(c, k, Save(c).attempts);
  }

  lemma RetriesOnce(c: Chain, err: Option<Error>, n: nat)
    requires |c.builders| == 1 && |c.builders[0].hooks| == 2 && c.builders[0].hooks[0] == RETRY
    requires Turns(c, 0, 1, [], 0) == Ended(err, n) && err.Some?
    ensures Save(c).attempts >= Turns(c, 0, 1, [], n).attempts
  {
    assert Hooked(c, 0, 1, 0) == Ended(err, n);
    assert [] + [err] == [err];
    assert Turns(c, 0, 0, [], 0) == Turns(c, 0, 0, [err], n);
    assert RETRY.Decide([err]) == CallNext;
    var r := Hooked(c, 0, 1, n);
    assert r == Turns(c, 0, 1, [], n);
    assert Turns(c, 0, 0, [err], n) == Turns(c, 0, 0, [err] + [r.err], r.attempts);
    assert Save(c) == Hooked(c, 0, 0, 0) == Turns(c, 0, 0, [], 0);
  }

  /** A hook keeps every chain of otherwise careful hooks from storing the rows more than once exactly if
      it returns success after the first call that succeeds. */
  lemma CarefulIsExact(rt: Runtime, h: Hook, good: Draft)
    requires Check(rt, good.fields).None?
    ensures Careful(h) <==> forall c: Chain :: c.rt == rt && OnlyBeside(c, h) ==> StoresOnce(c)
  {
    if Careful(h) {
      forall c: Chain | c.rt == rt && OnlyBeside(c, h) ensures StoresOnce(c) {
        if c.builders != [] {
          HookedOnce(c, 0, 0, 0);
        }
      }
    } else {
      var results :| Reaches(h, results) && FirstSuccess(results) && h.Decide(results) != Return(None);
      var c := StoresTwice(rt, h, results, good);
    }
  }

  // ----- hooks that call next at most once -----

  /** Such a hook as one of the chain of BulkChain. */
  function AsBefore(h: Hook): BulkChain.Hook {
    BulkChain.Hook((seen: Option<Draft>) => Before(h, seen), (err: Option<Error>) => h.last([err]))
  }

  function Before(h: Hook, seen: Option<Draft>): BulkChain.Step {
    match h.Decide([])
    case Return(result) => BulkChain.Stop(result)
    case CallNext => if seen.Some? then BulkChain.Edit(seen.value) else BulkChain.PassForeign
  }

  /** The same builders with hooks that call next at most once, and the same answer to every insert. */
  ghost predicate SameChain(c: Chain, b: BulkChain.Chain) {
    && c.rt == b.rt && |c.builders| == |b.builders|
    && (forall i :: 0 <= i < |c.builders| ==>
          && b.builders[i].draft == c.builders[i].draft && |b.builders[i].hooks| == |c.builders[i].hooks|
          && forall h :: 0 <= h < |c.builders[i].hooks| ==>
               c.builders[i].hooks[h].limit <= 1 && b.builders[i].hooks[h] == AsBefore(c.builders[i].hooks[h]))
    && (forall specs, n :: BulkChain.Batch(b, specs).err == c.outcome(n))
  }

  /** Both models agree on the error and on the number of inserts. */
  lemma {:induction false} OnceAsBefore(c: Chain, b: BulkChain.Chain, i: nat, h: nat, n: nat, specs: seq<CreateSpec>)
    requires SameChain(c, b) && i < |c.builders| && h <= |c.builders[i].hooks|
    ensures var o := BulkChain.Hooked(b, i, h, b.builders[i].draft, BulkChain.Own, specs);
            Hooked(c, i, h, n) == Ended(o.err, n + |BulkChain.Inserts(o.trace)|)
    decreases |c.builders| - i, |c.builders[i].hooks| - h
  {
    var own := b.builders[i].draft;
    if h < |c.builders[i].hooks| {
      var hook := c.builders[i].hooks[h];
      BulkChain.AtHook(b, i, h, own, BulkChain.Own, specs);
      if hook.Decide([]).CallNext? {
        OnceAsBefore(c, b, i, h + 1, n, specs);
        var r := Hooked(c, i, h + 1, n);
        assert [] + [r.err] == [r.err];
        assert Turns(c, i, h, [], n) == Turns(c, i, h, [r.err], r.attempts);
      }
    } else {
      BulkChain.AtBase(b, i, own, BulkChain.Own, specs);
      if Check(c.rt, own.fields).None? {
        var specs' := specs + [SpecOf(c.rt, own)];
        if i + 1 < |c.builders| {
          OnceAsBefore(c, b, i + 1, 0, n, specs');
        } else {
          assert BulkChain.Batch(b, specs').err == c.outcome(n);
        }
      }
    }
  }
}
