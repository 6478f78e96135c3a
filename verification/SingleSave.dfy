/** The single Save of a builder, and when it and the bulk chain insert the same. */
module SingleSave {
  import opened Wrappers
  import opened AccountSchema
  import opened AccountCreate
  import opened BulkChain

  /** One insert of one row: an error, or the identifier that the database chose. */
  type NodeInsert = CreateSpec -> Result<int, DriverError>

  /** The hooks of a single Save from hook h on, around the step that saves. */
  function Wrapped(rt: Runtime, create: NodeInsert, hooks: seq<Hook>, h: nat, own: Draft, passed: Passed): Outcome
    requires h <= |hooks|
    decreases |hooks| - h
  {
    if h == |hooks| then SqlSave(rt, create, own, passed)
    else
      var step := hooks[h].before(See(own, passed));
      if step.Stop? then Outcome(step.result, [Enter(0, h), Leave(0, h)], {})
      else
        var (own', passed') := Take(step, own, passed);
        var inner := Wrapped(rt, create, hooks, h + 1, own', passed');
        Outcome(hooks[h].after(inner.err), [Enter(0, h)] + inner.trace + [Leave(0, h)], inner.done)
  }

  /** The innermost step first takes over the mutation that was passed down, and then checks it. */
  function SqlSave(rt: Runtime, create: NodeInsert, own: Draft, passed: Passed): Outcome {
    if passed.Foreign? then Outcome(Some(UnexpectedMutationType), [], {})
    else
      var d := See(own, passed).value;
      if Check(rt, d.fields).Some? then Outcome(Check(rt, d.fields), [], {})
      else
        match create(SpecOf(rt, d))
        case Success(_) => Outcome(None, [Insert([SpecOf(rt, d)])], {0})
        case Failure(e) => Outcome(Some(Wrap(e)), [Insert([SpecOf(rt, d)])], {})
  }

  /** Save stops at an error of defaults(). */
  function Save(rt: Runtime, create: NodeInsert, b: Builder): Outcome {
    var (fields, err) := Defaults(rt, b.draft.fields);
    if err.Some? then Outcome(err, [], {})
    else Wrapped(rt, create, b.hooks, 0, b.draft.(fields := fields), Own)
  }

  /** A builder's single Save: defaults with their error honoured, hooks, and a check of the mutation
      that the hooks passed down, because the wrapper first copies it over the builder's own. */
  predicate SavesAlone(rt: Runtime, b: Builder) {
    var d := Descend(Prepared(rt, b));
    Defaults(rt, b.draft.fields).1.None? && d.Arrived? && !d.passed.Foreign? &&
    Check(rt, See(d.own, d.passed).value.fields).None?
  }

  lemma {:induction false} WrappedInserts(rt: Runtime, create: NodeInsert, hooks: seq<Hook>, h: nat, own: Draft,
                                          passed: Passed)
    requires h <= |hooks|
    ensures var d := DescendFrom(hooks, h, own, passed);
            Inserts(Wrapped(rt, create, hooks, h, own, passed).trace) ==
            if d.Arrived? && !d.passed.Foreign? && Check(rt, See(d.own, d.passed).value.fields).None?
              then [[SpecOf(rt, See(d.own, d.passed).value)]] else []
    decreases |hooks| - h
  {
    if h < |hooks| {
      var step := hooks[h].before(See(own, passed));
      if step.Stop? {
        InsertsInside(0, h, []);
        assert [Enter(0, h), Leave(0, h)] == [Enter(0, h)] + [] + [Leave(0, h)];
      } else {
        var (own', passed') := Take(step, own, passed);
        WrappedInserts(rt, create, hooks, h + 1, own', passed');
        InsertsInside(0, h, Wrapped(rt, create, hooks, h + 1, own', passed').trace);
      }
    } else if !passed.Foreign? && Check(rt, See(own, passed).value.fields).None? {
      var spec := SpecOf(rt, See(own, passed).value);
      assert Inserts([Insert([spec])]) == [[spec]] + Inserts([]);
    }
  }

  /** A single Save inserts at most once: the row of the mutation that its hooks pass down, if its defaults
      succeed, every hook calls next with an account mutation and that mutation passes the check. */
  lemma InsertsIffSavesAlone(rt: Runtime, create: NodeInsert, b: Builder)
    ensures var d := Descend(Prepared(rt, b));
            Inserts(Save(rt, create, b).trace) ==
            if SavesAlone(rt, b) then [[SpecOf(rt, See(d.own, d.passed).value)]] else []
  {
    WrappedInserts(rt, create, b.hooks, 0, Prepared(rt, b).draft, Own);
  }

  // ----- bulk against single Save -----

  /** The hook edits the mutation it was given or stops; it never hands over another one. */
  ghost predicate EditsInPlace(h: Hook) {
    forall d: Option<Draft> :: h.before(d).Stop? || h.before(d).Edit?
  }

  lemma {:induction false} EditsKeepOwn(hooks: seq<Hook>, h: nat, own: Draft)
    requires h <= |hooks| && forall hook <- hooks :: EditsInPlace(hook)
    ensures var d := DescendFrom(hooks, h, own, Own); d.Arrived? ==> d.passed == Own
    decreases |hooks| - h
  {
    if h < |hooks| {
      assert EditsInPlace(hooks[h]);
      var step := hooks[h].before(Some(own));
      if step.Edit? {
        EditsKeepOwn(hooks, h + 1, step.draft);
      }
    }
  }

  /** Without hooks, discarding the error of defaults() changes nothing: the bulk chain gets to the
      insert exactly when every builder's own Save does. */
  lemma IgnoredDefaultsErrorIsHarmless(c: Chain, create: NodeInsert)
    requires ForAccounts(c.rt) && c.builders != [] && forall b <- c.builders :: b.hooks == []
    ensures Inserts(BulkChain.Save(c).trace) != [] <==>
            forall b <- c.builders :: Inserts(Save(c.rt, create, b).trace) != []
  {
    var p := Prepare(c);
    InsertsExactlyOnce(c);
    forall j | 0 <= j < |c.builders|
      ensures Reaches(p.rt, p.builders[j]) <==> Inserts(Save(c.rt, create, c.builders[j]).trace) != []
    {
      var b := c.builders[j];
      InsertsIffSavesAlone(c.rt, create, b);
      if Defaults(c.rt, b.draft.fields).1.Some? {
        DefaultsErrorFailsCheck(c.rt, b.draft.fields);
      }
    }
  }

  /** With hooks that edit in place, a single Save gets to the insert exactly when its defaults succeed
      and the builder gets through the bulk chain ... */
  lemma InPlaceHooksAgree(rt: Runtime, b: Builder)
    requires forall hook <- b.hooks :: EditsInPlace(hook)
    ensures SavesAlone(rt, b) <==> Defaults(rt, b.draft.fields).1.None? && Reaches(rt, Prepared(rt, b))
  {
    EditsKeepOwn(b.hooks, 0, Prepared(rt, b).draft);
  }

  /** ... and where they fail, a hook can fill the missing field, which the bulk chain accepts and a
      single Save never gets to see. */
  lemma HookRepairsDefaults(rt: Runtime, draft: Draft, hook: Hook, repaired: Draft)
    requires Defaults(rt, draft.fields).1.Some? && Check(rt, repaired.fields).None?
    requires hook.before == (_ => Edit(repaired))
    ensures Reaches(rt, Prepared(rt, Builder(draft, [hook]))) && !SavesAlone(rt, Builder(draft, [hook]))
  {
    var b := Prepared(rt, Builder(draft, [hook]));
    assert hook.before(Some(b.draft)) == Edit(repaired);
    assert DescendFrom(b.hooks, 1, repaired, Own) == Arrived(repaired, Own);
  }

  /** A hook that hands over another mutation escapes the check in the bulk chain: the check reads the
      builder's own mutation, and the row is compiled from the other one. A single Save checks the
      mutation that it inserts. */
  lemma ReplacementIsNotChecked(rt: Runtime, draft: Draft, hook: Hook, other: Draft)
    requires Defaults(rt, draft.fields).1.None? && Check(rt, Defaults(rt, draft.fields).0).None?
    requires hook.before == (_ => Replace(other))
    ensures var b := Builder(draft, [hook]);
            var d := Descend(Prepared(rt, b));
            && Admits(rt, d) && AdmittedSpec(rt, d) == SpecOf(rt, other)
            && (SavesAlone(rt, b) <==> Check(rt, other.fields).None?)
  {
    var b := Prepared(rt, Builder(draft, [hook]));
    assert hook.before(Some(b.draft)) == Replace(other);
    assert DescendFrom(b.hooks, 1, b.draft, Other(other)) == Arrived(b.draft, Other(other));
  }

  /** With hooks that edit in place, every row that is inserted was compiled from a mutation that
      passed the check. */
  lemma InsertedRowsAreChecked(c: Chain, i: nat)
    requires i < |c.builders| && Inserts(BulkChain.Save(c).trace) != []
    requires forall hook <- c.builders[i].hooks :: EditsInPlace(hook)
    ensures var batch := Inserts(BulkChain.Save(c).trace)[0];
            i < |batch| && exists d: Draft :: Check(c.rt, d.fields).None? && batch[i] == SpecOf(c.rt, d)
  {
    var p := Prepare(c);
    InsertsExactlyOnce(c);
    EditsKeepOwn(p.builders[i].hooks, 0, p.builders[i].draft);
    var d := Descend(p.builders[i]);
    assert Reaches(p.rt, p.builders[i]);
    assert SpecsFrom(p, 0)[i] == AdmittedSpec(p.rt, Descend(p.builders[0 + i]));
    assert Check(c.rt, d.own.fields).None? && Inserts(BulkChain.Save(c).trace)[0][i] == SpecOf(c.rt, d.own);
  }

  // ----- exactly when the two agree -----

  ghost predicate AllInPlace(hooks: seq<Hook>) {
    forall hook <- hooks :: EditsInPlace(hook)
  }

  /** The bulk chain lets the builder through exactly when its single Save would insert. */
  predicate Agrees(rt: Runtime, b: Builder) {
    Reaches(rt, Prepared(rt, b)) <==> SavesAlone(rt, b)
  }

  predicate DefaultsInstalled(rt: Runtime) {
    forall c <- rt.defaulted :: c in rt.defaults
  }

  lemma {:induction false} InstalledDefaultsSucceed(rt: Runtime, m: FieldMap, cs: seq<Column>)
    requires forall c <- cs :: c in rt.defaults || c in m
    ensures DefaultsOver(rt, m, cs).1.None?
    decreases cs
  {
    if cs != [] {
      assert cs == [cs[0]] + cs[1..];
      assert cs[0] in cs;
      InstalledDefaultsSucceed(rt, if cs[0] in m then m else m[cs[0] := rt.defaults[cs[0]]], cs[1..]);
    }
  }

  lemma {:induction false} MissingDefaultFails(rt: Runtime, m: FieldMap, cs: seq<Column>, c: Column)
    requires c in cs && c !in rt.defaults && c !in m
    ensures DefaultsOver(rt, m, cs).1.Some?
    decreases cs
  {
    assert cs == [cs[0]] + cs[1..];
    if cs[0] != c {
      if cs[0] in m {
        MissingDefaultFails(rt, m, cs[1..], c);
      } else if cs[0] in rt.defaults {
        MissingDefaultFails(rt, m[cs[0] := rt.defaults[cs[0]]], cs[1..], c);
      }
    }
  }

  /** With hooks that edit in place, bulk and single Save agree on every builder if and only if every
      default is installed; good is any mutation that passes the check. */
  lemma AgreeIffDefaultsInstalled(rt: Runtime, good: Draft)
    requires Check(rt, good.fields).None?
    ensures DefaultsInstalled(rt) <==> forall b: Builder :: AllInPlace(b.hooks) ==> Agrees(rt, b)
  {
    if DefaultsInstalled(rt) {
      forall b: Builder | AllInPlace(b.hooks) ensures Agrees(rt, b) {
        InstalledDefaultsSucceed(rt, b.draft.fields, rt.defaulted);
        InPlaceHooksAgree(rt, b);
      }
    } else {
      var c :| c in rt.defaulted && c !in rt.defaults;
      MissingDefaultFails(rt, EMPTY_DRAFT.fields, rt.defaulted, c);
      var b := Builder(EMPTY_DRAFT, [Always(Edit(good))]);
      HookRepairsDefaults(rt, EMPTY_DRAFT, Always(Edit(good)), good);
      assert AllInPlace(b.hooks);
    }
  }

  /** Where a builder with one hook is concerned, bulk and single Save agree on every mutation if and only
      if whatever the hook replaces a mutation by fares in the check as that mutation does. */
  lemma OneHookAgreesIff(rt: Runtime, h: Hook)
    requires DefaultsInstalled(rt)
    ensures (forall d: Draft :: Agrees(rt, Builder(d, [h]))) <==>
            forall d: Draft :: ReplacesAlike(rt, h, Prepared(rt, Builder(d, [h])).draft)
  {
    forall d: Draft
      ensures Agrees(rt, Builder(d, [h])) <==> ReplacesAlike(rt, h, Prepared(rt, Builder(d, [h])).draft)
    {
      var b := Prepared(rt, Builder(d, [h]));
      InstalledDefaultsSucceed(rt, d.fields, rt.defaulted);
      var step := h.before(Some(b.draft));
      assert See(b.draft, Own) == Some(b.draft);
      if !step.Stop? {
        var (own, passed) := Take(step, b.draft, Own);
        assert DescendFrom(b.hooks, 1, own, passed) == Arrived(own, passed);
      }
    }
  }

  /** If the hook replaces the mutation d, both pass the check or both fail it. */
  predicate ReplacesAlike(rt: Runtime, h: Hook, d: Draft) {
    var step := h.before(Some(d));
    step.Replace? ==> (Check(rt, d.fields).None? <==> Check(rt, step.draft.fields).None?)
  }

  /** The hook never hands over another account mutation than the one it was given. */
  ghost predicate NeverReplaces(h: Hook) {
    forall d: Draft :: !h.before(Some(d)).Replace?
  }

  /** Among hooks that edit in place, wherever it stands, h leaves bulk and single Save in agreement on
      every builder if and only if it never replaces an account mutation. A hook that replaces one by a
      mutation that fares alike does not suffice: a later hook edits the replacement alone. */
  lemma AgreesAnywhereIffNeverReplaces(rt: Runtime, h: Hook, good: Draft, bad: Draft)
    requires DefaultsInstalled(rt) && Check(rt, good.fields).None? && Check(rt, bad.fields).Some?
    ensures NeverReplaces(h) <==>
            forall outer: seq<Hook>, inner: seq<Hook>, d: Draft ::
              AllInPlace(outer) && AllInPlace(inner) ==> Agrees(rt, Builder(d, outer + [h] + inner))
  {
    if NeverReplaces(h) {
      forall outer: seq<Hook>, inner: seq<Hook>, d: Draft | AllInPlace(outer) && AllInPlace(inner)
        ensures Agrees(rt, Builder(d, outer + [h] + inner))
      {
        InstalledDefaultsSucceed(rt, d.fields, rt.defaulted);
        var hooks := outer + [h] + inner;
        forall k | 0 <= k < |hooks| && k != |outer| ensures EditsInPlace(hooks[k]) {
          assert k < |outer| ==> hooks[k] in outer;
          assert k > |outer| ==> hooks[k] == inner[k - |outer| - 1];
        }
        NeverReplaced(hooks, |outer|, 0, Prepared(rt, Builder(d, hooks)).draft, Own);
      }
    } else {
      var d: Draft :| h.before(Some(d)).Replace?;
      var last := if Check(rt, d.fields).None? then bad else good;
      EditAfterReplacement(rt, h, d, last);
      assert AllInPlace([Always(Edit(d))]) && AllInPlace([Always(Edit(last))]);
    }
  }

  lemma {:induction false} NeverReplaced(hooks: seq<Hook>, at: nat, k: nat, own: Draft, passed: Passed)
    requires at < |hooks| && NeverReplaces(hooks[at])
    requires forall j :: 0 <= j < |hooks| && j != at ==> EditsInPlace(hooks[j])
    requires k <= |hooks| && !passed.Other? && (passed.Foreign? ==> at < k)
    ensures var d := DescendFrom(hooks, k, own, passed); d.Arrived? ==> !d.passed.Other?
    decreases |hooks| - k
  {
    if k < |hooks| {
      var step := hooks[k].before(See(own, passed));
      if !step.Stop? {
        NeverReplaced(hooks, at, k + 1, Take(step, own, passed).0, Take(step, own, passed).1);
      }
    }
  }

  lemma EditAfterReplacement(rt: Runtime, h: Hook, d: Draft, last: Draft)
    requires DefaultsInstalled(rt) && h.before(Some(d)).Replace?
    requires Check(rt, d.fields).None? <==> Check(rt, last.fields).Some?
    ensures !Agrees(rt, Builder(d, [Always(Edit(d))] + [h] + [Always(Edit(last))]))
  {
    var b := Prepared(rt, Builder(d, [Always(Edit(d))] + [h] + [Always(Edit(last))]));
    InstalledDefaultsSucceed(rt, d.fields, rt.defaulted);
    var other := h.before(Some(d)).draft;
    assert See(d, Own) == Some(d) && See(d, Other(other)) == Some(other);
    assert DescendFrom(b.hooks, 3, d, Other(last)) == Arrived(d, Other(last));
    assert DescendFrom(b.hooks, 2, d, Other(other)) == Arrived(d, Other(last));
    assert DescendFrom(b.hooks, 1, d, Own) == Arrived(d, Other(last));
  }
}
