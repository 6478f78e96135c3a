/** Preparing one account for insertion: default values, checks, and the compilation of a mutation
    into a node and an insert specification. */
module AccountCreate {
  import opened Wrappers
  import opened AccountSchema

  datatype CheckStep = Require(c: Column) | Validate(c: Column)

  /** What the entity's package fixes for its create builder: the value each initialised default yields,
      the validators, and the columns that the generated functions visit, in their order. */
  datatype Runtime = Runtime(
    defaults: FieldMap,
    validators: map<Column, string -> bool>,
    defaulted: seq<Column>,
    checks: seq<CheckStep>,
    copied: seq<Column>)
  {
    /** Columns without a validator accept every value. */
    predicate Accepts(c: Column, v: Value) {
      c in validators && v.Text? ==> validators[c](v.s)
    }
  }

  /** The columns that get a default, in the order in which defaults() visits them. */
  const DEFAULTED: seq<Column> :=
    [CreatedAt, UpdatedAt, Credentials, Extra, Concurrency, Priority, RateMultiplier, Status,
     AutoPauseOnExpired, Schedulable]

  /** The tables are those of the accounts package. Only the defaults that are functions can be
      uninitialised; the others are plain variables. */
  predicate ForAccounts(rt: Runtime) {
    && rt.defaulted == DEFAULTED && rt.checks == CHECKS && rt.copied == CREATE_ORDER
    && rt.validators.Keys == VALIDATED
    && {Concurrency, Priority, RateMultiplier, Status, AutoPauseOnExpired, Schedulable} <= rt.defaults.Keys
  }

  /** defaults() over the columns cs: the fields it leaves and the error it returns, if any. An early
      return keeps the defaults that were already set. */
  function DefaultsOver(rt: Runtime, m: FieldMap, cs: seq<Column>): (FieldMap, Option<Error>)
    decreases cs
  {
    if cs == [] then (m, None)
    else if cs[0] in m then DefaultsOver(rt, m, cs[1..])
    else if cs[0] !in rt.defaults then (m, Some(UninitializedDefault(cs[0])))
    else DefaultsOver(rt, m[cs[0] := rt.defaults[cs[0]]], cs[1..])
  }

  function Defaults(rt: Runtime, m: FieldMap): (FieldMap, Option<Error>) {
    DefaultsOver(rt, m, rt.defaulted)
  }

  /** The checks in the order of the generated function. */
  const CHECKS: seq<CheckStep> :=
    [Require(CreatedAt), Require(UpdatedAt), Require(Name), Validate(Name), Require(Platform),
     Validate(Platform), Require(Type), Validate(Type), Require(Credentials), Require(Extra),
     Require(Concurrency), Require(Priority), Require(RateMultiplier), Require(Status),
     Validate(Status), Require(AutoPauseOnExpired), Require(Schedulable),
     Validate(SessionWindowStatus)]

  predicate Passes(rt: Runtime, m: FieldMap, step: CheckStep) {
    match step
    case Require(c) => c in m
    case Validate(c) => c in m ==> rt.Accepts(c, m[c])
  }

  function Complaint(step: CheckStep): Error {
    match step
    case Require(c) => MissingField(c)
    case Validate(c) => ValidatorFailed(c)
  }

  /** check() over the given steps: the complaint of the first one that does not pass. */
  function CheckOver(rt: Runtime, m: FieldMap, steps: seq<CheckStep>): Option<Error> {
    if steps == [] then None
    else if Passes(rt, m, steps[0]) then CheckOver(rt, m, steps[1..])
    else Some(Complaint(steps[0]))
  }

  function Check(rt: Runtime, m: FieldMap): Option<Error> {
    CheckOver(rt, m, rt.checks)
  }

  lemma {:induction false} CheckOverIsAllSteps(rt: Runtime, m: FieldMap, steps: seq<CheckStep>)
    ensures CheckOver(rt, m, steps).None? <==> forall s <- steps :: Passes(rt, m, s)
  {
    if steps != [] {
      CheckOverIsAllSteps(rt, m, steps[1..]);
      assert steps == [steps[0]] + steps[1..];
    }
  }

  /** The complaint is that of the first step that does not pass, and says what it is about. */
  lemma {:induction false} FirstComplaint(rt: Runtime, m: FieldMap, steps: seq<CheckStep>)
    ensures CheckOver(rt, m, steps).Some? ==>
              exists k :: 0 <= k < |steps| && !Passes(rt, m, steps[k])
                && (forall j :: 0 <= j < k ==> Passes(rt, m, steps[j]))
                && CheckOver(rt, m, steps).value == match steps[k]
                                                    case Require(c) => MissingField(c)
                                                    case Validate(c) => ValidatorFailed(c)
  {
    if steps != [] && Passes(rt, m, steps[0]) {
      FirstComplaint(rt, m, steps[1..]);
      if CheckOver(rt, m, steps).Some? {
        var k :| 0 <= k < |steps[1..]| && !Passes(rt, m, steps[1..][k])
          && (forall j :: 0 <= j < k ==> Passes(rt, m, steps[1..][j]))
          && CheckOver(rt, m, steps).value == Complaint(steps[1..][k]);
        assert steps[k + 1] == steps[1..][k];
        forall j | 0 <= j < k + 1 ensures Passes(rt, m, steps[j]) {
          assert j > 0 ==> steps[j] == steps[1..][j - 1];
        }
      }
    }
  }

  const REQUIRED: set<Column> :=
    {CreatedAt, UpdatedAt, Name, Platform, Type, Credentials, Extra, Concurrency, Priority,
     RateMultiplier, Status, AutoPauseOnExpired, Schedulable}

  const VALIDATED: set<Column> := {Name, Platform, Type, Status, SessionWindowStatus}

  lemma RequiredColumns(c: Column)
    ensures Require(c) in CHECKS ==> c in REQUIRED
    ensures c in REQUIRED ==> Require(c) in CHECKS
  {}

  lemma ValidatedColumns(c: Column)
    ensures Validate(c) in CHECKS ==> c in VALIDATED
    ensures c in VALIDATED ==> Validate(c) in CHECKS
  {}

  /** check() succeeds exactly when every required field is set and every set field that has a
      validator is accepted by it. */
  lemma CheckMeansComplete(rt: Runtime, m: FieldMap)
    requires ForAccounts(rt)
    ensures Check(rt, m).None? <==> REQUIRED <= m.Keys && forall c <- m :: rt.Accepts(c, m[c])
  {
    CheckOverIsAllSteps(rt, m, CHECKS);
    if REQUIRED <= m.Keys && forall c <- m :: rt.Accepts(c, m[c]) {
      forall s <- CHECKS ensures Passes(rt, m, s) {
        RequiredColumns(s.c);
      }
    }
    if Check(rt, m).None? {
      forall c | c in REQUIRED ensures c in m {
        RequiredColumns(c);
        assert Passes(rt, m, Require(c));
      }
      forall c <- m ensures rt.Accepts(c, m[c]) {
        if c in VALIDATED {
          ValidatedColumns(c);
          assert Passes(rt, m, Validate(c));
        }
      }
    }
  }

  /** Defaults only fill gaps: what the caller set is kept and every default that is used is the
      package's. */
  lemma {:induction false} DefaultsOnlyFillGaps(rt: Runtime, m: FieldMap, cs: seq<Column>, c: Column)
    ensures var m' := DefaultsOver(rt, m, cs).0;
            && (c in m ==> c in m' && m'[c] == m[c])
            && (c in m' && c !in m ==> c in cs && c in rt.defaults && m'[c] == rt.defaults[c])
    decreases cs
  {
    if cs == [] {
    } else if cs[0] in m {
      DefaultsOnlyFillGaps(rt, m, cs[1..], c);
    } else if cs[0] in rt.defaults {
      DefaultsOnlyFillGaps(rt, m[cs[0] := rt.defaults[cs[0]]], cs[1..], c);
    }
  }

  /** Without an error every column of the list ends up set; with one, the column it names is left
      unset. */
  lemma {:induction false} DefaultsErrorLeavesGap(rt: Runtime, m: FieldMap, cs: seq<Column>)
    ensures var (m', e) := DefaultsOver(rt, m, cs);
            match e
            case None => forall c <- cs :: c in m'
            case Some(err) => err.UninitializedDefault? && err.column in cs && err.column !in m'
    decreases cs
  {
    if cs == [] {
    } else {
      assert cs == [cs[0]] + cs[1..];
      if cs[0] in m {
        DefaultsErrorLeavesGap(rt, m, cs[1..]);
        DefaultsOnlyFillGaps(rt, m, cs[1..], cs[0]);
      } else if cs[0] in rt.defaults {
        var m1: FieldMap := m[cs[0] := rt.defaults[cs[0]]];
        DefaultsErrorLeavesGap(rt, m1, cs[1..]);
        DefaultsOnlyFillGaps(rt, m1, cs[1..], cs[0]);
      }
    }
  }

  /** The error is about the first column that is neither set nor has a default, and those before it are
      filled. */
  lemma {:induction false} DefaultsStopAtFirst(rt: Runtime, m: FieldMap, cs: seq<Column>)
    ensures var (filled, err) := DefaultsOver(rt, m, cs);
            err.Some? ==>
              exists k :: 0 <= k < |cs| && err.value == UninitializedDefault(cs[k])
                && cs[k] !in rt.defaults && cs[k] !in filled && forall j :: 0 <= j < k ==> cs[j] in filled
    decreases cs
  {
    if cs != [] && (cs[0] in m || cs[0] in rt.defaults) {
      var next: FieldMap := if cs[0] in m then m else m[cs[0] := rt.defaults[cs[0]]];
      DefaultsStopAtFirst(rt, next, cs[1..]);
      DefaultsOnlyFillGaps(rt, next, cs[1..], cs[0]);
      var (filled, err) := DefaultsOver(rt, m, cs);
      if err.Some? {
        var k :| 0 <= k < |cs[1..]| && err.value == UninitializedDefault(cs[1..][k])
          && cs[1..][k] !in rt.defaults && cs[1..][k] !in filled && forall j :: 0 <= j < k ==> cs[1..][j] in filled;
        assert cs[k + 1] == cs[1..][k];
        forall j | 0 <= j < k + 1 ensures cs[j] in filled {
          assert j > 0 ==> cs[j] == cs[1..][j - 1];
        }
      }
    } else if cs != [] {
      assert cs[0] !in m;
    }
  }

  lemma RequiredIsNotNillable(c: Column)
    requires c in REQUIRED
    ensures Settable(c) && !Nillable(c)
  {}

  lemma NotNillableIsRequired(c: Column)
    requires Settable(c) && !Nillable(c)
    ensures c in REQUIRED
  {}

  lemma DefaultedWhen(c: Column)
    requires c in REQUIRED
    ensures c in DEFAULTED <==> c != Name && c != Platform && c != Type
  {}

  /** The columns that are required are the plain ones that are not nil by default, and all of them but the
      name, the platform and the type have a default. */
  lemma RequiredAreNotNillable(c: Column)
    ensures c in REQUIRED <==> Settable(c) && !Nillable(c)
    ensures c in DEFAULTED <==> c in REQUIRED && c != Name && c != Platform && c != Type
  {
    if c in REQUIRED {
      RequiredIsNotNillable(c);
      DefaultedWhen(c);
    } else if Settable(c) && !Nillable(c) {
      NotNillableIsRequired(c);
    }
    if c in DEFAULTED {
      DefaultedAreRequired(c);
    }
  }

  /** Defaults that succeed leave nothing required unset but the name, the platform and the type. */
  lemma DefaultsFill(rt: Runtime, m: FieldMap, c: Column)
    requires ForAccounts(rt) && Defaults(rt, m).1.None?
    requires Settable(c) && !Nillable(c) && c != Name && c != Platform && c != Type
    ensures c in Defaults(rt, m).0
  {
    RequiredAreNotNillable(c);
    DefaultsErrorLeavesGap(rt, m, DEFAULTED);
  }

  lemma DefaultedAreRequired(c: Column)
    requires c in DEFAULTED
    ensures c in REQUIRED
  {}

  /** Why the discarded error of defaults() is harmless without hooks: an early return leaves a
      required field unset, so check() rejects what defaults() left behind. */
  lemma DefaultsErrorFailsCheck(rt: Runtime, m: FieldMap)
    requires ForAccounts(rt) && Defaults(rt, m).1.Some?
    ensures Check(rt, Defaults(rt, m).0).Some?
  {
    var m' := Defaults(rt, m).0;
    DefaultsErrorLeavesGap(rt, m, DEFAULTED);
    var c := Defaults(rt, m).1.value.column;
    DefaultedAreRequired(c);
    RequiredColumns(c);
    CheckOverIsAllSteps(rt, m', CHECKS);
    assert !Passes(rt, m', Require(c));
  }

  /** The columns that createSpec copies, in its order, and the type it gives to each. */
  const CREATE_ORDER: seq<Column> :=
    [CreatedAt, UpdatedAt, DeletedAt, Name, Notes, Platform, Type, Credentials, Extra, Concurrency,
     LoadFactor, Priority, RateMultiplier, Status, ErrorMessage, LastUsedAt, ExpiresAt,
     AutoPauseOnExpired, Schedulable, RateLimitedAt, RateLimitResetAt, OverloadUntil,
     TempUnschedulableUntil, TempUnschedulableReason, SessionWindowStart, SessionWindowEnd,
     SessionWindowStatus]

  datatype FieldSpec = FieldSpec(column: Column, value: Value)

  datatype Rel = M2M | M2O | O2M

  datatype Edge = Groups | Proxy | UsageLogs

  /** The targets come out of a Go map or a single pointer, so their order means nothing. */
  datatype EdgeSpec = EdgeSpec(rel: Rel, edge: Edge, targets: set<int>)

  datatype CreateSpec = CreateSpec(fields: seq<FieldSpec>, edges: seq<EdgeSpec>)

  function SpecFields(m: FieldMap, cs: seq<Column>): seq<FieldSpec> {
    if cs == [] then []
    else (if cs[0] in m then [FieldSpec(cs[0], m[cs[0]])] else []) + SpecFields(m, cs[1..])
  }

  function SpecEdges(d: Draft): seq<EdgeSpec> {
    (if d.groups != {} then [EdgeSpec(M2M, Groups, d.groups)] else []) +
    (if d.proxy.Some? then [EdgeSpec(M2O, Proxy, {d.proxy.value})] else []) +
    (if d.usageLogs != {} then [EdgeSpec(O2M, UsageLogs, d.usageLogs)] else [])
  }

  function SpecOf(rt: Runtime, d: Draft): CreateSpec {
    CreateSpec(SpecFields(d.fields, rt.copied), SpecEdges(d))
  }

  lemma {:induction false} SpecFieldsSnoc(m: FieldMap, cs: seq<Column>, col: Column)
    ensures SpecFields(m, cs + [col]) == SpecFields(m, cs) + if col in m then [FieldSpec(col, m[col])] else []
  {
    if cs == [] {
      assert [col][1..] == [];
    } else {
      assert (cs + [col])[1..] == cs[1..] + [col];
      SpecFieldsSnoc(m, cs[1..], col);
    }
  }

  function CopiedFields(m: FieldMap, cs: seq<Column>): map<Column, Value> {
    map c | c in m && c in cs :: m[c]
  }

  lemma CopiedFieldsSnoc(m: FieldMap, cs: seq<Column>, col: Column)
    ensures CopiedFields(m, cs + [col]) == if col in m then CopiedFields(m, cs)[col := m[col]] else CopiedFields(m, cs)
  {}

  /** The fields that createSpec assigns on the node it returns. */
  function NodeValues(rt: Runtime, d: Draft): map<Column, Value> {
    CopiedFields(d.fields, rt.copied) + (if d.proxy.Some? then map[ProxyID := Int(d.proxy.value)] else map[])
  }

  /** The value that a list of field operations gives to a column. */
  function FieldIn(fields: seq<FieldSpec>, c: Column): Option<Value> {
    if fields == [] then None
    else if fields[0].column == c then Some(fields[0].value)
    else FieldIn(fields[1..], c)
  }

  lemma {:induction false} FieldInSpec(m: FieldMap, cs: seq<Column>, c: Column)
    ensures FieldIn(SpecFields(m, cs), c) == if c in m && c in cs then Some(m[c]) else None
  {
    if cs != [] {
      var rest := SpecFields(m, cs[1..]);
      FieldInSpec(m, cs[1..], c);
      assert cs == [cs[0]] + cs[1..];
      if cs[0] in m {
        assert SpecFields(m, cs) == [FieldSpec(cs[0], m[cs[0]])] + rest;
      } else {
        assert SpecFields(m, cs) == rest;
      }
    }
  }
}
