/** What the calls on one field mean, one by one, and what is left of them when the mutation is saved. */
module FieldPlan {
  import opened Wrappers
  import opened AccountSchema
  import opened AccountMutations

  /** The effect that each call announces on the stored value, None being NULL, if it were carried out at
      once. */
  function FieldAtOnce(call: FieldCall, now: Option<Value>): Option<Value>
    requires !call.ResetField?
  {
    match call
    case SetField(v) => Some(v)
    case ClearField => None
    case AddField(amount) => Some(Sum(now, amount))
  }

  predicate NoFieldReset(calls: seq<FieldCall>) {
    ResetField !in calls
  }

  function ReplayField(calls: seq<FieldCall>, now: Option<Value>): Option<Value>
    requires NoFieldReset(calls)
  {
    if calls == [] then now
    else
      var init := calls[..|calls| - 1];
      assert NoFieldReset(init);
      FieldAtOnce(calls[|calls| - 1], ReplayField(init, now))
  }

  function DoFieldAll(c: FieldChange, calls: seq<FieldCall>): FieldChange {
    if calls == [] then c else DoField(DoFieldAll(c, calls[..|calls| - 1]), calls[|calls| - 1])
  }

  /** The calls after the last reset. */
  function SinceReset(calls: seq<FieldCall>): (r: seq<FieldCall>)
    ensures NoFieldReset(r)
  {
    if calls == [] then []
    else
      var last := calls[|calls| - 1];
      if last == ResetField then [] else SinceReset(calls[..|calls| - 1]) + [last]
  }

  lemma {:induction false} FieldResetForgets(calls: seq<FieldCall>)
    ensures DoFieldAll(UNTOUCHED, calls) == DoFieldAll(UNTOUCHED, SinceReset(calls))
  {
    if calls != [] {
      var last := calls[|calls| - 1];
      FieldResetForgets(calls[..|calls| - 1]);
      if last != ResetField {
        var r := SinceReset(calls[..|calls| - 1]);
        assert (r + [last])[..|r|] == r;
      }
    }
  }

  // ----- saving -----

  /** More than one operation on the same column of one statement: what the database makes of it is not
      said. */
  predicate Contested(c: FieldChange) {
    (c.value.Some? && c.cleared) || (c.added.Some? && (c.value.Some? || c.cleared))
  }

  /** What a column holds after its one operation. */
  function FieldMeaning(c: FieldChange, before: Option<Value>): Option<Value> {
    if c.value.Some? then c.value
    else if c.cleared then None
    else if c.added.Some? then Some(Sum(before, c.added.value))
    else before
  }

  predicate OnlyAdds(calls: seq<FieldCall>) {
    forall c <- calls :: c.AddField?
  }

  /** Calls that end in a clear, that end in a set and never clear, or that only add. */
  predicate Harmonious(calls: seq<FieldCall>) {
    || calls == []
    || calls[|calls| - 1].ClearField?
    || (calls[|calls| - 1].SetField? && ClearField !in calls)
    || OnlyAdds(calls)
  }

  predicate IsPlain(call: FieldCall) {
    call.SetField? || call.ClearField?
  }

  lemma {:induction false} StateAfter(calls: seq<FieldCall>)
    requires NoFieldReset(calls)
    ensures var s := DoFieldAll(UNTOUCHED, calls);
            && (s.cleared <==> ClearField in calls)
            && (s.value.Some? || s.cleared <==> exists c <- calls :: IsPlain(c))
  {
    if calls != [] {
      var init, last := calls[..|calls| - 1], calls[|calls| - 1];
      assert calls == init + [last];
      StateAfter(init);
      assert forall c <- init :: c in calls;
      assert last in calls;
    }
  }

  /** Exactly which calls leave a column contested. */
  lemma ContestedExactlyWhen(calls: seq<FieldCall>)
    ensures Contested(DoFieldAll(UNTOUCHED, calls)) <==> !Harmonious(SinceReset(calls))
  {
    var r := SinceReset(calls);
    FieldResetForgets(calls);
    if r != [] {
      var init, last := r[..|r| - 1], r[|r| - 1];
      assert r == init + [last];
      assert forall c <- init :: c in r;
      StateAfter(init);
      if last.AddField? {
        assert (exists c <- init :: IsPlain(c)) <==> !(forall c <- r :: c.AddField?) by {
          assert forall c <- init :: !c.ResetField?;
        }
      }
    }
  }

  predicate IsNumber(t: Type) {
    t.TypeInt? || t.TypeFloat?
  }

  /** Amounts are of the type of the field, which is a number. */
  predicate AmountsFit(calls: seq<FieldCall>, t: Type) {
    forall c <- calls :: c.AddField? ==> IsNumber(t) && Fits(c.amount, t)
  }

  lemma SumAssociates(a: Option<Value>, b: Value, c: Value, t: Type)
    requires IsNumber(t) && (a.Some? ==> Fits(a.value, t)) && Fits(b, t) && Fits(c, t)
    ensures Sum(Some(Sum(a, b)), c) == Sum(a, Sum(Some(b), c)) && Fits(Sum(Some(b), c), t)
  {}

  lemma {:induction false} AddsAddUp(calls: seq<FieldCall>, t: Type, before: Option<Value>)
    requires calls != [] && (forall c <- calls :: c.AddField?) && AmountsFit(calls, t)
    requires before.Some? ==> Fits(before.value, t)
    ensures var s := DoFieldAll(UNTOUCHED, calls);
            && s.value.None? && !s.cleared && s.added.Some? && Fits(s.added.value, t)
            && ReplayField(calls, before) == Some(Sum(before, s.added.value))
  {
    var init, last := calls[..|calls| - 1], calls[|calls| - 1];
    assert last in calls && forall c <- init :: c in calls;
    if init == [] {
      assert ReplayField(init, before) == before;
    } else {
      AddsAddUp(init, t, before);
      SumAssociates(before, DoFieldAll(UNTOUCHED, init).added.value, last.amount, t);
    }
  }

  /** Saving an uncontested column does what the calls say, one by one. */
  lemma SavedFieldAsCalled(calls: seq<FieldCall>, t: Type, before: Option<Value>)
    requires Harmonious(SinceReset(calls)) && AmountsFit(calls, t) && (before.Some? ==> Fits(before.value, t))
    ensures FieldMeaning(DoFieldAll(UNTOUCHED, calls), before) == ReplayField(SinceReset(calls), before)
  {
    var r := SinceReset(calls);
    FieldResetForgets(calls);
    SinceResetIn(calls);
    if r != [] {
      var init, last := r[..|r| - 1], r[|r| - 1];
      assert r == init + [last];
      if last.AddField? {
        AddsAddUp(r, t, before);
      } else {
        StateAfter(init);
      }
    }
  }

  lemma {:induction false} SinceResetIn(calls: seq<FieldCall>)
    ensures forall c <- SinceReset(calls) :: c in calls
  {
    if calls != [] {
      SinceResetIn(calls[..|calls| - 1]);
      assert calls == calls[..|calls| - 1] + [calls[|calls| - 1]];
    }
  }

  // ----- what calls come to, with nothing left to unfold -----

  function IntTotal(calls: seq<FieldCall>): int {
    if calls == [] then 0
    else
      var last := calls[|calls| - 1];
      IntTotal(calls[..|calls| - 1]) + if last.AddField? && last.amount.Int? then last.amount.i else 0
  }

  function RealTotal(calls: seq<FieldCall>): real {
    if calls == [] then 0.0
    else
      var last := calls[|calls| - 1];
      RealTotal(calls[..|calls| - 1]) + if last.AddField? && last.amount.Float? then last.amount.r else 0.0
  }

  /** What a column holds after the calls: the value of a final set; nothing after a final clear; the sum with
      all amounts after nothing but additions, where NULL counts as zero; and else what it held. */
  ghost predicate ComesTo(calls: seq<FieldCall>, t: Type, before: Option<Value>, after: Option<Value>) {
    && (calls == [] ==> after == before)
    && (calls != [] && calls[|calls| - 1].SetField? ==> after == Some(calls[|calls| - 1].v))
    && (calls != [] && calls[|calls| - 1].ClearField? ==> after == None)
    && (calls != [] && OnlyAdds(calls) && t.TypeInt? && (before.Some? ==> before.value.Int?) ==>
          after == Some(Int((if before.Some? then before.value.i else 0) + IntTotal(calls))))
    && (calls != [] && OnlyAdds(calls) && t.TypeFloat? && (before.Some? ==> before.value.Float?) ==>
          after == Some(Float((if before.Some? then before.value.r else 0.0) + RealTotal(calls))))
  }

  lemma {:induction false} IntAdds(calls: seq<FieldCall>, before: Option<Value>)
    requires OnlyAdds(calls) && calls != [] && AmountsFit(calls, TypeInt) && (before.Some? ==> before.value.Int?)
    ensures ReplayField(calls, before) == Some(Int((if before.Some? then before.value.i else 0) + IntTotal(calls)))
  {
    var init, last := calls[..|calls| - 1], calls[|calls| - 1];
    assert last in calls && last.AddField? && forall c <- init :: c in calls;
    if init == [] {
      assert ReplayField(init, before) == before && IntTotal(init) == 0;
    } else {
      IntAdds(init, before);
    }
  }

  lemma {:induction false} RealAdds(calls: seq<FieldCall>, before: Option<Value>)
    requires OnlyAdds(calls) && calls != [] && AmountsFit(calls, TypeFloat) && (before.Some? ==> before.value.Float?)
    ensures ReplayField(calls, before) == Some(Float((if before.Some? then before.value.r else 0.0) + RealTotal(calls)))
  {
    var init, last := calls[..|calls| - 1], calls[|calls| - 1];
    assert last in calls && last.AddField? && forall c <- init :: c in calls;
    if init == [] {
      assert ReplayField(init, before) == before && RealTotal(init) == 0.0;
    } else {
      RealAdds(init, before);
    }
  }

  lemma ReplayComesTo(calls: seq<FieldCall>, t: Type, before: Option<Value>)
    requires NoFieldReset(calls) && AmountsFit(calls, t)
    ensures ComesTo(calls, t, before, ReplayField(calls, before))
  {
    if calls != [] && OnlyAdds(calls) {
      assert calls[|calls| - 1] in calls;
      if t.TypeInt? && (before.Some? ==> before.value.Int?) {
        IntAdds(calls, before);
      } else if t.TypeFloat? && (before.Some? ==> before.value.Float?) {
        RealAdds(calls, before);
      }
    }
  }
}
