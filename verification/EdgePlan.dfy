/** What the pending changes of a mutation mean, call by call, and the plan of clears and additions
    that the update builders compile from them. An edge is seen from one account: the set of the
    targets it is connected to. */
module EdgePlan {
  import opened Wrappers
  import opened AccountMutations

  // ----- meaning -----

  /** The targets after the changes were saved on an account connected to before. */
  function Meaning(c: EdgeChanges, before: set<int>): set<int> {
    (if c.cleared then {} else before - c.removed) + c.added
  }

  /** The effect that each call announces, if it were carried out at once. */
  function AtOnce(call: EdgeCall, now: set<int>): set<int>
    requires !call.Reset?
  {
    match call
    case Add(ids) => now + Elements(ids)
    case Remove(ids) => now - Elements(ids)
    case Clear => {}
  }

  lemma AddMeansAdd(c: EdgeChanges, ids: seq<int>, before: set<int>)
    ensures Meaning(Do(c, Add(ids)), before) == Meaning(c, before) + Elements(ids)
  {}

  lemma RemoveMeansRemove(c: EdgeChanges, ids: seq<int>, before: set<int>)
    ensures Meaning(Do(c, Remove(ids)), before) == Meaning(c, before) - Elements(ids)
  {}

  /** Clearing does not drop the targets that were added before it: a clear empties the edge exactly
      when no addition is pending. */
  lemma ClearMeansClear(c: EdgeChanges)
    ensures (forall before :: Meaning(Do(c, Clear), before) == {}) <==> c.added == {}
  {
    assert Meaning(Do(c, Clear), {}) == c.added;
  }

  predicate NoReset(calls: seq<EdgeCall>) {
    forall c <- calls :: !c.Reset?
  }

  function ReplayFrom(calls: seq<EdgeCall>, now: set<int>): set<int>
    requires NoReset(calls)
    decreases calls
  {
    if calls == [] then now else ReplayFrom(calls[1..], AtOnce(calls[0], now))
  }

  /** The calls with every clear left out. */
  function WithoutClears(calls: seq<EdgeCall>): (r: seq<EdgeCall>)
    ensures NoReset(calls) ==> NoReset(r)
    decreases calls
  {
    if calls == [] then []
    else (if calls[0].Clear? then [] else [calls[0]]) + WithoutClears(calls[1..])
  }

  /** For any sequence of calls, saving the mutation has the effect of doing every clear first and
      then the additions and removals one by one, in order. */
  lemma {:induction false} ClearsComeFirst(c: EdgeChanges, calls: seq<EdgeCall>, before: set<int>)
    requires NoReset(calls)
    ensures var start := if Clear in calls then Meaning(c.(cleared := true), before) else Meaning(c, before);
            Meaning(DoAll(c, calls), before) == ReplayFrom(WithoutClears(calls), start)
    decreases calls
  {
    if calls != [] {
      var call := calls[0];
      var rest := calls[1..];
      assert calls == [call] + rest;
      ClearsComeFirst(Do(c, call), rest, before);
      if call.Clear? {
        assert WithoutClears(calls) == WithoutClears(rest);
      } else {
        assert WithoutClears(calls) == [call] + WithoutClears(rest);
        assert ([call] + WithoutClears(rest))[1..] == WithoutClears(rest);
        if call.Add? {
          AddMeansAdd(c, call.ids, before);
          AddMeansAdd(c.(cleared := true), call.ids, before);
        } else {
          RemoveMeansRemove(c, call.ids, before);
          RemoveMeansRemove(c.(cleared := true), call.ids, before);
        }
      }
    }
  }

  /** The targets that were pending at some clear and that no later call mentions, starting with the
      leaked ones and the changes c. */
  function Leaked(c: EdgeChanges, leaked: set<int>, calls: seq<EdgeCall>): set<int>
    requires NoReset(calls)
    decreases calls
  {
    if calls == [] then leaked
    else
      var now := if calls[0].Clear? then c.added else leaked - Elements(calls[0].ids);
      Leaked(Do(c, calls[0]), now, calls[1..])
  }

  lemma {:induction false} SavedIsReplayedPlusLeaked(
      c: EdgeChanges, leaked: set<int>, calls: seq<EdgeCall>, before: set<int>, now: set<int>)
    requires NoReset(calls)
    requires Meaning(c, before) == now + leaked && now !! leaked
    ensures var extra := Leaked(c, leaked, calls);
            && Meaning(DoAll(c, calls), before) == ReplayFrom(calls, now) + extra
            && ReplayFrom(calls, now) !! extra
    decreases calls
  {
    if calls != [] {
      var call := calls[0];
      if call.Clear? {
        SavedIsReplayedPlusLeaked(Do(c, call), c.added, calls[1..], before, {});
        return;
      }
      if call.Add? {
        AddMeansAdd(c, call.ids, before);
      } else {
        RemoveMeansRemove(c, call.ids, before);
      }
      SavedIsReplayedPlusLeaked(Do(c, call), leaked - Elements(call.ids), calls[1..], before, AtOnce(call, now));
    }
  }

  /** Saving does what the calls say, one by one, exactly when every target that was pending at a clear
      is added again or removed by a later call; otherwise precisely those targets remain as well. */
  lemma SavedAsCalled(c: EdgeChanges, calls: seq<EdgeCall>, before: set<int>)
    requires NoReset(calls)
    ensures Meaning(DoAll(c, calls), before) == ReplayFrom(calls, Meaning(c, before)) + Leaked(c, {}, calls)
    ensures Meaning(DoAll(c, calls), before) == ReplayFrom(calls, Meaning(c, before)) <==> Leaked(c, {}, calls) == {}
  {
    SavedIsReplayedPlusLeaked(c, {}, calls, before, Meaning(c, before));
  }

  /** An addition that was still pending survives the clear that follows it. */
  lemma AddThenClearKeeps(id: int, before: set<int>)
    ensures Meaning(DoAll(UNCHANGED, [Add([id]), Clear]), before) == {id}
    ensures ReplayFrom([Add([id]), Clear], before) == {}
  {
    var calls := [Add([id]), Clear];
    assert Elements([id]) == {id};
    assert calls[1..] == [Clear] && [EdgeCall.Clear][1..] == [];
    assert DoAll(UNCHANGED, calls) == DoAll(Do(UNCHANGED, Add([id])), [Clear]);
    assert ReplayFrom(calls, before) == ReplayFrom([Clear], before + {id});
  }

  // ----- the proxy edge -----

  function ProxyMeaning(c: ProxyChanges, before: Option<int>): Option<int> {
    if c.target.Some? then c.target else if c.Cleared() then None else before
  }

  /** Clearing the edge keeps a proxy that was set before, unlike clearing the field: it disconnects
      the account exactly when no proxy is pending. */
  lemma ClearProxyMeansClear(c: ProxyChanges)
    ensures (forall before :: ProxyMeaning(DoProxy(c, ClearProxy), before) == None) <==> c.target.None?
  {
    assert ProxyMeaning(DoProxy(c, ClearProxy), None) == c.target;
  }

  /** Resetting the edge forgets the changes to it exactly when the proxy_id field was not cleared, and
      clearing the edge clears that field. */
  lemma ResetProxyMeansNothing(c: ProxyChanges)
    ensures (forall before :: ProxyMeaning(DoProxy(c, ResetProxy), before) == before) <==> !c.fieldCleared
    ensures DoProxy(c, ClearProxy).fieldCleared
  {
    assert ProxyMeaning(DoProxy(c, ResetProxy), Some(0)) == if c.fieldCleared then None else Some(0);
  }

  /** Setting and clearing the proxy announce what they do. */
  function ProxyAtOnce(call: ProxyCall, now: Option<int>): Option<int>
    requires !ResetsProxy(call)
  {
    if call.SetProxyID? then Some(call.id) else None
  }

  predicate ResetsProxy(call: ProxyCall) {
    call.ResetProxyID? || call.ResetProxy?
  }

  function DoProxyAll(c: ProxyChanges, calls: seq<ProxyCall>): ProxyChanges {
    if calls == [] then c else DoProxy(DoProxyAll(c, calls[..|calls| - 1]), calls[|calls| - 1])
  }

  function ReplayProxy(calls: seq<ProxyCall>, now: Option<int>): Option<int>
    requires forall c <- calls :: !ResetsProxy(c)
  {
    if calls == [] then now else ProxyAtOnce(calls[|calls| - 1], ReplayProxy(calls[..|calls| - 1], now))
  }

  /** The calls after the last reset, of the field or of the edge. */
  function ProxySinceReset(calls: seq<ProxyCall>): (r: seq<ProxyCall>)
    ensures forall c <- r :: !ResetsProxy(c)
  {
    if calls == [] then []
    else
      var last := calls[|calls| - 1];
      if ResetsProxy(last) then [] else ProxySinceReset(calls[..|calls| - 1]) + [last]
  }

  /** A set that nothing but clears of the edge came after. */
  predicate SetPending(calls: seq<ProxyCall>) {
    exists i :: 0 <= i < |calls| && calls[i].SetProxyID? && forall j :: i < j < |calls| ==> calls[j].ClearProxy?
  }

  /** A clear, of the field or of the edge, that no reset of the field came after. */
  predicate FieldStaysCleared(calls: seq<ProxyCall>) {
    exists i :: 0 <= i < |calls| && (calls[i].ClearProxyID? || calls[i].ClearProxy?) &&
                forall j :: i < j < |calls| ==> !calls[j].ResetProxyID?
  }

  /** A clear of the edge that no reset of the edge came after. */
  predicate EdgeStaysCleared(calls: seq<ProxyCall>) {
    exists i :: 0 <= i < |calls| && calls[i].ClearProxy? && forall j :: i < j < |calls| ==> !calls[j].ResetProxy?
  }

  lemma SetPendingSnoc(init: seq<ProxyCall>, last: ProxyCall)
    ensures SetPending(init + [last]) <==> last.SetProxyID? || (last.ClearProxy? && SetPending(init))
  {
    var calls := init + [last];
    assert calls[|init|] == last && forall i :: 0 <= i < |init| ==> calls[i] == init[i];
  }

  lemma FieldStaysClearedSnoc(init: seq<ProxyCall>, last: ProxyCall)
    ensures FieldStaysCleared(init + [last]) <==>
            last.ClearProxyID? || last.ClearProxy? || (!last.ResetProxyID? && FieldStaysCleared(init))
  {
    var calls := init + [last];
    assert calls[|init|] == last && forall i :: 0 <= i < |init| ==> calls[i] == init[i];
  }

  lemma EdgeStaysClearedSnoc(init: seq<ProxyCall>, last: ProxyCall)
    ensures EdgeStaysCleared(init + [last]) <==> last.ClearProxy? || (!last.ResetProxy? && EdgeStaysCleared(init))
  {
    var calls := init + [last];
    assert calls[|init|] == last && forall i :: 0 <= i < |init| ==> calls[i] == init[i];
  }

  lemma {:induction false} ProxyStateAfter(calls: seq<ProxyCall>)
    ensures var s := DoProxyAll(NO_PROXY_CHANGES, calls);
            && (s.target.Some? <==> SetPending(calls))
            && (s.fieldCleared <==> FieldStaysCleared(calls))
            && (s.edgeCleared <==> EdgeStaysCleared(calls))
  {
    if calls != [] {
      var init, last := calls[..|calls| - 1], calls[|calls| - 1];
      assert calls == init + [last];
      ProxyStateAfter(init);
      SetPendingSnoc(init, last);
      FieldStaysClearedSnoc(init, last);
      EdgeStaysClearedSnoc(init, last);
    }
  }

  /** Calls that end in a clear of the edge while a set is pending. */
  predicate KeepsSet(calls: seq<ProxyCall>) {
    calls != [] && calls[|calls| - 1].ClearProxy? && SetPending(calls[..|calls| - 1])
  }

  /** Calls that end in a reset that a clear outlives: the edge's a reset of the field, the field's a reset
      of the edge. */
  predicate ClearLingers(calls: seq<ProxyCall>) {
    calls != [] &&
    var init, last := calls[..|calls| - 1], calls[|calls| - 1];
    (last.ResetProxyID? && EdgeStaysCleared(init)) || (last.ResetProxy? && FieldStaysCleared(init))
  }

  function LastSet(calls: seq<ProxyCall>): Option<int> {
    if calls == [] then None
    else
      var last := calls[|calls| - 1];
      if last.SetProxyID? then Some(last.id) else LastSet(calls[..|calls| - 1])
  }

  lemma {:induction false} PendingIsLastSet(calls: seq<ProxyCall>)
    ensures var s := DoProxyAll(NO_PROXY_CHANGES, calls); s.target.Some? ==> s.target == LastSet(calls)
  {
    if calls != [] {
      PendingIsLastSet(calls[..|calls| - 1]);
    }
  }

  /** The proxy that any calls on a fresh mutation leave once it is saved: what the calls since the last
      reset say, one by one, with two exceptions. */
  predicate ProxyEndsAs(calls: seq<ProxyCall>, before: Option<int>, after: Option<int>) {
    after == if KeepsSet(calls) then LastSet(calls)
             else if ClearLingers(calls) then None
             else ReplayProxy(ProxySinceReset(calls), before)
  }

  lemma AfterLastCall(calls: seq<ProxyCall>, before: Option<int>)
    requires calls != []
    ensures var last, s := calls[|calls| - 1], DoProxyAll(NO_PROXY_CHANGES, calls[..|calls| - 1]);
            ProxyMeaning(DoProxyAll(NO_PROXY_CHANGES, calls), before) ==
            if last.ClearProxy? && s.target.Some? then s.target
            else if (last.ResetProxyID? && s.edgeCleared) || (last.ResetProxy? && s.fieldCleared) then None
            else ReplayProxy(ProxySinceReset(calls), before)
  {
    if !ResetsProxy(calls[|calls| - 1]) {
      var r := ProxySinceReset(calls);
      assert r[|r| - 1] == calls[|calls| - 1];
    }
  }

  lemma ProxySavedAsCalled(calls: seq<ProxyCall>, before: Option<int>)
    ensures ProxyEndsAs(calls, before, ProxyMeaning(DoProxyAll(NO_PROXY_CHANGES, calls), before))
  {
    if calls != [] {
      AfterLastCall(calls, before);
      ProxyStateAfter(calls[..|calls| - 1]);
      PendingIsLastSet(calls[..|calls| - 1]);
    }
  }

  predicate ProxyAsCalled(calls: seq<ProxyCall>, before: Option<int>) {
    ProxyMeaning(DoProxyAll(NO_PROXY_CHANGES, calls), before) == ReplayProxy(ProxySinceReset(calls), before)
  }

  /** The exceptions are exact: for every start the saved proxy is what the calls say if and only if neither
      applies. */
  lemma ProxyEndsAsCalledExactlyWhen(calls: seq<ProxyCall>)
    ensures (forall before :: ProxyAsCalled(calls, before)) <==> !KeepsSet(calls) && !ClearLingers(calls)
  {
    if !KeepsSet(calls) && !ClearLingers(calls) {
      forall before ensures ProxyAsCalled(calls, before) {
        ProxySavedAsCalled(calls, before);
      }
    } else {
      var r, before := ProxySinceReset(calls), if KeepsSet(calls) then None else Some(0);
      ProxySavedAsCalled(calls, before);
      ProxyStateAfter(calls[..|calls| - 1]);
      PendingIsLastSet(calls[..|calls| - 1]);
      assert KeepsSet(calls) ==> r[|r| - 1] == calls[|calls| - 1];
      assert !ProxyAsCalled(calls, before);
    }
  }

  // ----- calls made one after the other -----

  lemma {:induction false} DoAllSnoc(c: EdgeChanges, calls: seq<EdgeCall>, call: EdgeCall)
    ensures DoAll(c, calls + [call]) == Do(DoAll(c, calls), call)
    decreases calls
  {
    if calls == [] {
      assert [call][1..] == [];
    } else {
      assert (calls + [call])[1..] == calls[1..] + [call];
      DoAllSnoc(Do(c, calls[0]), calls[1..], call);
    }
  }

  /** The calls after the last reset. */
  function EdgeSinceReset(calls: seq<EdgeCall>): (r: seq<EdgeCall>)
    ensures NoReset(r)
  {
    if calls == [] then []
    else
      var last := calls[|calls| - 1];
      if last.Reset? then [] else EdgeSinceReset(calls[..|calls| - 1]) + [last]
  }

  lemma {:induction false} ResetForgets(calls: seq<EdgeCall>)
    ensures DoAll(UNCHANGED, calls) == DoAll(UNCHANGED, EdgeSinceReset(calls))
  {
    if calls != [] {
      var init, last := calls[..|calls| - 1], calls[|calls| - 1];
      assert calls == init + [last];
      ResetForgets(init);
      DoAllSnoc(UNCHANGED, init, last);
      if !last.Reset? {
        DoAllSnoc(UNCHANGED, EdgeSinceReset(init), last);
      }
    }
  }

  /** What any calls on a fresh mutation leave of an edge once it is saved. */
  lemma SavedFromScratch(calls: seq<EdgeCall>, before: set<int>)
    ensures var r := EdgeSinceReset(calls);
            Meaning(DoAll(UNCHANGED, calls), before) == ReplayFrom(r, before) + Leaked(UNCHANGED, {}, r)
  {
    ResetForgets(calls);
    SavedAsCalled(UNCHANGED, EdgeSinceReset(calls), before);
    assert Meaning(UNCHANGED, before) == before;
  }

  // ----- what calls come to, target by target -----

  predicate Removes(call: EdgeCall, t: int) {
    call.Remove? && t in call.ids
  }

  /** Some call adds the target, and no later one removes it or resets the edge. */
  predicate StaysAdded(calls: seq<EdgeCall>, t: int) {
    exists i :: 0 <= i < |calls| && calls[i].Add? && t in calls[i].ids &&
                forall j :: i < j < |calls| ==> !calls[j].Reset? && !Removes(calls[j], t)
  }

  predicate StaysRemoved(calls: seq<EdgeCall>, t: int) {
    exists i :: 0 <= i < |calls| && Removes(calls[i], t) && forall j :: i < j < |calls| ==> !calls[j].Reset?
  }

  predicate StaysCleared(calls: seq<EdgeCall>) {
    exists i :: 0 <= i < |calls| && calls[i].Clear? && forall j :: i < j < |calls| ==> !calls[j].Reset?
  }

  lemma StaysAddedSnoc(init: seq<EdgeCall>, last: EdgeCall, t: int)
    ensures StaysAdded(init + [last], t) <==>
            (last.Add? && t in last.ids) || (!last.Reset? && !Removes(last, t) && StaysAdded(init, t))
  {
    var calls := init + [last];
    assert calls[|init|] == last && forall i :: 0 <= i < |init| ==> calls[i] == init[i];
  }

  lemma StaysRemovedSnoc(init: seq<EdgeCall>, last: EdgeCall, t: int)
    ensures StaysRemoved(init + [last], t) <==> Removes(last, t) || (!last.Reset? && StaysRemoved(init, t))
  {
    var calls := init + [last];
    assert calls[|init|] == last && forall i :: 0 <= i < |init| ==> calls[i] == init[i];
  }

  lemma StaysClearedSnoc(init: seq<EdgeCall>, last: EdgeCall)
    ensures StaysCleared(init + [last]) <==> last.Clear? || (!last.Reset? && StaysCleared(init))
  {
    var calls := init + [last];
    assert calls[|init|] == last && forall i :: 0 <= i < |init| ==> calls[i] == init[i];
  }

  lemma {:induction false} EdgeStateAfter(calls: seq<EdgeCall>, t: int)
    ensures var s := DoAll(UNCHANGED, calls);
            && (t in s.added <==> StaysAdded(calls, t))
            && (t in s.removed <==> StaysRemoved(calls, t))
            && (s.cleared <==> StaysCleared(calls))
  {
    if calls != [] {
      var init, last := calls[..|calls| - 1], calls[|calls| - 1];
      assert calls == init + [last];
      EdgeStateAfter(init, t);
      DoAllSnoc(UNCHANGED, init, last);
      StaysAddedSnoc(init, last, t);
      StaysRemovedSnoc(init, last, t);
      StaysClearedSnoc(init, last);
    }
  }

  /** The edge leads to the target after any calls on a fresh mutation were saved just if some call adds it and
      no later one removes it or resets, or it did before and no removal of it and no clear stands. */
  lemma TargetComesTo(calls: seq<EdgeCall>, before: set<int>, t: int)
    ensures var r := EdgeSinceReset(calls);
            t in ReplayFrom(r, before) + Leaked(UNCHANGED, {}, r) <==>
            StaysAdded(calls, t) || (t in before && !StaysRemoved(calls, t) && !StaysCleared(calls))
  {
    SavedFromScratch(calls, before);
    EdgeStateAfter(calls, t);
  }

  /** The proxy is the one of the last set if nothing but clears of the edge came after; else none if a clear
      stands; else the one from before. */
  lemma ProxyComesTo(calls: seq<ProxyCall>, before: Option<int>, after: Option<int>)
    requires ProxyEndsAs(calls, before, after)
    ensures forall i :: 0 <= i < |calls| ==>
              calls[i].SetProxyID? && (forall j :: i < j < |calls| ==> calls[j].ClearProxy?) ==>
                after == Some(calls[i].id)
    ensures !SetPending(calls) ==>
              after == if FieldStaysCleared(calls) || EdgeStaysCleared(calls) then None else before
  {
    ProxySavedAsCalled(calls, before);
    ProxyStateAfter(calls);
    forall i | 0 <= i < |calls| && calls[i].SetProxyID? && forall j :: i < j < |calls| ==> calls[j].ClearProxy?
      ensures after == Some(calls[i].id)
    {
      TargetOfLastSet(calls, i);
    }
  }

  lemma {:induction false} TargetOfLastSet(calls: seq<ProxyCall>, i: nat)
    requires i < |calls| && calls[i].SetProxyID? && forall j :: i < j < |calls| ==> calls[j].ClearProxy?
    ensures DoProxyAll(NO_PROXY_CHANGES, calls).target == Some(calls[i].id)
  {
    if i < |calls| - 1 {
      TargetOfLastSet(calls[..|calls| - 1], i);
    }
  }
}
