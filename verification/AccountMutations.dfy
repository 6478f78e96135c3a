/** The account entity and the mutation object that every account builder writes to. */
module AccountMutations {
  import opened Wrappers
  import opened AccountSchema

  /** An entity. A field that was never assigned holds its zero value: nil for a pointer field. */
  class AccountEntity {
    var id: int
    var values: map<Column, Value>
    var selectValues: map<string, Scanned>  // what modifiers selected besides the fields

    constructor ()
      ensures id == 0 && values == map[] && selectValues == map[]
    {
      id, values, selectValues := 0, map[], map[];
    }
  }

  /** A field of the entity whose identifier and assigned values are given; None is a nil pointer. */
  function FieldOf(id: int, values: map<Column, Value>, c: Column): Option<Value>
    requires !c.Selected?
  {
    if c == ID then Some(Int(id))
    else if c in values then Some(values[c])
    else if Nillable(c) then None
    else Some(Zero(DeclaredType(c)))
  }

  /** The pending changes to one edge with many targets. */
  datatype EdgeChanges = EdgeChanges(added: set<int>, removed: set<int>, cleared: bool)

  const UNCHANGED := EdgeChanges({}, {}, false)

  /** Calls on the mutation for one edge with many targets. */
  datatype EdgeCall = Add(ids: seq<int>) | Remove(ids: seq<int>) | Clear | Reset

  function Elements(ids: seq<int>): set<int> {
    set id | id in ids
  }

  function Do(c: EdgeChanges, call: EdgeCall): EdgeChanges {
    match call
    case Add(ids) => c.(added := c.added + Elements(ids))
    case Remove(ids) => c.(added := c.added - Elements(ids), removed := c.removed + Elements(ids))
    case Clear => c.(cleared := true)
    case Reset => UNCHANGED
  }

  function DoAll(c: EdgeChanges, calls: seq<EdgeCall>): EdgeChanges
    decreases calls
  {
    if calls == [] then c else DoAll(Do(c, calls[0]), calls[1..])
  }

  /** The pending changes to the proxy edge, which has at most one target. The edge can be cleared
      both as an edge and as the proxy_id field. */
  datatype ProxyChanges = ProxyChanges(target: Option<int>, edgeCleared: bool, fieldCleared: bool) {
    predicate Cleared() {
      fieldCleared || edgeCleared
    }
  }

  const NO_PROXY_CHANGES := ProxyChanges(None, false, false)

  datatype ProxyCall = SetProxyID(id: int) | ClearProxyID | ResetProxyID | ClearProxy | ResetProxy

  function DoProxy(c: ProxyChanges, call: ProxyCall): ProxyChanges {
    match call
    case SetProxyID(id) => c.(target := Some(id))
    case ClearProxyID => c.(target := None, fieldCleared := true)
    case ResetProxyID => c.(target := None, fieldCleared := false)
    case ClearProxy => c.(edgeCleared := true, fieldCleared := true)
    case ResetProxy => c.(target := None, edgeCleared := false)
  }

  /** The pending changes to one field: a value to set, whether to clear it, an amount to add. */
  datatype FieldChange = FieldChange(value: Option<Value>, cleared: bool, added: Option<Value>)

  const UNTOUCHED := FieldChange(None, false, None)

  datatype FieldCall = SetField(v: Value) | ClearField | AddField(amount: Value) | ResetField

  /** The sum of two numbers; a missing one counts as nothing. */
  function Sum(a: Option<Value>, b: Value): Value {
    match (a, b)
    case (Some(Int(x)), Int(y)) => Int(x + y)
    case (Some(Float(x)), Float(y)) => Float(x + y)
    case _ => b
  }

  function DoField(c: FieldChange, call: FieldCall): FieldChange {
    match call
    case SetField(v) => c.(value := Some(v), added := None)
    case ClearField => FieldChange(None, true, None)
    case AddField(amount) => c.(added := Some(Sum(c.added, amount)))
    case ResetField => UNTOUCHED
  }

  /** A reference to an identifier: none, a value of its own, or the ID field of an entity. */
  datatype IDRef = NoID | OwnID(id: int) | IDField(node: AccountEntity)

  class AccountMutation {
    var id: IDRef
    var fields: FieldMap
    var addedFields: FieldMap
    var clearedFields: set<Column>
    var groups: set<int>
    var removedGroups: set<int>
    var clearedGroups: bool
    var proxy: Option<int>
    var clearedProxy: bool
    var usageLogs: set<int>
    var removedUsageLogs: set<int>
    var clearedUsageLogs: bool
    var done: bool

    constructor (draft: Draft)
      ensures this.Draft() == draft && !done && id == NoID && addedFields == map[] && clearedFields == {}
      ensures removedGroups == {} && !clearedGroups && !clearedProxy
      ensures removedUsageLogs == {} && !clearedUsageLogs
    {
      id := NoID;
      fields, groups, proxy, usageLogs := draft.fields, draft.groups, draft.proxy, draft.usageLogs;
      addedFields, clearedFields := map[], {};
      removedGroups, clearedGroups, clearedProxy := {}, false, false;
      removedUsageLogs, clearedUsageLogs := {}, false;
      done := false;
    }

    /** What a create builder reads of the mutation. */
    function Draft(): Draft
      reads this`fields, this`groups, this`proxy, this`usageLogs
    {
      AccountSchema.Draft(fields, groups, proxy, usageLogs)
    }

    function GroupChanges(): EdgeChanges
      reads this`groups, this`removedGroups, this`clearedGroups
    {
      EdgeChanges(groups, removedGroups, clearedGroups)
    }

    function UsageLogChanges(): EdgeChanges
      reads this`usageLogs, this`removedUsageLogs, this`clearedUsageLogs
    {
      EdgeChanges(usageLogs, removedUsageLogs, clearedUsageLogs)
    }

    function ProxyState(): ProxyChanges
      reads this`proxy, this`clearedProxy, this`clearedFields
    {
      ProxyChanges(proxy, clearedProxy, ProxyID in clearedFields)
    }

    function FieldState(c: Column): FieldChange
      reads this`fields, this`clearedFields, this`addedFields
    {
      FieldChange(if c in fields then Some(fields[c]) else None, c in clearedFields,
                  if c in addedFields then Some(addedFields[c]) else None)
    }

    /** The identifier, read through the reference: nil when there is none. */
    function CurrentID(): Option<int>
      reads this`id, if id.IDField? then {id.node} else {}
    {
      match id
      case NoID => None
      case OwnID(v) => Some(v)
      case IDField(node) => Some(node.id)
    }

    method Set(c: Column, v: Value)
      requires Settable(c)
      modifies this`fields, this`addedFields
      ensures FieldState(c) == DoField(old(FieldState(c)), SetField(v))
      ensures fields == old(fields)[c := v]
      ensures addedFields == old(addedFields) - {c}
    {
      fields := fields[c := v];
      addedFields := addedFields - {c};
    }

    method Clear(c: Column)
      requires Settable(c) && Nillable(c)
      modifies this`fields, this`addedFields, this`clearedFields
      ensures FieldState(c) == DoField(old(FieldState(c)), ClearField)
      ensures fields == old(fields) - {c}
      ensures addedFields == old(addedFields) - {c}
      ensures clearedFields == old(clearedFields) + {c}
    {
      fields := fields - {c};
      addedFields := addedFields - {c};
      clearedFields := clearedFields + {c};
    }

    method AddNumber(c: Column, amount: Value)
      requires Settable(c)
      modifies this`addedFields
      ensures FieldState(c) == DoField(old(FieldState(c)), AddField(amount))
      ensures addedFields == old(addedFields)[c := Sum(old(FieldState(c).added), amount)]
      ensures c !in old(addedFields) ==> addedFields[c] == amount
      ensures c in old(addedFields) && old(addedFields)[c].Int? && amount.Int? ==>
                addedFields[c] == Int(old(addedFields)[c].i + amount.i)
      ensures c in old(addedFields) && old(addedFields)[c].Float? && amount.Float? ==>
                addedFields[c] == Float(old(addedFields)[c].r + amount.r)
    {
      if c in addedFields {
        addedFields := addedFields[c := Sum(Some(addedFields[c]), amount)];
      } else {
        addedFields := addedFields[c := amount];
      }
    }

    method ResetColumn(c: Column)
      requires Settable(c)
      modifies this`fields, this`addedFields, this`clearedFields
      ensures FieldState(c) == DoField(old(FieldState(c)), ResetField)
      ensures fields == old(fields) - {c}
      ensures addedFields == old(addedFields) - {c}
      ensures clearedFields == old(clearedFields) - {c}
    {
      fields := fields - {c};
      addedFields := addedFields - {c};
      clearedFields := clearedFields - {c};
    }

    method AddGroupIDs(ids: seq<int>)
      modifies this`groups
      ensures GroupChanges() == Do(old(GroupChanges()), Add(ids))
    {
      for i := 0 to |ids|
        invariant groups == old(groups) + Elements(ids[..i])
      {
        assert Elements(ids[..i + 1]) == Elements(ids[..i]) + {ids[i]};
        groups := groups + {ids[i]};
      }
      assert ids[..|ids|] == ids;
    }

    method RemoveGroupIDs(ids: seq<int>)
      modifies this`groups, this`removedGroups
      ensures GroupChanges() == Do(old(GroupChanges()), Remove(ids))
    {
      for i := 0 to |ids|
        invariant groups == old(groups) - Elements(ids[..i])
        invariant removedGroups == old(removedGroups) + Elements(ids[..i])
      {
        assert Elements(ids[..i + 1]) == Elements(ids[..i]) + {ids[i]};
        groups := groups - {ids[i]};
        removedGroups := removedGroups + {ids[i]};
      }
      assert ids[..|ids|] == ids;
    }

    method ClearGroups()
      modifies this`clearedGroups
      ensures GroupChanges() == Do(old(GroupChanges()), EdgeCall.Clear)
    {
      clearedGroups := true;
    }

    method ResetGroups()
      modifies this`groups, this`removedGroups, this`clearedGroups
      ensures GroupChanges() == Do(old(GroupChanges()), Reset)
    {
      groups, removedGroups, clearedGroups := {}, {}, false;
    }

    method AddUsageLogIDs(ids: seq<int>)
      modifies this`usageLogs
      ensures UsageLogChanges() == Do(old(UsageLogChanges()), Add(ids))
    {
      for i := 0 to |ids|
        invariant usageLogs == old(usageLogs) + Elements(ids[..i])
      {
        assert Elements(ids[..i + 1]) == Elements(ids[..i]) + {ids[i]};
        usageLogs := usageLogs + {ids[i]};
      }
      assert ids[..|ids|] == ids;
    }

    method RemoveUsageLogIDs(ids: seq<int>)
      modifies this`usageLogs, this`removedUsageLogs
      ensures UsageLogChanges() == Do(old(UsageLogChanges()), Remove(ids))
    {
      for i := 0 to |ids|
        invariant usageLogs == old(usageLogs) - Elements(ids[..i])
        invariant removedUsageLogs == old(removedUsageLogs) + Elements(ids[..i])
      {
        assert Elements(ids[..i + 1]) == Elements(ids[..i]) + {ids[i]};
        usageLogs := usageLogs - {ids[i]};
        removedUsageLogs := removedUsageLogs + {ids[i]};
      }
      assert ids[..|ids|] == ids;
    }

    method ClearUsageLogs()
      modifies this`clearedUsageLogs
      ensures UsageLogChanges() == Do(old(UsageLogChanges()), EdgeCall.Clear)
    {
      clearedUsageLogs := true;
    }

    method ResetUsageLogs()
      modifies this`usageLogs, this`removedUsageLogs, this`clearedUsageLogs
      ensures UsageLogChanges() == Do(old(UsageLogChanges()), Reset)
    {
      usageLogs, removedUsageLogs, clearedUsageLogs := {}, {}, false;
    }

    method ChangeProxy(call: ProxyCall)
      modifies this`proxy, this`clearedProxy, this`clearedFields
      ensures ProxyState() == DoProxy(old(ProxyState()), call)
      ensures clearedFields - {ProxyID} == old(clearedFields) - {ProxyID}
    {
      match call {
        case SetProxyID(id) =>
          proxy := Some(id);
        case ClearProxyID =>
          proxy := None;
          clearedFields := clearedFields + {ProxyID};
        case ResetProxyID =>
          proxy := None;
          clearedFields := clearedFields - {ProxyID};
        case ClearProxy =>
          clearedProxy := true;
          clearedFields := clearedFields + {ProxyID};
        case ResetProxy =>
          proxy := None;
          clearedProxy := false;
      }
    }
  }

  /** The keys of a Go map, in whatever order the runtime iterates over it. */
  method KeysInAnyOrder<K(==)>(keys: set<K>) returns (order: seq<K>)
    ensures forall k :: k in order <==> k in keys
    ensures |order| == |keys|
  {
    order := [];
    var rest := keys;
    while rest != {}
      invariant rest <= keys
      invariant forall k :: k in order <==> k in keys - rest
      invariant |order| == |keys| - |rest|
      decreases rest
    {
      var k :| k in rest;
      order := order + [k];
      rest := rest - {k};
    }
  }
}
