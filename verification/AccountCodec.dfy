/** Reading rows back into entities: the holders that cells are scanned into, and how entities are
    assigned from them. */
module AccountCodec {
  import opened Wrappers
  import opened AccountSchema
  import opened AccountCreate
  import opened AccountMutations

  datatype Codec = Codec(encode: Json -> string, decode: string -> Option<Json>)

  /** What is assumed of the JSON library. */
  ghost predicate Faithful(codec: Codec) {
    forall j :: codec.encode(j) != "" && codec.decode(codec.encode(j)) == Some(j)
  }

  // ----- the three tables of the generated code -----

  datatype Kind = Bytes | NullBool | NullFloat64 | NullInt64 | NullString | NullTime | UnknownType

  /** The holder that scanValues makes for a column. */
  function ScanKind(c: Column): Kind {
    match c
    case Credentials | Extra => Bytes
    case AutoPauseOnExpired | Schedulable => NullBool
    case RateMultiplier => NullFloat64
    case ID | ProxyID | Concurrency | LoadFactor | Priority => NullInt64
    case Name | Notes | Platform | Type | Status | ErrorMessage => NullString
    case TempUnschedulableReason | SessionWindowStatus => NullString
    case CreatedAt | UpdatedAt | DeletedAt | LastUsedAt | ExpiresAt | RateLimitedAt => NullTime
    case RateLimitResetAt | OverloadUntil | TempUnschedulableUntil => NullTime
    case SessionWindowStart | SessionWindowEnd => NullTime
    case Selected(_) => UnknownType
  }

  /** The holder that assignValues asserts for a field. */
  function AssignKind(c: Column): Kind
    requires !c.Selected?
  {
    match c
    case ID => NullInt64
    case CreatedAt => NullTime
    case UpdatedAt => NullTime
    case DeletedAt => NullTime
    case Name => NullString
    case Notes => NullString
    case Platform => NullString
    case Type => NullString
    case Credentials => Bytes
    case Extra => Bytes
    case ProxyID => NullInt64
    case Concurrency => NullInt64
    case LoadFactor => NullInt64
    case Priority => NullInt64
    case RateMultiplier => NullFloat64
    case Status => NullString
    case ErrorMessage => NullString
    case LastUsedAt => NullTime
    case ExpiresAt => NullTime
    case AutoPauseOnExpired => NullBool
    case Schedulable => NullBool
    case RateLimitedAt => NullTime
    case RateLimitResetAt => NullTime
    case OverloadUntil => NullTime
    case TempUnschedulableUntil => NullTime
    case TempUnschedulableReason => NullString
    case SessionWindowStart => NullTime
    case SessionWindowEnd => NullTime
    case SessionWindowStatus => NullString
  }

  /** The type that createSpec gives to a field it writes. */
  function SpecType(c: Column): Type
    requires Settable(c)
  {
    match c
    case CreatedAt | UpdatedAt | DeletedAt => TypeTime
    case Name | Notes | Platform | Type => TypeText
    case Credentials | Extra => TypeJSON
    case Concurrency | LoadFactor | Priority => TypeInt
    case RateMultiplier => TypeFloat
    case Status | ErrorMessage => TypeText
    case LastUsedAt | ExpiresAt => TypeTime
    case AutoPauseOnExpired | Schedulable => TypeBool
    case RateLimitedAt | RateLimitResetAt | OverloadUntil | TempUnschedulableUntil => TypeTime
    case TempUnschedulableReason => TypeText
    case SessionWindowStart | SessionWindowEnd => TypeTime
    case SessionWindowStatus => TypeText
  }

  // ----- the database on either side -----

  /** The cell that a field of a specification becomes. */
  function CellFor(codec: Codec, t: Type, v: Value): Cell {
    match t
    case TypeInt => if v.Int? then IntCell(v.i) else NullCell
    case TypeText => if v.Text? then TextCell(v.s) else NullCell
    case TypeBool => if v.Bool? then BoolCell(v.b) else NullCell
    case TypeFloat => if v.Float? then FloatCell(v.r) else NullCell
    case TypeTime => if v.Time? then TimeCell(v.ticks) else NullCell
    case TypeJSON => if v.JSON? then BytesCell(codec.encode(v.j)) else NullCell
  }

  /** Scanning a cell into a holder; None is a conversion that the driver refuses. */
  function ScanInto(kind: Kind, cell: Cell): Option<Scanned> {
    match (kind, cell)
    case (UnknownType, _) => Some(ScannedUnknown(cell))
    case (Bytes, NullCell) => Some(ScannedBytes(""))
    case (Bytes, BytesCell(bytes)) => Some(ScannedBytes(bytes))
    case (NullBool, NullCell) => Some(ScannedBool(false, false))
    case (NullBool, BoolCell(b)) => Some(ScannedBool(true, b))
    case (NullFloat64, NullCell) => Some(ScannedFloat(false, 0.0))
    case (NullFloat64, FloatCell(r)) => Some(ScannedFloat(true, r))
    case (NullInt64, NullCell) => Some(ScannedInt(false, 0))
    case (NullInt64, IntCell(i)) => Some(ScannedInt(true, i))
    case (NullString, NullCell) => Some(ScannedText(false, ""))
    case (NullString, TextCell(s)) => Some(ScannedText(true, s))
    case (NullTime, NullCell) => Some(ScannedTime(false, 0))
    case (NullTime, TimeCell(t)) => Some(ScannedTime(true, t))
    case (_, _) => None
  }

  function KindOf(s: Scanned): Kind {
    match s
    case ScannedBytes(_) => Bytes
    case ScannedBool(_, _) => NullBool
    case ScannedFloat(_, _) => NullFloat64
    case ScannedInt(_, _) => NullInt64
    case ScannedText(_, _) => NullString
    case ScannedTime(_, _) => NullTime
    case ScannedUnknown(_) => UnknownType
  }

  // ----- assigning -----

  /** An entity as a value. */
  datatype Entity = Entity(id: int, values: map<Column, Value>, selectValues: map<string, Scanned>)

  const NEW_ENTITY := Entity(0, map[], map[])

  /** The value that a holder gives to a field; None leaves the field as it is. */
  function Held(s: Scanned): Option<Value> {
    match s
    case ScannedBool(true, b) => Some(Bool(b))
    case ScannedFloat(true, r) => Some(Float(r))
    case ScannedInt(true, i) => Some(Int(i))
    case ScannedText(true, t) => Some(Text(t))
    case ScannedTime(true, t) => Some(Time(t))
    case _ => None
  }

  function AssignOne(codec: Codec, e: Entity, c: Column, s: Scanned): (Entity, Option<Error>) {
    if c.Selected? then (e.(selectValues := e.selectValues[c.name := s]), None)
    else if KindOf(s) != AssignKind(c) then (e, Some(UnexpectedType(c)))
    else if c == ID then (e.(id := if s.ScannedInt? then s.i else 0), None)
    else if s.ScannedBytes? then
      if s.bytes == "" then (e, None)
      else
        var j := codec.decode(s.bytes);
        if j.None? then (e, Some(BadJSON(c))) else (e.(values := e.values[c := JSON(j.value)]), None)
    else
      var v := Held(s);
      if v.None? then (e, None) else (e.(values := e.values[c := v.value]), None)
  }

  /** The columns one after the other, up to the first that fails. */
  function AssignOver(codec: Codec, e: Entity, cs: seq<Column>, ss: seq<Scanned>): (Entity, Option<Error>)
    requires |cs| <= |ss|
    decreases cs
  {
    if cs == [] then (e, None)
    else
      var (next, err) := AssignOne(codec, e, cs[0], ss[0]);
      if err.Some? then (next, err) else AssignOver(codec, next, cs[1..], ss[1..])
  }

  ghost function EntityOf(a: AccountEntity): Entity
    reads a
  {
    Entity(a.id, a.values, a.selectValues)
  }

  method ScanValues(columns: seq<Column>) returns (values: seq<Kind>)
    ensures values == seq(|columns|, i requires 0 <= i < |columns| => ScanKind(columns[i]))
  {
    values := [];
    for i := 0 to |columns|
      invariant values == seq(i, j requires 0 <= j < i => ScanKind(columns[j]))
    {
      values := values + [ScanKind(columns[i])];
    }
  }

  method AssignValues(codec: Codec, a: AccountEntity, columns: seq<Column>, values: seq<Scanned>)
      returns (err: Option<Error>)
    modifies a
    ensures (EntityOf(a), err) ==
            if |values| < |columns| then (old(EntityOf(a)), Some(TooFewValues(|values|, |columns|)))
            else AssignOver(codec, old(EntityOf(a)), columns, values)
  {
    if |values| < |columns| {
      return Some(TooFewValues(|values|, |columns|));
    }
    ghost var all := AssignOver(codec, EntityOf(a), columns, values);
    for i := 0 to |columns|
      invariant AssignOver(codec, EntityOf(a), columns[i..], values[i..]) == all
    {
      assert columns[i..][1..] == columns[i + 1..] && values[i..][1..] == values[i + 1..];
      err := AssignField(codec, a, columns[i], values[i]);
      if err.Some? {
        return;
      }
    }
    err := None;
  }

  method AssignField(codec: Codec, a: AccountEntity, c: Column, s: Scanned) returns (err: Option<Error>)
    modifies a
    ensures (EntityOf(a), err) == AssignOne(codec, old(EntityOf(a)), c, s)
  {
    if c.Selected? {
      a.selectValues := a.selectValues[c.name := s];
      return None;
    }
    if KindOf(s) != AssignKind(c) {
      return Some(UnexpectedType(c));
    }
    if c == ID {
      a.id := if s.ScannedInt? then s.i else 0;
    } else if s.ScannedBytes? {
      if |s.bytes| > 0 {
        var j := codec.decode(s.bytes);
        if j.None? {
          return Some(BadJSON(c));
        }
        a.values := a.values[c := JSON(j.value)];
      }
    } else if Held(s).Some? {
      a.values := a.values[c := Held(s).value];
    }
    err := None;
  }

  // ----- the round trip -----

  /** The three tables agree with the declared types of the fields. */
  lemma TablesAgree(c: Column)
    requires !c.Selected?
    ensures AssignKind(c) == ScanKind(c)
    ensures ScanKind(c) == match DeclaredType(c)
                           case TypeInt => NullInt64
                           case TypeText => NullString
                           case TypeBool => NullBool
                           case TypeFloat => NullFloat64
                           case TypeTime => NullTime
                           case TypeJSON => Bytes
    ensures Settable(c) ==> SpecType(c) == DeclaredType(c)
  {}

  /** The row that an insert of the specification leaves in the table, given the identifier that the
      database chose: the written fields, the foreign key of the many-to-one edge, and NULL elsewhere. */
  ghost predicate Written(codec: Codec, spec: CreateSpec, id: int, row: Column -> Cell) {
    && row(ID) == IntCell(id)
    && (forall e <- spec.edges, v <- e.targets :: e.rel == M2O && e.edge == Proxy ==> row(ProxyID) == IntCell(v))
    && ((forall e <- spec.edges :: e.edge != Proxy) ==> row(ProxyID) == NullCell)
    && forall c :: Settable(c) ==>
         row(c) == var v := FieldIn(spec.fields, c); if v.None? then NullCell else CellFor(codec, SpecType(c), v.value)
  }

  /** createSpec has a block for every settable column. */
  ghost predicate CopiesEveryField(rt: Runtime) {
    forall c: Column :: Settable(c) ==> c in rt.copied
  }

  /** The tables of the accounts package are among those that copy every field. */
  lemma AccountsCopyEveryField(rt: Runtime)
    requires ForAccounts(rt)
    ensures CopiesEveryField(rt)
  {
    forall c: Column | Settable(c) ensures c in CREATE_ORDER {}
  }

  /** The cell of a plain field is the stored value that the mutation gave it. */
  lemma CellOfField(codec: Codec, rt: Runtime, d: Draft, id: int, row: Column -> Cell, c: Column)
    requires CopiesEveryField(rt) && WellTyped(d.fields) && Settable(c)
    requires Written(codec, SpecOf(rt, d), id, row)
    ensures row(c) == if c in d.fields then CellFor(codec, DeclaredType(c), d.fields[c]) else NullCell
    ensures c in NodeValues(rt, d) <==> c in d.fields
    ensures c in d.fields ==> NodeValues(rt, d)[c] == d.fields[c]
  {
    FieldInSpec(d.fields, rt.copied, c);
    TablesAgree(c);
  }

  lemma CellOfProxy(codec: Codec, rt: Runtime, d: Draft, id: int, row: Column -> Cell)
    requires WellTyped(d.fields) && Written(codec, SpecOf(rt, d), id, row)
    ensures row(ProxyID) == if d.proxy.Some? then IntCell(d.proxy.value) else NullCell
    ensures ProxyID in NodeValues(rt, d) <==> d.proxy.Some?
    ensures d.proxy.Some? ==> NodeValues(rt, d)[ProxyID] == Int(d.proxy.value)
  {
    var edges := SpecEdges(d);
    if d.proxy.Some? {
      var e := EdgeSpec(M2O, Proxy, {d.proxy.value});
      assert edges[if d.groups != {} then 1 else 0] == e;
      assert e in edges && d.proxy.value in e.targets;
    }
  }

  lemma ReadsPlain(codec: Codec, rt: Runtime, d: Draft, id: int, row: Column -> Cell, e: Entity, c: Column)
    requires Faithful(codec) && CopiesEveryField(rt) && WellTyped(d.fields) && Settable(c)
    requires Written(codec, SpecOf(rt, d), id, row)
    ensures var s, values := ScanInto(ScanKind(c), row(c)), NodeValues(rt, d);
            && s.Some?
            && AssignOne(codec, e, c, s.value) ==
               (e.(values := if c in values then e.values[c := values[c]] else e.values), None)
  {
    CellOfField(codec, rt, d, id, row, c);
    ReadsStored(codec, e, c, if c in d.fields then Some(d.fields[c]) else None);
  }

  lemma ReadsProxy(codec: Codec, rt: Runtime, d: Draft, id: int, row: Column -> Cell, e: Entity)
    requires WellTyped(d.fields) && Written(codec, SpecOf(rt, d), id, row)
    ensures var s, values := ScanInto(NullInt64, row(ProxyID)), NodeValues(rt, d);
            && s.Some?
            && AssignOne(codec, e, ProxyID, s.value) ==
               (e.(values := if ProxyID in values then e.values[ProxyID := values[ProxyID]] else e.values), None)
  {
    CellOfProxy(codec, rt, d, id, row);
  }

  lemma ReadsID(codec: Codec, rt: Runtime, d: Draft, id: int, row: Column -> Cell, e: Entity)
    requires WellTyped(d.fields) && Written(codec, SpecOf(rt, d), id, row)
    ensures var s := ScanInto(NullInt64, row(ID));
            s.Some? && AssignOne(codec, e, ID, s.value) == (e.(id := id), None) && ID !in NodeValues(rt, d)
  {}

  /** Scanning and assigning one column gives the field the value it has on the entity that the create
      returned, and leaves the other fields alone. */
  lemma ReadsOne(codec: Codec, rt: Runtime, d: Draft, id: int, row: Column -> Cell, e: Entity, c: Column)
    requires Faithful(codec) && CopiesEveryField(rt) && WellTyped(d.fields) && !c.Selected?
    requires Written(codec, SpecOf(rt, d), id, row)
    ensures var s, values := ScanInto(ScanKind(c), row(c)), NodeValues(rt, d);
            && s.Some?
            && AssignOne(codec, e, c, s.value) ==
               (Entity(if c == ID then id else e.id, if c in values then e.values[c := values[c]] else e.values,
                       e.selectValues), None)
  {
    if Settable(c) {
      ReadsPlain(codec, rt, d, id, row, e, c);
    } else if c == ProxyID {
      ReadsProxy(codec, rt, d, id, row, e);
    } else {
      ReadsID(codec, rt, d, id, row, e);
    }
  }

  lemma ReadsStored(codec: Codec, e: Entity, c: Column, v: Option<Value>)
    requires Faithful(codec) && Settable(c) && (v.Some? ==> Fits(v.value, DeclaredType(c)))
    ensures var s := ScanInto(ScanKind(c), if v.None? then NullCell else CellFor(codec, DeclaredType(c), v.value));
            s.Some? && AssignOne(codec, e, c, s.value) ==
              (if v.None? then e else e.(values := e.values[c := v.value]), None)
  {
    TablesAgree(c);
  }

  /** The cells of a row for the columns that a query reads, scanned into their holders. */
  function ScanRow(cs: seq<Column>, row: Column -> Cell): Option<seq<Scanned>> {
    if cs == [] then Some([])
    else
      var s, rest := ScanInto(ScanKind(cs[0]), row(cs[0])), ScanRow(cs[1..], row);
      if s.None? || rest.None? then None else Some([s.value] + rest.value)
  }

  /** What e holds are the created entity's identifier and fields as far as they were read. */
  ghost predicate HasRead(e: Entity, id: int, values: map<Column, Value>, read: set<Column>) {
    && e.id == (if ID in read then id else 0)
    && e.values == map c | c in values && c in read :: values[c]
  }

  lemma HasReadNext(e: Entity, next: Entity, id: int, values: map<Column, Value>, read: set<Column>, c: Column)
    requires HasRead(e, id, values, read)
    requires next.id == if c == ID then id else e.id
    requires next.values == if c in values then e.values[c := values[c]] else e.values
    ensures HasRead(next, id, values, read + {c})
  {}

  lemma ReadsNext(codec: Codec, rt: Runtime, d: Draft, id: int, row: Column -> Cell, e: Entity, c: Column,
                  read: set<Column>)
    requires Faithful(codec) && CopiesEveryField(rt) && WellTyped(d.fields)
    requires Written(codec, SpecOf(rt, d), id, row)
    requires HasRead(e, id, NodeValues(rt, d), read)
    ensures var s := ScanInto(ScanKind(c), row(c));
            && s.Some?
            && var (next, err) := AssignOne(codec, e, c, s.value);
               err.None? && HasRead(next, id, NodeValues(rt, d), read + {c})
  {
    var values := NodeValues(rt, d);
    if c.Selected? {
      assert c !in values;
    } else {
      ReadsOne(codec, rt, d, id, row, e, c);
    }
    HasReadNext(e, AssignOne(codec, e, c, ScanInto(ScanKind(c), row(c)).value).0, id, values, read, c);
  }

  function ColumnSet(cs: seq<Column>): set<Column> {
    set c | c in cs
  }

  lemma ColumnSetCons(read: set<Column>, cs: seq<Column>)
    requires cs != []
    ensures read + {cs[0]} + ColumnSet(cs[1..]) == read + ColumnSet(cs)
  {
    assert cs == [cs[0]] + cs[1..];
  }

  lemma {:induction false} ReadsRow(codec: Codec, rt: Runtime, d: Draft, id: int, row: Column -> Cell,
                                    cs: seq<Column>, e: Entity, read: set<Column>)
    requires Faithful(codec) && CopiesEveryField(rt) && WellTyped(d.fields)
    requires Written(codec, SpecOf(rt, d), id, row)
    requires HasRead(e, id, NodeValues(rt, d), read)
    ensures var ss := ScanRow(cs, row);
            && ss.Some? && |ss.value| == |cs|
            && var (result, err) := AssignOver(codec, e, cs, ss.value);
               err.None? && HasRead(result, id, NodeValues(rt, d), read + ColumnSet(cs))
    decreases cs
  {
    if cs == [] {
      assert read + ColumnSet(cs) == read;
    } else {
      ReadsNext(codec, rt, d, id, row, e, cs[0], read);
      var s := ScanInto(ScanKind(cs[0]), row(cs[0])).value;
      var next := AssignOne(codec, e, cs[0], s).0;
      ReadsRow(codec, rt, d, id, row, cs[1..], next, read + {cs[0]});
      ColumnSetCons(read, cs);
      assert ([s] + ScanRow(cs[1..], row).value)[1..] == ScanRow(cs[1..], row).value;
    }
  }

  lemma FieldsRead(e: Entity, id: int, values: map<Column, Value>, read: set<Column>, c: Column)
    requires HasRead(e, id, values, read) && !c.Selected?
    ensures FieldOf(e.id, e.values, c) == if c in read then FieldOf(id, values, c) else FieldOf(0, map[], c)
  {}

  /** Reading back what a create inserted rebuilds the entity that the create returned: every column that
      is read, in whatever order, gives its field the value it has there, nil and zero where the mutation
      left it unset, and no holder has the wrong type. Fields whose column is not read stay zero. */
  lemma CreateThenRead(codec: Codec, rt: Runtime, d: Draft, id: int, row: Column -> Cell, cs: seq<Column>, c: Column)
    requires Faithful(codec) && CopiesEveryField(rt) && WellTyped(d.fields)
    requires Written(codec, SpecOf(rt, d), id, row) && !c.Selected?
    ensures var ss := ScanRow(cs, row);
            && ss.Some? && |ss.value| == |cs|
            && var (e, err) := AssignOver(codec, NEW_ENTITY, cs, ss.value);
               && err.None?
               && FieldOf(e.id, e.values, c) ==
                  if c in cs then FieldOf(id, NodeValues(rt, d), c) else FieldOf(0, map[], c)
  {
    var read: set<Column> := {};
    ReadsRow(codec, rt, d, id, row, cs, NEW_ENTITY, read);
    var (e, err) := AssignOver(codec, NEW_ENTITY, cs, ScanRow(cs, row).value);
    FieldsRead(e, id, NodeValues(rt, d), read + ColumnSet(cs), c);
  }

  // ----- any holders at all -----

  /** The holder is of the kind that the declared type of the column asks for. */
  predicate RightKind(c: Column, s: Scanned)
    requires !c.Selected?
  {
    match DeclaredType(c)
    case TypeInt => s.ScannedInt?
    case TypeText => s.ScannedText?
    case TypeBool => s.ScannedBool?
    case TypeFloat => s.ScannedFloat?
    case TypeTime => s.ScannedTime?
    case TypeJSON => s.ScannedBytes?
  }

  predicate Assignable(codec: Codec, c: Column, s: Scanned) {
    c.Selected? || (RightKind(c, s) && (s.ScannedBytes? && s.bytes != "" ==> codec.decode(s.bytes).Some?))
  }

  lemma AssignsOne(codec: Codec, e: Entity, c: Column, s: Scanned)
    ensures AssignOne(codec, e, c, s).1 ==
            if Assignable(codec, c, s) then None
            else if !RightKind(c, s) then Some(UnexpectedType(c)) else Some(BadJSON(c))
  {
    if !c.Selected? {
      TablesAgree(c);
    }
  }

  /** The k-th holder is the first that cannot be assigned, for the given reason. */
  predicate FirstBad(codec: Codec, cs: seq<Column>, ss: seq<Scanned>, k: nat, err: Error)
    requires k < |cs| <= |ss|
  {
    && !Assignable(codec, cs[k], ss[k])
    && (forall j :: 0 <= j < k ==> Assignable(codec, cs[j], ss[j]))
    && err == if !RightKind(cs[k], ss[k]) then UnexpectedType(cs[k]) else BadJSON(cs[k])
  }

  /** Assigning succeeds just if every holder is of the kind of its column and holds valid JSON if it must; the
      error is about the first that does not. */
  lemma {:induction false} AssignsAll(codec: Codec, e: Entity, cs: seq<Column>, ss: seq<Scanned>)
    requires |cs| <= |ss|
    ensures var err := AssignOver(codec, e, cs, ss).1;
            && (err.None? <==> forall k :: 0 <= k < |cs| ==> Assignable(codec, cs[k], ss[k]))
            && (err.Some? ==> exists k :: 0 <= k < |cs| && FirstBad(codec, cs, ss, k, err.value))
    decreases cs
  {
    if cs != [] {
      AssignsOne(codec, e, cs[0], ss[0]);
      if !Assignable(codec, cs[0], ss[0]) {
        assert FirstBad(codec, cs, ss, 0, AssignOver(codec, e, cs, ss).1.value);
      } else {
        var next := AssignOne(codec, e, cs[0], ss[0]).0;
        AssignsAll(codec, next, cs[1..], ss[1..]);
        AssignsRest(codec, cs, ss, AssignOver(codec, next, cs[1..], ss[1..]).1);
      }
    }
  }

  lemma AssignsRest(codec: Codec, cs: seq<Column>, ss: seq<Scanned>, err: Option<Error>)
    requires cs != [] && |cs| <= |ss| && Assignable(codec, cs[0], ss[0])
    requires err.None? ==> forall k :: 0 <= k < |cs[1..]| ==> Assignable(codec, cs[1..][k], ss[1..][k])
    requires err.Some? ==> exists k :: 0 <= k < |cs[1..]| && FirstBad(codec, cs[1..], ss[1..], k, err.value)
    ensures err.None? <==> forall k :: 0 <= k < |cs| ==> Assignable(codec, cs[k], ss[k])
    ensures err.Some? ==> exists k :: 0 <= k < |cs| && FirstBad(codec, cs, ss, k, err.value)
  {
    forall k | 0 < k < |cs| ensures cs[k] == cs[1..][k - 1] && ss[k] == ss[1..][k - 1] {}
    if err.Some? {
      var k :| 0 <= k < |cs[1..]| && FirstBad(codec, cs[1..], ss[1..], k, err.value);
      forall j | 0 <= j < k + 1 ensures Assignable(codec, cs[j], ss[j]) {
        assert j > 0 ==> Assignable(codec, cs[1..][j - 1], ss[1..][j - 1]);
      }
      assert FirstBad(codec, cs, ss, k + 1, err.value);
    }
  }

  lemma {:induction false} OthersAreKept(codec: Codec, e: Entity, cs: seq<Column>, ss: seq<Scanned>, name: string)
    requires |cs| <= |ss| && Selected(name) !in cs
    ensures var was, now := e.selectValues, AssignOver(codec, e, cs, ss).0.selectValues;
            (name in now <==> name in was) && (name in was ==> now[name] == was[name])
    decreases cs
  {
    if cs != [] {
      assert cs == [cs[0]] + cs[1..];
      OthersAreKept(codec, AssignOne(codec, e, cs[0], ss[0]).0, cs[1..], ss[1..], name);
    }
  }

  /** An expression that a modifier selected is kept under its name, the last of that name. */
  lemma {:induction false} ExpressionIsKept(codec: Codec, e: Entity, cs: seq<Column>, ss: seq<Scanned>, k: nat)
    requires k < |cs| <= |ss| && AssignOver(codec, e, cs, ss).1.None?
    requires cs[k].Selected? && cs[k] !in cs[k + 1..]
    ensures var now := AssignOver(codec, e, cs, ss).0.selectValues;
            cs[k].name in now && now[cs[k].name] == ss[k]
    decreases cs
  {
    var next := AssignOne(codec, e, cs[0], ss[0]).0;
    if k == 0 {
      OthersAreKept(codec, next, cs[1..], ss[1..], cs[0].name);
    } else {
      assert cs[1..][k - 1] == cs[k] && cs[1..][k - 1 + 1..] == cs[k + 1..];
      ExpressionIsKept(codec, next, cs[1..], ss[1..], k - 1);
    }
  }

  /** Fields that no column was read for are nil if they can be and else zero. */
  lemma UnreadFieldsAreZero(c: Column)
    requires !c.Selected?
    ensures FieldOf(0, map[], c) ==
            if Nillable(c) then None
            else match DeclaredType(c)
                 case TypeInt => Some(Int(0))
                 case TypeText => Some(Text(""))
                 case TypeBool => Some(Bool(false))
                 case TypeFloat => Some(Float(0.0))
                 case TypeTime => Some(Time(0))
                 case TypeJSON => Some(JSON(Nil))
  {}
}
