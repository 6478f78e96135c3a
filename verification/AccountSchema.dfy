/** The columns of the accounts table, their types, and the values a mutation or a row may give
    them. The column tables follow the order in which the generated code lists them. */
module AccountSchema {
  import opened Wrappers

  datatype Column =
    | ID | CreatedAt | UpdatedAt | DeletedAt | Name | Notes | Platform | Type | Credentials | Extra
    | ProxyID | Concurrency | LoadFactor | Priority | RateMultiplier | Status | ErrorMessage
    | LastUsedAt | ExpiresAt | AutoPauseOnExpired | Schedulable | RateLimitedAt | RateLimitResetAt
    | OverloadUntil | TempUnschedulableUntil | TempUnschedulableReason | SessionWindowStart
    | SessionWindowEnd | SessionWindowStatus
    | Selected(name: string)  // an expression a modifier added to the SELECT list

  datatype Json = Nil | Object(members: map<string, string>)

  /** A value as the program holds it; instants are counted in ticks. */
  datatype Value =
    | Int(i: int) | Text(s: string) | Bool(b: bool) | Float(r: real) | Time(ticks: int) | JSON(j: Json)

  datatype Type = TypeInt | TypeText | TypeBool | TypeFloat | TypeTime | TypeJSON

  predicate Fits(v: Value, t: Type) {
    match t
    case TypeInt => v.Int?
    case TypeText => v.Text?
    case TypeBool => v.Bool?
    case TypeFloat => v.Float?
    case TypeTime => v.Time?
    case TypeJSON => v.JSON?
  }

  /** The type the entity declares for each of its fields. */
  function DeclaredType(c: Column): Type
    requires !c.Selected?
  {
    match c
    case ID | ProxyID | Concurrency | LoadFactor | Priority => TypeInt
    case Name | Notes | Platform | Type | Status | ErrorMessage => TypeText
    case TempUnschedulableReason | SessionWindowStatus => TypeText
    case Credentials | Extra => TypeJSON
    case AutoPauseOnExpired | Schedulable => TypeBool
    case RateMultiplier => TypeFloat
    case CreatedAt | UpdatedAt | DeletedAt | LastUsedAt | ExpiresAt => TypeTime
    case RateLimitedAt | RateLimitResetAt | OverloadUntil | TempUnschedulableUntil => TypeTime
    case SessionWindowStart | SessionWindowEnd => TypeTime
  }

  /** Fields that the entity holds through a pointer, nil meaning NULL. */
  predicate Nillable(c: Column) {
    c in {DeletedAt, Notes, ProxyID, LoadFactor, ErrorMessage, LastUsedAt, ExpiresAt, RateLimitedAt,
          RateLimitResetAt, OverloadUntil, TempUnschedulableUntil, TempUnschedulableReason,
          SessionWindowStart, SessionWindowEnd, SessionWindowStatus}
  }

  /** Plain fields: the identifier is given by the database and proxy_id is set through its edge. */
  predicate Settable(c: Column) {
    !c.Selected? && c != ID && c != ProxyID
  }

  function Zero(t: Type): (v: Value)
    ensures Fits(v, t)
  {
    match t
    case TypeInt => Int(0)
    case TypeText => Text("")
    case TypeBool => Bool(false)
    case TypeFloat => Float(0.0)
    case TypeTime => Time(0)
    case TypeJSON => JSON(Nil)
  }

  /** A cell of a row as the database stores it. */
  datatype Cell =
    | NullCell | IntCell(i: int) | TextCell(s: string) | BoolCell(b: bool) | FloatCell(r: real)
    | TimeCell(ticks: int) | BytesCell(bytes: string)

  /** What a cell is scanned into; a holder other than bytes says whether the cell was not NULL. */
  datatype Scanned =
    | ScannedBytes(bytes: string)
    | ScannedBool(valid: bool, b: bool)
    | ScannedFloat(valid: bool, r: real)
    | ScannedInt(valid: bool, i: int)
    | ScannedText(valid: bool, s: string)
    | ScannedTime(valid: bool, ticks: int)
    | ScannedUnknown(cell: Cell)

  /** The plain fields a mutation has set. */
  type FieldMap = map<Column, Value>

  /** What the static types of the setters guarantee. */
  predicate WellTyped(m: FieldMap) {
    forall c <- m :: Settable(c) && Fits(m[c], DeclaredType(c))
  }

  /** What a create mutation asks for: plain fields and the edges to attach. */
  datatype Draft = Draft(fields: FieldMap, groups: set<int>, proxy: Option<int>, usageLogs: set<int>)

  const EMPTY_DRAFT := Draft(map[], {}, None, {})

  datatype Error =
    | UninitializedDefault(column: Column)
    | MissingField(column: Column)
    | ValidatorFailed(column: Column)
    | UnexpectedMutationType
    | MissingID
    | InvalidColumn(column: Column)
    | NotFound
    | UnexpectedType(column: Column)
    | TooFewValues(values: int, columns: int)
    | BadJSON(column: Column)
    | ConstraintError(msg: string)
    | OtherError(msg: string)
}
