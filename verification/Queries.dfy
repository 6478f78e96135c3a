/** The query builder: conditions, order and page accumulate on an object until it is run. */
module Queries {
  import opened Wrappers
  import opened Rows
  import opened Joins

  datatype QueryError =
    | InvalidField(name: string)
    | UnexpectedNode(edge: string, id: int)
    | UnexpectedForeignKey(edge: string, key: int)
    | NilForeignKey(edge: string)
    | NotLoaded(edge: string)
    | NotFound(entity: string)
    | NotSingular(entity: string)
    | ColumnMismatch(columns: int)

  datatype Lock = ForUpdate | ForShare

  /** A query as a value. */
  datatype Content<!Row> = Content(
    predicates: seq<Row -> bool>,
    traversers: seq<Row -> bool>,
    before: (Row, Row) -> bool,
    offset: nat,
    limit: Option<nat>,
    fields: seq<string>,
    joins: seq<seq<int>>,
    locks: seq<Lock>)
  {
    function Asking(): Selection<Row> {
      Selection(predicates + traversers, before, offset, limit)
    }

    /** After a run: the traversing conditions are added. */
    function Traversed(): Content<Row> {
      this.(predicates := predicates + traversers)
    }

    /** With what a loader adds before it runs the query. */
    function With(a: Added<Row>): Content<Row> {
      this.(fields := if a.key.Some? then WithForeignKey(fields, a.key.value) else fields,
            predicates := predicates + if a.condition.Some? then [a.condition.value] else [],
            joins := joins + if a.owners.Some? then [a.owners.value] else [])
    }
  }

  /** What a loader adds to the query of its edge: a foreign key to read, a condition, a join. */
  datatype Added<!Row> = Added(key: Option<string>, condition: Option<Row -> bool>, owners: Option<seq<int>>)

  class Query<Row(!new)> {
    var predicates: seq<Row -> bool>
    var traversers: seq<Row -> bool>  // what each traversing interceptor adds whenever the query is run
    var before: (Row, Row) -> bool
    var offset: nat
    var limit: Option<nat>
    var fields: seq<string>
    var modifiers: seq<Lock>
    var joins: seq<seq<int>>  // the owners for which a many-to-many loader joined the join table

    constructor (traversers: seq<Row -> bool>)
      ensures predicates == [] && this.traversers == traversers && before == Unordered
      ensures offset == 0 && limit == None && fields == [] && modifiers == [] && joins == []
    {
      predicates, this.traversers, before := [], traversers, Unordered;
      offset, limit, fields, modifiers, joins := 0, None, [], [], [];
    }

    function Contents(): Content<Row>
      reads this
    {
      Content(predicates, traversers, before, offset, limit, fields, joins, modifiers)
    }

    /** The selection that a run makes. */
    function Asking(): Selection<Row>
      reads this`predicates, this`traversers, this`before, this`offset, this`limit
    {
      Selection(predicates + traversers, before, offset, limit)
    }

    method Where(p: Row -> bool)
      modifies this`predicates
      ensures predicates == old(predicates) + [p]
    {
      predicates := predicates + [p];
    }

    /** A many-to-many loader joins the join table, restricted to the given owners. Like a condition,
        the join stays on the query. */
    method Join(owners: seq<int>)
      modifies this`joins
      ensures joins == old(joins) + [owners]
    {
      joins := joins + [owners];
    }

    /** A further order breaks the ties that the earlier ones leave. */
    method Order(more: (Row, Row) -> bool)
      modifies this`before
      ensures before == Then(old(before), more)
    {
      before := Then(before, more);
    }

    method Limit(n: nat)
      modifies this`limit
      ensures limit == Some(n)
    {
      limit := Some(n);
    }

    method Offset(n: nat)
      modifies this`offset
      ensures offset == n
    {
      offset := n;
    }

    /** Selects a further column. */
    method Select(f: string)
      modifies this`fields
      ensures fields == old(fields) + [f]
    {
      fields := fields + [f];
    }

    method Lock(l: Lock)
      modifies this`modifiers
      ensures modifiers == old(modifiers) + [l]
    {
      modifiers := modifiers + [l];
    }

    method AppendFieldOnce(f: string)
      modifies this`fields
      ensures fields == old(if f in fields then fields else fields + [f])
    {
      if f !in fields {
        fields := fields + [f];
      }
    }

    /** A loader makes sure that a selection of columns includes the foreign key it needs. */
    method Require(f: string)
      modifies this`fields
      ensures fields == WithForeignKey(old(fields), f)
    {
      if |fields| > 0 {
        AppendFieldOnce(f);
      }
    }

    /** Every traversing interceptor adds its condition. */
    method Traverse()
      modifies this`predicates
      ensures predicates == old(predicates) + traversers
    {
      for i := 0 to |traversers|
        invariant predicates == old(predicates) + traversers[..i]
      {
        Where(traversers[i]);
        assert traversers[..i + 1] == traversers[..i] + [traversers[i]];
      }
      assert traversers[..|traversers|] == traversers;
    }

    /** prepareQuery: the traversers add their conditions, then the selected columns are checked. */
    method Prepare(columns: seq<string>) returns (err: Option<QueryError>)
      modifies this`predicates
      ensures predicates == old(predicates) + traversers
      ensures err == FirstUnknown(fields, columns)
    {
      Traverse();
      for i := 0 to |fields|
        invariant FirstUnknown(fields[i..], columns) == FirstUnknown(fields, columns)
      {
        assert fields[i..][1..] == fields[i + 1..];
        if fields[i] !in columns {
          return Some(InvalidField(fields[i]));
        }
      }
      err := None;
    }

    /** Prepares the query and selects from the table. */
    method Run(table: Table<Row>) returns (r: Result<seq<Row>, QueryError>)
      modifies this`predicates
      ensures predicates == old(predicates) + traversers
      ensures var err := FirstUnknown(fields, table.columns);
              r == if err.Some? then Failure(err.value) else Success(Selected(table.rows, old(Asking())))
    {
      var err := Prepare(table.columns);
      if err.Some? {
        return Failure(err.value);
      }
      r := Success(Selected(table.rows, Selection(predicates, before, offset, limit)));
    }

    /** The columns of querySpec: all of them, or the key, the selected ones and the foreign keys that
        the requested edges need. */
    method SpecColumns(all: seq<string>, key: Option<string>, foreign: seq<string>) returns (columns: seq<string>)
      ensures (set c | c in columns) ==
              Kept(all, fields, (if key.Some? then {key.value} else {}) + set c | c in foreign)
      ensures key.Some? && fields != [] ==> |columns| > 0 && columns[0] == key.value
    {
      if fields == [] {
        return all;
      }
      columns := if key.Some? then [key.value] else [];
      for i := 0 to |fields|
        invariant forall c :: c in columns <==> c in fields[..i] || (key.Some? && c == key.value)
        invariant key.Some? ==> |columns| > 0 && columns[0] == key.value
      {
        assert fields[..i + 1] == fields[..i] + [fields[i]];
        if key.None? || fields[i] != key.value {
          columns := columns + [fields[i]];
        }
      }
      assert fields[..|fields|] == fields;
      for i := 0 to |foreign|
        invariant forall c :: c in columns <==> c in fields || (key.Some? && c == key.value) || c in foreign[..i]
        invariant key.Some? ==> |columns| > 0 && columns[0] == key.value
      {
        assert foreign[..i + 1] == foreign[..i] + [foreign[i]];
        if foreign[i] !in columns {
          columns := columns + [foreign[i]];
        }
      }
      assert foreign[..|foreign|] == foreign;
    }

    /** The copy has the same conditions, order, page and columns but none of the modifiers. */
    method Clone() returns (copy: Query<Row>)
      ensures fresh(copy)
      ensures copy.predicates == predicates && copy.traversers == traversers && copy.before == before
      ensures copy.offset == offset && copy.limit == limit && copy.fields == fields
      ensures copy.joins == joins && copy.modifiers == []
    {
      copy := new Query(traversers);
      copy.joins := joins;
      copy.predicates, copy.before, copy.offset, copy.limit, copy.fields := predicates, before, offset, limit, fields;
    }
  }

  /** The rows stay in the order of the table. */
  predicate Unordered<Row>(a: Row, b: Row) {
    false
  }

  function Then<Row>(before: (Row, Row) -> bool, more: (Row, Row) -> bool): (Row, Row) -> bool {
    (a: Row, b: Row) => before(a, b) || (!before(b, a) && more(a, b))
  }

  /** A selection of columns that leaves out the foreign key is extended by it. */
  function WithForeignKey(fields: seq<string>, key: string): seq<string> {
    if fields == [] || key in fields then fields else fields + [key]
  }

  function FirstUnknown(fields: seq<string>, columns: seq<string>): Option<QueryError> {
    if fields == [] then None
    else if fields[0] !in columns then Some(InvalidField(fields[0]))
    else FirstUnknown(fields[1..], columns)
  }

  /** Adding a condition and running asks for the rows that satisfy it as well, and leaves a query whose
      further runs do too. */
  lemma WhereThenRun<Row(!new)>(rows: seq<Row>, predicates: seq<Row -> bool>, traversers: seq<Row -> bool>,
                                p: Row -> bool, s: Selection<Row>)
    requires s.predicates == predicates + traversers
    ensures Selected(rows, s.(predicates := predicates + [p] + traversers)) == Selected(rows, And(s, p))
    ensures forall r :: Satisfies(predicates + [p] + traversers + traversers, r) <==> Satisfies(s.predicates, r) && p(r)
  {
    AndSatisfies(predicates + [p] + traversers, traversers);
    AndSatisfies(predicates + [p], traversers);
    AndSatisfies(predicates, [p]);
    AndSatisfies(predicates, traversers);
    AndSatisfies(predicates + traversers, [p]);
    OneSatisfies(p);
    SelectedCongruent(rows, s.(predicates := predicates + [p] + traversers), And(s, p));
  }
}
