/** A query with its tree of edge queries, to any depth: clones ask for the same, and what is done to one
    of two clones, anywhere in its tree, is not seen by the other. */
module Clones {
  import opened Wrappers
  import opened AccountSchema
  import opened Queries

  /** A row of any entity. */
  type Record = map<string, Cell>

  // ----- queries as values -----

  /** A query and the queries of its edges; an edge that was not requested has none. */
  datatype Tree = NoQuery | Node(content: Content<Record>, edges: seq<Tree>)

  const NEW_CONTENT: Content<Record> := Content([], [], Unordered, 0, None, [], [], [])

  function WithoutLocks(t: Tree): Tree {
    if t.NoQuery? then t
    else Node(t.content.(locks := []), seq(|t.edges|, i requires 0 <= i < |t.edges| => WithoutLocks(t.edges[i])))
  }

  // ----- what is done to a query -----

  datatype Edit =
    | WhereEdit(p: Record -> bool)
    | OrderEdit(before: (Record, Record) -> bool)
    | LimitEdit(n: nat)
    | OffsetEdit(n: nat)
    | SelectEdit(f: string)
    | LockEdit(lock: Lock)

  function EditContent(c: Content<Record>, e: Edit): Content<Record> {
    match e
    case WhereEdit(p) => c.(predicates := c.predicates + [p])
    case OrderEdit(before) => c.(before := Then(c.before, before))
    case LimitEdit(n) => c.(limit := Some(n))
    case OffsetEdit(n) => c.(offset := n)
    case SelectEdit(f) => c.(fields := c.fields + [f])
    case LockEdit(lock) => c.(locks := c.locks + [lock])
  }

  /** A new query after the options that configure it. */
  function Built(options: seq<Edit>): Content<Record> {
    if options == [] then NEW_CONTENT
    else EditContent(Built(options[..|options| - 1]), options[|options| - 1])
  }

  /** What one run did: for every edge that it loaded, what the loader added to the query of the edge, and
      the run of that query. Which edges are loaded and with which conditions depends on the database. */
  datatype Visit = Visit(loads: seq<Option<Load>>)

  datatype Load = Load(added: Added<Record>, inner: Visit)

  /** The tree after a run. */
  function RunTree(t: Tree, v: Visit): Tree
    decreases v, 1
  {
    if t.NoQuery? then t
    else
      Node(t.content.Traversed(),
           seq(|t.edges|, i requires 0 <= i < |t.edges| => RunEdge(t.edges[i], v, i)))
  }

  function RunEdge(t: Tree, v: Visit, i: nat): Tree
    decreases v, 0
  {
    if i >= |v.loads| || v.loads[i].None? || t.NoQuery? then t
    else
      var load := v.loads[i].value;
      RunTree(Node(t.content.With(load.added), t.edges), load.inner)
  }

  /** An edit of a query, the request of one of its edges by a new query, a run, or a run by a loader. */
  datatype Action =
    | Change(edit: Edit)
    | Request(edge: nat, arity: nat, options: seq<Edit>)
    | Run(visit: Visit)
    | LoadThenRun(load: Load)
  {
    /** The run that the action makes, if any. */
    function Visited(): Visit {
      match this
      case Run(visit) => visit
      case LoadThenRun(load) => load.inner
      case _ => Visit([])
    }
  }

  function Act(t: Tree, a: Action): Tree
    requires t.Node?
  {
    match a
    case Change(edit) => t.(content := EditContent(t.content, edit))
    case Request(edge, arity, options) =>
      if edge < |t.edges| then t.(edges := t.edges[edge := Node(Built(options), seq(arity, _ => NoQuery))]) else t
    case Run(visit) => RunTree(t, visit)
    case LoadThenRun(load) => RunTree(Node(t.content.With(load.added), t.edges), load.inner)
  }

  /** The same at the query that a path of edges leads to, if there is one. */
  function ActAt(t: Tree, path: seq<nat>, a: Action): Tree
    decreases path
  {
    if t.NoQuery? then t
    else if path == [] then Act(t, a)
    else if path[0] < |t.edges| then
      t.(edges := t.edges[path[0] := ActAt(t.edges[path[0]], path[1..], a)])
    else t
  }

  // ----- what that means at every query of the tree -----

  /** The query that a path of edges leads to, if there is one. */
  function Subtree(t: Tree, path: seq<nat>): Tree
    decreases path
  {
    if path == [] then t
    else if t.Node? && path[0] < |t.edges| then Subtree(t.edges[path[0]], path[1..])
    else NoQuery
  }

  /** Every query of a tree without locks asks for what it asked before, and holds no locks. */
  lemma {:induction false} WithoutLocksAt(t: Tree, path: seq<nat>)
    ensures var was, now := Subtree(t, path), Subtree(WithoutLocks(t), path);
            && (now.Node? <==> was.Node?)
            && (was.Node? ==>
                  && |now.edges| == |was.edges| && now.content.locks == []
                  && now.content.predicates == was.content.predicates
                  && now.content.traversers == was.content.traversers
                  && now.content.before == was.content.before
                  && now.content.offset == was.content.offset && now.content.limit == was.content.limit
                  && now.content.fields == was.content.fields && now.content.joins == was.content.joins)
    decreases path
  {
    if path != [] && t.Node? && path[0] < |t.edges| {
      WithoutLocksAt(t.edges[path[0]], path[1..]);
    }
  }

  /** The action happens at the query that the path leads to. */
  lemma {:induction false} ActsThere(t: Tree, path: seq<nat>, a: Action)
    requires Subtree(t, path).Node?
    ensures Subtree(ActAt(t, path, a), path) == Act(Subtree(t, path), a)
    decreases path
  {
    if path != [] {
      ActsThere(t.edges[path[0]], path[1..], a);
    }
  }

  predicate LeadsOn(path: seq<nat>, further: seq<nat>) {
    |path| <= |further| && further[..|path|] == path
  }

  lemma LeadsOnFurther(path: seq<nat>, further: seq<nat>)
    requires path != [] && further != [] && path[0] == further[0]
    ensures LeadsOn(path[1..], further[1..]) ==> LeadsOn(path, further)
  {
    if LeadsOn(path[1..], further[1..]) {
      assert further[..|path|] == [further[0]] + further[1..][..|path| - 1];
    }
  }

  /** And no query that is not below that one changes. */
  lemma {:induction false} ActsNowhereElse(t: Tree, path: seq<nat>, a: Action, other: seq<nat>)
    requires !LeadsOn(path, other)
    ensures var was, now := Subtree(t, other), Subtree(ActAt(t, path, a), other);
            && (now.Node? <==> was.Node?)
            && (was.Node? ==> now.content == was.content && |now.edges| == |was.edges|)
    decreases path
  {
    if t.Node? && path != [] && path[0] < |t.edges| && other != [] && other[0] == path[0] {
      LeadsOnFurther(path, other);
      ActsNowhereElse(t.edges[path[0]], path[1..], a, other[1..]);
    }
  }

  /** A run adds the traversing conditions of the query it is made of. */
  lemma RunsThere(t: Tree, v: Visit)
    requires t.Node?
    ensures var now := Act(t, Run(v));
            && now.Node? && |now.edges| == |t.edges|
            && now.content.predicates == t.content.predicates + t.content.traversers
            && now.content.fields == t.content.fields && now.content.joins == t.content.joins
  {}

  /** A request puts a new query, which has no edges yet, on one edge and leaves the others. */
  lemma RequestsThere(t: Tree, edge: nat, arity: nat, options: seq<Edit>)
    requires t.Node? && edge < |t.edges|
    ensures var now := Act(t, Request(edge, arity, options));
            && now.Node? && now.content == t.content && |now.edges| == |t.edges|
            && (forall i :: 0 <= i < |t.edges| && i != edge ==> now.edges[i] == t.edges[i])
            && now.edges[edge].Node? && |now.edges[edge].edges| == arity
            && (forall i :: 0 <= i < arity ==> now.edges[edge].edges[i] == NoQuery)
            && (options == [] ==> now.edges[edge].content.predicates == [] && now.edges[edge].content.limit == None)
  {}

  datatype Call = Call(path: seq<nat>, action: Action)

  /** The tree after those of the calls that are on this side. */
  function Used(t: Tree, calls: seq<(bool, Call)>, side: bool): Tree {
    if calls == [] then t
    else
      var earlier := Used(t, calls[..|calls| - 1], side);
      var (on, c) := calls[|calls| - 1];
      if on == side then ActAt(earlier, c.path, c.action) else earlier
  }

  // ----- queries as objects -----

  class TreeQuery {
    const base: Query<Record>
    var edges: seq<TreeQuery?>
    ghost var Repr: set<object>

    constructor (base: Query<Record>, edges: seq<TreeQuery?>, ghost repr: set<object>)
      requires base !in repr && Forest(edges, repr)
      ensures this.base == base && this.edges == edges && Repr == repr + {this, base} && Valid()
    {
      this.base, this.edges, Repr := base, edges, repr + {this, base};
    }

    /** The query, its base and its edge queries, which share nothing. */
    ghost predicate Valid()
      reads this, Repr
      decreases Repr, 0
    {
      this in Repr && base in Repr && Forest(edges, Repr - {this, base})
    }

    ghost function Tree(): Tree
      requires Valid()
      reads this, Repr
      decreases Repr, 0
    {
      Node(base.Contents(), Trees(edges, Repr - {this, base}))
    }

    /** The clone asks for the same with its whole tree, shares no part of it and holds no locks. */
    method Clone() returns (copy: TreeQuery)
      requires Valid()
      ensures copy.Valid() && fresh(copy.Repr) && copy.Tree() == WithoutLocks(Tree())
      decreases Repr, 0
    {
      var copies, repr := CloneAll(edges, Repr - {this, base});
      var base := this.base.Clone();
      copy := new TreeQuery(base, copies, repr);
      assert copy.Repr - {copy, copy.base} == repr;
    }

    /** The action at the query that the path leads to. */
    method At(path: seq<nat>, a: Action)
      requires Valid()
      modifies Repr
      ensures Valid() && fresh(Repr - old(Repr)) && Tree() == ActAt(old(Tree()), path, a)
      decreases a.Visited(), |path|, 2
    {
      if path == [] {
        match a {
          case Change(edit) =>
            ChangeBase(edit);
          case Request(edge, arity, options) =>
            if edge < |edges| {
              RequestEdge(edge, arity, options);
            }
          case Run(visit) =>
            RunEdges(visit);
          case LoadThenRun(load) =>
            Receive(load);
            RunEdges(load.inner);
        }
      } else if path[0] < |edges| {
        AtEdge(path[0], path[1..], a);
      }
    }

    method AtEdge(i: nat, path: seq<nat>, a: Action)
      requires Valid() && i < |edges|
      modifies Repr
      ensures Valid() && fresh(Repr - old(Repr)) && |edges| == old(|edges|)
      ensures Tree() == Node(old(base.Contents()), old(Tree()).edges[i := ActAt(old(Tree()).edges[i], path, a)])
      decreases a.Visited(), |path|, 3
    {
      if edges[i] != null {
        ghost var others, rest := edges[i := null], Repr - {this, base} - edges[i].Repr;
        ForestWithout(edges, Repr - {this, base}, i);
        edges[i].At(path, a);
        ForestWith(others, rest, i, edges[i]);
        Repr := {this, base} + rest + edges[i].Repr;
        assert edges == others[i := edges[i]] && Repr - {this, base} == rest + edges[i].Repr;
      }
    }

    /** What a run does to the query and, edge by edge, to the queries of its edges. */
    method RunEdges(v: Visit)
      requires Valid()
      modifies Repr
      ensures Valid() && fresh(Repr - old(Repr)) && Tree() == RunTree(old(Tree()), v)
      decreases v, 0, 1
    {
      ghost var tree := Tree();
      Traverse();
      for i := 0 to |edges|
        invariant Valid() && fresh(Repr - old(Repr)) && |edges| == |tree.edges|
        invariant base.Contents() == tree.content.Traversed()
        invariant forall j :: 0 <= j < |edges| ==>
                  Tree().edges[j] == if j < i then RunEdge(tree.edges[j], v, j) else tree.edges[j]
      {
        if i < |v.loads| && v.loads[i].Some? {
          AtEdge(i, [], LoadThenRun(v.loads[i].value));
        }
      }
    }

    method ChangeBase(edit: Edit)
      requires Valid()
      modifies base
      ensures Valid() && Repr == old(Repr) && edges == old(edges)
      ensures Tree() == Node(EditContent(old(base.Contents()), edit), old(Tree()).edges)
    {
      Apply(base, edit);
    }

    method Traverse()
      requires Valid()
      modifies base
      ensures Valid() && Repr == old(Repr) && edges == old(edges)
      ensures Tree() == Node(old(base.Contents()).Traversed(), old(Tree()).edges)
    {
      base.Traverse();
    }

    /** What a loader adds to the query of its edge. */
    method Receive(load: Load)
      requires Valid()
      modifies base
      ensures Valid() && Repr == old(Repr) && edges == old(edges)
      ensures Tree() == Node(old(base.Contents()).With(load.added), old(Tree()).edges)
    {
      AddLoad(base, load.added);
    }

    method RequestEdge(i: nat, arity: nat, options: seq<Edit>)
      requires Valid() && i < |edges|
      modifies this
      ensures Valid() && fresh(Repr - old(Repr))
      ensures Tree() == Node(old(base.Contents()),
                             old(Tree()).edges[i := Node(Built(options), seq(arity, _ => NoQuery))])
    {
      ghost var rest := Vacated(i);
      var edge := NewQuery(arity, options);
      ForestWith(edges[i := null], rest, i, edge);
      assert edges[i := null][i := edge] == edges[i := edge];
      edges := edges[i := edge];
      Repr := {this, base} + (rest + edge.Repr);
      assert Repr - {this, base} == rest + edge.Repr;
    }

    /** What the queries of the other edges are made of. */
    lemma Vacated(i: nat) returns (rest: set<object>)
      requires Valid() && i < |edges|
      ensures rest <= Repr - {this, base} && Forest(edges[i := null], rest)
      ensures Trees(edges[i := null], rest) == Tree().edges[i := NoQuery]
    {
      rest := Repr - {this, base};
      if edges[i] == null {
        assert edges[i := null] == edges;
      } else {
        ForestWithout(edges, rest, i);
        rest := rest - edges[i].Repr;
      }
    }
  }

  /** Valid queries, or none, that share nothing and are made of the objects in repr. */
  ghost predicate Forest(qs: seq<TreeQuery?>, repr: set<object>)
    reads repr
    decreases repr, 2
  {
    && (forall e <- qs :: e != null ==> e in repr && e.Repr <= repr && e.Valid())
    && forall i, j :: 0 <= i < j < |qs| && qs[i] != null && qs[j] != null ==> qs[i].Repr !! qs[j].Repr
  }

  ghost function Trees(qs: seq<TreeQuery?>, repr: set<object>): (r: seq<Tree>)
    requires Forest(qs, repr)
    reads repr
    ensures |r| == |qs| && forall i :: 0 <= i < |qs| ==> r[i] == TreeOf(qs[i], repr)
    decreases repr, 2
  {
    seq(|qs|, i requires Forest(qs, repr) && 0 <= i < |qs| reads repr => TreeOf(qs[i], repr))
  }

  ghost function TreeOf(q: TreeQuery?, repr: set<object>): Tree
    requires q != null ==> q in repr && q.Repr <= repr && q.Valid()
    reads repr
    decreases repr, 1
  {
    if q == null then NoQuery else q.Tree()
  }

  lemma ForestWithout(qs: seq<TreeQuery?>, repr: set<object>, i: nat)
    requires Forest(qs, repr) && i < |qs| && qs[i] != null
    ensures Forest(qs[i := null], repr - qs[i].Repr)
    ensures Trees(qs[i := null], repr - qs[i].Repr) == Trees(qs, repr)[i := NoQuery]
  {
    var others, rest := qs[i := null], repr - qs[i].Repr;
    forall j | 0 <= j < |qs| && others[j] != null
      ensures others[j] in rest && others[j].Repr <= rest && others[j].Valid()
    {
      assert qs[j] in qs && qs[j] in qs[j].Repr;
    }
  }

  lemma ForestWith(qs: seq<TreeQuery?>, repr: set<object>, i: nat, q: TreeQuery)
    requires Forest(qs, repr) && i < |qs| && qs[i] == null && q.Valid() && q.Repr !! repr
    ensures Forest(qs[i := q], repr + q.Repr)
    ensures Trees(qs[i := q], repr + q.Repr) == Trees(qs, repr)[i := q.Tree()]
  {
    forall j | 0 <= j < |qs| && j != i && qs[j] != null ensures qs[j].Repr <= repr && qs[j] in repr && qs[j].Valid() {
      assert qs[j] in qs;
    }
  }

  /** A new query with room for the given number of edges, after its options. */
  method NewQuery(arity: nat, options: seq<Edit>) returns (q: TreeQuery)
    ensures q.Valid() && fresh(q.Repr) && q.Tree() == Node(Built(options), seq(arity, _ => NoQuery))
  {
    var base := Configured(options);
    q := new TreeQuery(base, seq(arity, _ => null), {});
    assert q.Repr - {q, q.base} == {};
  }

  method Apply(q: Query<Record>, e: Edit)
    modifies q
    ensures q.Contents() == EditContent(old(q.Contents()), e)
    ensures e.WhereEdit? ==> q.predicates == old(q.predicates) + [e.p]
    ensures e.OrderEdit? ==> q.before == Then(old(q.before), e.before)
    ensures e.LimitEdit? ==> q.limit == Some(e.n)
    ensures e.OffsetEdit? ==> q.offset == e.n
    ensures e.SelectEdit? ==> q.fields == old(q.fields) + [e.f]
    ensures e.LockEdit? ==> q.modifiers == old(q.modifiers) + [e.lock]
  {
    match e
    case WhereEdit(p) => q.Where(p);
    case OrderEdit(before) => q.Order(before);
    case LimitEdit(n) => q.Limit(n);
    case OffsetEdit(n) => q.Offset(n);
    case SelectEdit(f) => q.Select(f);
    case LockEdit(lock) => q.Lock(lock);
  }

  method Configured(options: seq<Edit>) returns (q: Query<Record>)
    ensures fresh(q) && q.Contents() == Built(options)
  {
    q := new Query([]);
    for i := 0 to |options|
      invariant q.Contents() == Built(options[..i])
    {
      assert options[..i + 1][..i] == options[..i];
      Apply(q, options[i]);
    }
    assert options[..|options|] == options;
  }

  method AddLoad(q: Query<Record>, a: Added<Record>)
    modifies q
    ensures q.Contents() == old(q.Contents()).With(a)
  {
    if a.key.Some? {
      q.Require(a.key.value);
    }
    if a.condition.Some? {
      q.Where(a.condition.value);
    }
    if a.owners.Some? {
      q.Join(a.owners.value);
    }
  }

  lemma ForestSnoc(qs: seq<TreeQuery?>, repr: set<object>, q: TreeQuery)
    requires Forest(qs, repr) && q.Valid() && q.Repr !! repr
    ensures Forest(qs + [q], repr + q.Repr) && Trees(qs + [q], repr + q.Repr) == Trees(qs, repr) + [q.Tree()]
  {
    assert qs + [q] == (qs + [null])[|qs| := q];
    forall j | 0 <= j < |qs| && qs[j] != null ensures qs[j].Repr <= repr && qs[j] in repr && qs[j].Valid() {
      assert qs[j] in qs;
    }
  }

  method CloneAll(qs: seq<TreeQuery?>, ghost repr: set<object>)
      returns (copies: seq<TreeQuery?>, ghost copied: set<object>)
    requires Forest(qs, repr)
    ensures Forest(copies, copied) && fresh(copied) && |copies| == |qs|
    ensures forall i :: 0 <= i < |qs| ==> Trees(copies, copied)[i] == WithoutLocks(Trees(qs, repr)[i])
    decreases repr, 1
  {
    copies, copied := [], {};
    ghost var trees := Trees(qs, repr);
    for i := 0 to |qs|
      invariant |copies| == i && Forest(copies, copied) && fresh(copied)
      invariant forall j :: 0 <= j < i ==> Trees(copies, copied)[j] == WithoutLocks(trees[j])
    {
      if qs[i] == null {
        copies := copies + [null];
      } else {
        var copy := qs[i].Clone();
        ForestSnoc(copies, copied, copy);
        copies, copied := copies + [copy], copied + copy.Repr;
      }
    }
  }

  /** A nil query has a nil clone. */
  method CloneOf(q: TreeQuery?) returns (copy: TreeQuery?)
    requires q != null ==> q.Valid()
    ensures q == null <==> copy == null
    ensures q != null ==> copy.Valid() && fresh(copy.Repr) && copy.Tree() == WithoutLocks(q.Tree())
  {
    if q == null {
      return null;
    }
    copy := q.Clone();
  }

  // ----- using both of two queries that share nothing -----

  method DoBeside(other: TreeQuery, q: TreeQuery, c: Call)
    requires other.Valid() && q.Valid() && other.Repr !! q.Repr
    modifies q.Repr
    ensures other.Valid() && other.Tree() == old(other.Tree()) && other.Repr == old(other.Repr)
    ensures q.Valid() && fresh(q.Repr - old(q.Repr)) && q.Tree() == ActAt(old(q.Tree()), c.path, c.action)
    ensures other.Repr !! q.Repr
  {
    q.At(c.path, c.action);
  }

  /** Any calls on the two, in any order and anywhere in their trees, runs among them: each tree ends as
      its own calls leave it. */
  method UseBoth(q: TreeQuery, copy: TreeQuery, calls: seq<(bool, Call)>)
    requires q.Valid() && copy.Valid() && q.Repr !! copy.Repr
    modifies q.Repr, copy.Repr
    ensures q.Valid() && copy.Valid() && q.Repr !! copy.Repr
    ensures q.Tree() == Used(old(q.Tree()), calls, false)
    ensures copy.Tree() == Used(old(copy.Tree()), calls, true)
  {
    for i := 0 to |calls|
      invariant q.Valid() && copy.Valid() && q.Repr !! copy.Repr
      invariant fresh(q.Repr - old(q.Repr)) && fresh(copy.Repr - old(copy.Repr))
      invariant q.Tree() == Used(old(q.Tree()), calls[..i], false)
      invariant copy.Tree() == Used(old(copy.Tree()), calls[..i], true)
    {
      assert calls[..i + 1][..i] == calls[..i];
      if calls[i].0 {
        DoBeside(q, copy, calls[i].1);
      } else {
        DoBeside(copy, q, calls[i].1);
      }
    }
    assert calls[..|calls|] == calls;
  }

  /** Whatever is done to a query and to its clone, in any order, each ends up as if the other were not
      there. */
  method CloneThenUseBoth(q: TreeQuery, calls: seq<(bool, Call)>) returns (copy: TreeQuery)
    requires q.Valid()
    modifies q.Repr
    ensures q.Valid() && copy.Valid() && q.Repr !! copy.Repr
    ensures q.Tree() == Used(old(q.Tree()), calls, false)
    ensures copy.Tree() == Used(WithoutLocks(old(q.Tree())), calls, true)
  {
    copy := q.Clone();
    UseBoth(q, copy, calls);
  }
}
