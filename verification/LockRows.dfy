/** The rows of the report: resolved, shared, flagged, one an input edge. */
module LockRows {
  import opened Prelude
  import opened LockGraph
  import opened LockCycles

  // `sharedWith` is the input path that first expanded the node; the root,
  // written "<root>" in the output, was expanded by the empty path.
  datatype Row = Row(input: Path, node: Name, follows: Option<Path>, sharedWith: Option<Path>, cycle: bool)

  datatype Item = Item(path: Path, ancestors: set<Name>)

  ghost function Init(path: Path): Path
    requires path != []
  {
    path[..|path| - 1]
  }

  ghost function Last(path: Path): Name
    requires path != []
  {
    path[|path| - 1]
  }

  // b is reached from a over resolved inputs.
  ghost predicate Reach(g: Lock, a: Name, b: Name)
    requires WellFormed(g)
  {
    a in g.nodes && exists q: Path :: Leads(g, a, q, b)
  }

  // One row: the input `Last(row.input)` of `parent`, resolved.
  ghost predicate RowOk(g: Lock, row: Row, parent: Name)
    requires WellFormed(g)
  {
    && row.input != [] && parent in g.nodes && Last(row.input) in g.nodes[parent]
    && Derives(g, Init(row.input), parent) && Derives(g, row.input, row.node)
    && row.follows == match g.nodes[parent][Last(row.input)] case Direct(_) => None case Follows(alias) => Some(alias)
  }

  ghost predicate RowsOk(g: Lock, rows: seq<Row>, parents: seq<Name>)
    requires WellFormed(g)
  {
    && |rows| == |parents|
    && forall i: nat {:trigger rows[i]} :: i < |rows| ==> RowOk(g, rows[i], parents[i])
  }

  // A row flagged so far leads back to its parent: it closes a cycle.
  ghost predicate FlagsOk(g: Lock, rows: seq<Row>, parents: seq<Name>)
    requires WellFormed(g) && |rows| == |parents|
  {
    forall i: nat {:trigger rows[i]} :: i < |rows| && rows[i].cycle ==> Reach(g, rows[i].node, parents[i])
  }

  ghost predicate EdgesOk(rows: seq<Row>, parents: seq<Name>, edges: Edges)
    requires |rows| == |parents|
  {
    && (forall i: nat {:trigger rows[i]} :: i < |rows| ==> Link(edges, parents[i], rows[i].node))
    && (forall a, b :: Link(edges, a, b) ==> exists i: nat :: i < |rows| && parents[i] == a && rows[i].node == b)
  }

  // Whatever node the item's parent path derives, its ancestors reach it.
  ghost predicate ItemOk(g: Lock, item: Item)
    requires WellFormed(g)
  {
    item.path != []
    && forall p: Name, a: Name :: Derives(g, Init(item.path), p) && a in item.ancestors ==> Reach(g, a, p)
  }

  ghost predicate QueueOk(g: Lock, queue: seq<Item>)
    requires WellFormed(g)
  {
    forall j: nat {:trigger queue[j]} :: j < |queue| ==> ItemOk(g, queue[j])
  }

  // ---------- resolved inputs ----------

  lemma RowResolved(g: Lock, path: Path, node: Name, parent: Name)
    requires WellFormed(g) && path != [] && Derives(g, path, node) && Derives(g, Init(path), parent)
    ensures parent in g.nodes && node in g.nodes && Last(path) in g.nodes[parent]
    ensures Leads(g, parent, [Last(path)], node)
  {
    assert Init(path) + [Last(path)] == path;
    LeadsPrefix(g, g.root, Init(path), parent, [Last(path)], node);
  }

  lemma ReachSelf(g: Lock, a: Name)
    requires WellFormed(g) && a in g.nodes
    ensures Reach(g, a, a)
  {
    assert Walk(g, a, [], 0) == Reaches(a);
    assert Leads(g, a, [], a);
  }

  lemma ReachStep(g: Lock, a: Name, b: Name, key: Name, c: Name)
    requires WellFormed(g) && Reach(g, a, b) && b in g.nodes && Leads(g, b, [key], c)
    ensures Reach(g, a, c)
  {
    var q: Path :| Leads(g, a, q, b);
    LeadsConcat(g, a, q, b, [key], c);
  }

  lemma ReachTrans(g: Lock, a: Name, b: Name, c: Name)
    requires WellFormed(g) && Reach(g, a, b) && Reach(g, b, c)
    ensures Reach(g, a, c)
  {
    var p: Path :| Leads(g, a, p, b);
    var q: Path :| Leads(g, b, q, c);
    LeadsConcat(g, a, p, b, q, c);
  }

  lemma InitialItemOk(g: Lock, path: Path)
    requires WellFormed(g) && path != []
    ensures ItemOk(g, Item(path, {g.root}))
  { }

  // The children of a row inherit its ancestors and its node.
  lemma ChildItemOk(g: Lock, item: Item, node: Name, parent: Name, key: Name)
    requires WellFormed(g) && ItemOk(g, item)
    requires Derives(g, item.path, node) && Derives(g, Init(item.path), parent)
    ensures ItemOk(g, Item(item.path + [key], item.ancestors + {node}))
  {
    RowResolved(g, item.path, node, parent);
    assert Init(item.path + [key]) == item.path;
    forall p: Name, a: Name | Derives(g, item.path, p) && a in item.ancestors + {node}
      ensures Reach(g, a, p)
    {
      VerdictsExclusive(g, g.root, item.path, node, p);
      if a in item.ancestors { ReachStep(g, a, parent, Last(item.path), node); } else { ReachSelf(g, node); }
    }
  }

  // ---------- the cycle flags ----------

  // Listed edges are resolved inputs, so a chain of them is a walk.
  lemma {:induction false} ChainReaches(g: Lock, rows: seq<Row>, parents: seq<Name>, edges: Edges, p: seq<Name>)
    requires WellFormed(g) && RowsOk(g, rows, parents) && EdgesOk(rows, parents, edges)
    requires Chain(edges, p) && p[0] in g.nodes
    ensures Reach(g, p[0], p[|p| - 1])
  {
    if |p| == 1 {
      ReachSelf(g, p[0]);
    } else {
      assert Link(edges, p[0], p[1]);
      var i: nat :| i < |rows| && parents[i] == p[0] && rows[i].node == p[1];
      RowResolved(g, rows[i].input, rows[i].node, parents[i]);
      ReachSelf(g, p[0]);
      ReachStep(g, p[0], p[0], Last(rows[i].input), p[1]);
      var q := p[1..];
      forall i | 0 <= i < |q| - 1 ensures Link(edges, q[i], q[i + 1]) { assert q[i] == p[i + 1]; }
      ChainReaches(g, rows, parents, edges, q);
      ReachTrans(g, p[0], p[1], p[|p| - 1]);
    }
  }

  lemma FlagReaches(g: Lock, rows: seq<Row>, parents: seq<Name>, edges: Edges, i: nat)
    requires WellFormed(g) && RowsOk(g, rows, parents) && EdgesOk(rows, parents, edges) && i < |rows|
    requires exists p :: Connects(edges, p, rows[i].node, parents[i])
    ensures Reach(g, rows[i].node, parents[i])
  {
    var p :| Connects(edges, p, rows[i].node, parents[i]);
    assert RowOk(g, rows[i], parents[i]);
    RowResolved(g, rows[i].input, rows[i].node, parents[i]);
    ChainReaches(g, rows, parents, edges, p);
  }

  // The edges of the rows that are not flagged.
  ghost predicate Unflagged(rows: seq<Row>, parents: seq<Name>, a: Name, b: Name)
    requires |rows| == |parents|
  {
    exists i: nat :: i < |rows| && !rows[i].cycle && parents[i] == a && rows[i].node == b
  }

  ghost predicate UnflaggedChain(rows: seq<Row>, parents: seq<Name>, p: seq<Name>)
    requires |rows| == |parents|
  {
    |p| > 1 && forall i {:trigger p[i]} :: 0 <= i < |p| - 1 ==> Unflagged(rows, parents, p[i], p[i + 1])
  }

  ghost predicate NoCycleLeft(rows: seq<Row>, parents: seq<Name>)
    requires |rows| == |parents|
  {
    forall p: seq<Name> :: UnflaggedChain(rows, parents, p) ==> p[0] != p[|p| - 1]
  }

  lemma AcyclicRows(rows: seq<Row>, parents: seq<Name>, edges: Edges, flagged: set<Edge>)
    requires |rows| == |parents| && EdgesOk(rows, parents, edges) && Acyclic(edges, flagged)
    requires forall i: nat {:trigger rows[i]} :: i < |rows| && (parents[i], rows[i].node) in flagged ==> rows[i].cycle
    ensures NoCycleLeft(rows, parents)
  { }

  lemma Marked(g: Lock, rows: seq<Row>, parents: seq<Name>, edges: Edges, flagged: set<Edge>, marked: seq<Row>)
    requires WellFormed(g) && RowsOk(g, rows, parents) && FlagsOk(g, rows, parents) && EdgesOk(rows, parents, edges)
    requires Acyclic(edges, flagged) && |marked| == |rows|
    requires forall e :: e in flagged ==> Link(edges, e.0, e.1) && exists p :: Connects(edges, p, e.1, e.0)
    requires forall k: nat {:trigger marked[k]} :: k < |rows| ==>
               marked[k] == rows[k].(cycle := rows[k].cycle || (parents[k], rows[k].node) in flagged)
    ensures RowsOk(g, marked, parents) && FlagsOk(g, marked, parents) && NoCycleLeft(marked, parents)
  {
    hide Acyclic, NoCycleLeft, Reach;
    forall k: nat | k < |marked|
      ensures RowOk(g, marked[k], parents[k]) && Link(edges, parents[k], marked[k].node)
    {
      assert RowOk(g, rows[k], parents[k]);
    }
    forall k: nat | k < |marked| && marked[k].cycle ensures Reach(g, marked[k].node, parents[k]) {
      if rows[k].cycle { } else { FlagReaches(g, rows, parents, edges, k); }
    }
    forall a, b | Link(edges, a, b) ensures exists i: nat :: i < |marked| && parents[i] == a && marked[i].node == b {
      var i: nat :| i < |rows| && parents[i] == a && rows[i].node == b;
      assert marked[i].node == b;
    }
    assert EdgesOk(marked, parents, edges);
    AcyclicRows(marked, parents, edges, flagged);
  }

  // ---------- one row per input edge ----------

  // `listed` is the input path of every row so far and then of every queued
  // item; `expanded` is the path that expanded each node first.
  ghost predicate ExpandedOk(g: Lock, expanded: map<Name, Path>)
    requires WellFormed(g)
  {
    && g.root in expanded && expanded[g.root] == []
    && forall n {:trigger expanded[n]} :: n in expanded ==> n in g.nodes && Derives(g, expanded[n], n)
  }

  // The nodes whose inputs a report lists: without a path to begin with all that
  // are expanded; the inputs of the root only then.
  ghost predicate Opens(g: Lock, given: Option<Path>, n: Name) { given.None? || n != g.root }

  ghost predicate FromExpanded(g: Lock, given: Option<Path>, expanded: map<Name, Path>, path: Path)
    requires WellFormed(g) && ExpandedOk(g, expanded)
  {
    && path != []
    && exists n :: n in expanded && Opens(g, given, n) && expanded[n] == Init(path) && Last(path) in g.nodes[n]
  }

  ghost predicate ListedOk(g: Lock, given: Option<Path>, expanded: map<Name, Path>, listed: seq<Path>)
    requires WellFormed(g) && ExpandedOk(g, expanded)
  {
    && (forall i: nat, j: nat {:trigger listed[i], listed[j]} :: i < j < |listed| ==> listed[i] != listed[j])
    && (forall i: nat {:trigger listed[i]} :: i < |listed| ==>
          given == Some(listed[i]) || FromExpanded(g, given, expanded, listed[i]))
    && (forall n, key :: n in expanded && Opens(g, given, n) && key in g.nodes[n] ==> expanded[n] + [key] in listed)
    && (given.Some? ==> given.value != [] && Below(given.value, listed))
  }

  // The path itself is listed, and else only paths that begin with it.
  ghost predicate Below(path: Path, listed: seq<Path>) {
    path in listed && forall i: nat {:trigger listed[i]} :: i < |listed| ==> path <= listed[i]
  }

  ghost predicate Lists(listed: seq<Path>, rows: seq<Row>, queue: seq<Item>) {
    && |listed| == |rows| + |queue|
    && (forall i: nat {:trigger rows[i]} :: i < |rows| ==> rows[i].input == listed[i])
    && (forall j: nat {:trigger queue[j]} :: j < |queue| ==> queue[j].path == listed[|rows| + j])
  }

  // Some row has this input and this node.
  ghost predicate HasRow(rows: seq<Row>, input: Path, node: Name) {
    exists i: nat :: i < |rows| && rows[i].input == input && rows[i].node == node
  }

  lemma HasRowAt(rows: seq<Row>, i: nat)
    requires i < |rows|
    ensures HasRow(rows, rows[i].input, rows[i].node)
  { }

  lemma HasRowGrows(rows: seq<Row>, row: Row, input: Path, node: Name)
    requires HasRow(rows, input, node)
    ensures HasRow(rows + [row], input, node)
  {
    var i: nat :| i < |rows| && rows[i].input == input && rows[i].node == node;
    HasRowAt(rows + [row], i);
  }

  // Each row says who expanded its node first, unless it did that itself.
  ghost predicate SharingOk(rows: seq<Row>, expanded: map<Name, Path>) {
    && (forall i: nat {:trigger rows[i]} :: i < |rows| ==>
          && rows[i].node in expanded
          && rows[i].sharedWith == if expanded[rows[i].node] == rows[i].input then None
            else Some(expanded[rows[i].node]))
    && (forall n {:trigger expanded[n]} :: n in expanded ==> expanded[n] == [] || HasRow(rows, expanded[n], n))
    && (forall i: nat, j: nat {:trigger rows[i], rows[j]} :: i < j < |rows| && rows[i].node == rows[j].node ==>
      rows[j].sharedWith.Some?)
  }

  ghost predicate AllOk(g: Lock, given: Option<Path>, expanded: map<Name, Path>, listed: seq<Path>, rows: seq<Row>,
        queue: seq<Item>)
    requires WellFormed(g)
  {
    && ExpandedOk(g, expanded) && ListedOk(g, given, expanded, listed)
    && Lists(listed, rows, queue) && SharingOk(rows, expanded)
  }

  // Two nodes cannot have been expanded by one path.
  lemma ExpandedInjective(g: Lock, expanded: map<Name, Path>, m: Name, n: Name)
    requires WellFormed(g) && ExpandedOk(g, expanded) && m in expanded && n in expanded && expanded[m] == expanded[n]
    ensures m == n
  {
    VerdictsExclusive(g, g.root, expanded[m], m, n);
  }

  lemma ExpandedGrows(g: Lock, expanded: map<Name, Path>, path: Path, node: Name)
    requires WellFormed(g) && ExpandedOk(g, expanded)
    requires node in g.nodes && node !in expanded && Derives(g, path, node)
    ensures ExpandedOk(g, expanded[node := path])
  {
    hide Derives;
  }

  lemma FromGrows(g: Lock, given: Option<Path>, expanded: map<Name, Path>, path: Path, node: Name, listed: Path)
    requires WellFormed(g) && ExpandedOk(g, expanded) && ExpandedOk(g, expanded[node := path])
    requires node !in expanded && FromExpanded(g, given, expanded, listed)
    ensures FromExpanded(g, given, expanded[node := path], listed)
    ensures Init(listed) != path
  {
    hide Derives;
    var n :| n in expanded && Opens(g, given, n) && expanded[n] == Init(listed) && Last(listed) in g.nodes[n];
    assert expanded[node := path][n] == Init(listed);
    if expanded[n] == path { ExpandedInjective(g, expanded[node := path], n, node); }
  }

  lemma ChildFrom(g: Lock, given: Option<Path>, expanded: map<Name, Path>, path: Path, node: Name, child: Path)
    requires WellFormed(g) && ExpandedOk(g, expanded) && node in expanded && expanded[node] == path && node in g.nodes
    requires Opens(g, given, node) && child != [] && Init(child) == path && Last(child) in g.nodes[node]
    ensures FromExpanded(g, given, expanded, child)
  {
    hide Derives;
    assert expanded[node] == Init(child);
  }

  // Expanding `node` by `path` lists its inputs, none of which was listed.
  lemma NodeExpanded(g: Lock, given: Option<Path>, expanded: map<Name, Path>, listed: seq<Path>, path: Path, node: Name,
        children: seq<Path>)
    requires WellFormed(g) && ExpandedOk(g, expanded) && ListedOk(g, given, expanded, listed) && path in listed
    requires node in g.nodes && node !in expanded && Derives(g, path, node)
    requires Fans(children, path, g.nodes[node].Keys)
    ensures ExpandedOk(g, expanded[node := path])
    ensures ListedOk(g, given, expanded[node := path], listed + children)
  {
    hide Derives, ExpandedOk, FromExpanded;
    var expanded' := expanded[node := path];
    var listed' := listed + children;
    ExpandedGrows(g, expanded, path, node);
    RootExpanded(g, expanded);
    forall i: nat | i < |listed'|
      ensures given == Some(listed'[i]) || FromExpanded(g, given, expanded', listed'[i])
      ensures i < |listed| ==> listed'[i] !in children
    {
      if i < |listed| {
        OldPath(g, given, expanded, listed, path, node, children, i);
      } else {
        ChildFrom(g, given, expanded', path, node, children[i - |listed|]);
      }
    }
    forall i: nat, j: nat | i < j < |listed'| ensures listed'[i] != listed'[j] {
      if i < |listed| <= j {
        assert listed'[j] == children[j - |listed|] && listed'[i] !in children;
      } else if |listed| <= i {
        assert listed'[i] == children[i - |listed|] && listed'[j] == children[j - |listed|];
      } else {
        assert listed[i] != listed[j];
      }
    }
    forall n, key | n in expanded' && Opens(g, given, n) && key in g.nodes[n] ensures expanded'[n] + [key] in listed' {
      if n == node { assert path + [key] in children; } else { assert expanded[n] + [key] in listed; }
    }
    if given.Some? { ChildrenBelow(given.value, listed, path, children); }
  }

  lemma RootExpanded(g: Lock, expanded: map<Name, Path>)
    requires WellFormed(g) && ExpandedOk(g, expanded)
    ensures g.root in expanded && forall n :: n in expanded ==> n in g.nodes
  { }

  lemma OldPath(g: Lock, given: Option<Path>, expanded: map<Name, Path>, listed: seq<Path>, path: Path, node: Name,
        children: seq<Path>, i: nat)
    requires WellFormed(g) && ExpandedOk(g, expanded) && ListedOk(g, given, expanded, listed) && path in listed
    requires ExpandedOk(g, expanded[node := path]) && node !in expanded && i < |listed|
    requires forall k: nat {:trigger children[k]} :: k < |children| ==> children[k] != [] && Init(children[k]) == path
    ensures given == Some(listed[i]) || FromExpanded(g, given, expanded[node := path], listed[i])
    ensures listed[i] !in children
  {
    hide Derives, ExpandedOk, FromExpanded;
    if given == Some(listed[i]) {
      assert listed[i] <= path;
    } else {
      FromGrows(g, given, expanded, path, node, listed[i]);
    }
  }

  lemma ChildrenBelow(given: Path, listed: seq<Path>, path: Path, children: seq<Path>)
    requires Below(given, listed) && path in listed
    requires forall k: nat {:trigger children[k]} :: k < |children| ==> children[k] != [] && Init(children[k]) == path
    ensures Below(given, listed + children)
  {
    forall i: nat | i < |listed + children| ensures given <= (listed + children)[i] {
      if i >= |listed| {
        var child := children[i - |listed|];
        assert given <= path && Init(child) == path;
      }
    }
  }

  // `children` is path + [key] for every key of `keys`, each once.
  ghost predicate Fans(children: seq<Path>, path: Path, keys: set<Name>) {
    && (forall i: nat {:trigger children[i]} :: i < |children| ==>
          children[i] != [] && Init(children[i]) == path && Last(children[i]) in keys)
    && (forall i: nat, j: nat {:trigger children[i], children[j]} :: i < j < |children| ==> children[i] != children[j])
    && (forall key :: key in keys ==> path + [key] in children)
  }

  lemma FanGrows(children: seq<Path>, path: Path, keys: set<Name>, key: Name)
    requires Fans(children, path, keys) && key !in keys
    ensures Fans(children + [path + [key]], path, keys + {key})
  {
    var more := children + [path + [key]];
    assert Init(path + [key]) == path && Last(path + [key]) == key;
    forall i: nat | i < |more|
      ensures more[i] != [] && Init(more[i]) == path && Last(more[i]) in keys + {key}
    { }
    forall i: nat | i < |children| ensures children[i] != path + [key] {
      assert Last(path + [key]) == key && Last(children[i]) != key;
    }
    forall k | k in keys + {key} ensures path + [k] in more {
      if k == key { assert more[|children|] == path + [k]; } else { assert path + [k] in children; }
    }
  }

  // ---------- what is expanded in the end ----------

  // A walk over resolved inputs that keeps away from the root.
  ghost predicate Clear(g: Lock, m: Name, q: Path, n: Name)
    requires WellFormed(g)
    decreases |q|
  {
    && n in g.nodes && n != g.root
    && if q == [] then n == m
       else exists x: Name :: Clear(g, m, Init(q), x) && x in g.nodes && Leads(g, x, [Last(q)], n)
  }

  // The nodes a report of everything comes to: all that the root reaches, or from a
  // given path on those that can be reached past the root.
  ghost predicate Meets(g: Lock, given: Option<Path>, n: Name)
    requires WellFormed(g)
  {
    match given
    case None => Reach(g, g.root, n)
    case Some(path) => exists m: Name, q: Path :: Derives(g, path, m) && Clear(g, m, q, n)
  }

  // An input of an expanded node is listed, so its node is expanded in the end.
  lemma ChildExpanded(g: Lock, given: Option<Path>, expanded: map<Name, Path>, listed: seq<Path>, rows: seq<Row>,
        parents: seq<Name>, m: Name, key: Name, n: Name)
    requires WellFormed(g) && AllOk(g, given, expanded, listed, rows, []) && RowsOk(g, rows, parents)
    requires m in expanded && Opens(g, given, m) && m in g.nodes && key in g.nodes[m] && Leads(g, m, [key], n)
    ensures n in expanded
  {
    hide Leads, FromExpanded;
    ExpandedLeads(g, expanded, m);
    var path := expanded[m] + [key];
    assert path in listed;
    LeadsConcat(g, g.root, expanded[m], m, [key], n);
    PathExpanded(g, given, expanded, listed, rows, parents, path, n);
  }

  lemma PathExpanded(g: Lock, given: Option<Path>, expanded: map<Name, Path>, listed: seq<Path>, rows: seq<Row>,
        parents: seq<Name>, path: Path, n: Name)
    requires WellFormed(g) && AllOk(g, given, expanded, listed, rows, []) && RowsOk(g, rows, parents)
    requires path in listed && Derives(g, path, n)
    ensures n in expanded
  {
    hide Leads, FromExpanded, ExpandedOk, ListedOk;
    var i: nat :| i < |listed| && listed[i] == path;
    assert rows[i].input == path && RowOk(g, rows[i], parents[i]);
    VerdictsExclusive(g, g.root, path, n, rows[i].node);
  }

  // When the queue is empty, everything that the root reaches was expanded.
  lemma {:induction false} EverythingExpanded(g: Lock, expanded: map<Name, Path>, listed: seq<Path>, rows: seq<Row>,
        parents: seq<Name>, q: Path, n: Name)
    requires WellFormed(g) && AllOk(g, None, expanded, listed, rows, []) && RowsOk(g, rows, parents)
    requires Derives(g, q, n)
    ensures n in expanded
    decreases |q|
  {
    hide AllOk, RowsOk;
    if q == [] {
      assert Walk(g, g.root, [], 0) == Reaches(g.root) && Derives(g, [], g.root);
      VerdictsExclusive(g, g.root, [], g.root, n);
      assert n in expanded by { AllExpandsRoot(g, None, expanded, listed, rows, []); }
    } else {
      assert Init(q) + [Last(q)] == q;
      var d: nat :| Walk(g, g.root, q, d) == Reaches(n);
      WalkConcat(g, g.root, Init(q), [Last(q)], d);
      var m := Walk(g, g.root, Init(q), d).node;
      assert Derives(g, Init(q), m);
      RowResolved(g, q, n, m);
      EverythingExpanded(g, expanded, listed, rows, parents, Init(q), m);
      ChildExpanded(g, None, expanded, listed, rows, parents, m, Last(q), n);
    }
  }

  // And from a given path on, everything that is reached past the root.
  lemma {:induction false} ClearExpanded(g: Lock, given: Path, expanded: map<Name, Path>, listed: seq<Path>,
        rows: seq<Row>, parents: seq<Name>, m: Name, q: Path, n: Name)
    requires WellFormed(g) && AllOk(g, Some(given), expanded, listed, rows, []) && RowsOk(g, rows, parents)
    requires Derives(g, given, m) && Clear(g, m, q, n)
    ensures n in expanded
    decreases |q|
  {
    hide AllOk, RowsOk, Leads;
    if q == [] {
      assert given in listed by { AllListsGiven(g, given, expanded, listed, rows, []); }
      PathExpanded(g, Some(given), expanded, listed, rows, parents, given, n);
    } else {
      var x: Name :| Clear(g, m, Init(q), x) && x in g.nodes && Leads(g, x, [Last(q)], n);
      ClearExpanded(g, given, expanded, listed, rows, parents, m, Init(q), x);
      LeadsInput(g, x, Last(q), n);
      ChildExpanded(g, Some(given), expanded, listed, rows, parents, x, Last(q), n);
    }
  }

  lemma AllExpandsRoot(g: Lock, given: Option<Path>, expanded: map<Name, Path>, listed: seq<Path>, rows: seq<Row>,
        queue: seq<Item>)
    requires WellFormed(g) && AllOk(g, given, expanded, listed, rows, queue)
    ensures g.root in expanded && expanded[g.root] == [] && ExpandedOk(g, expanded) && Lists(listed, rows, queue)
  { }

  lemma AllListsGiven(g: Lock, given: Path, expanded: map<Name, Path>, listed: seq<Path>, rows: seq<Row>,
        queue: seq<Item>)
    requires WellFormed(g) && AllOk(g, Some(given), expanded, listed, rows, queue)
    ensures given in listed
  { }

  lemma LeadsInput(g: Lock, x: Name, key: Name, n: Name)
    requires WellFormed(g) && x in g.nodes && Leads(g, x, [key], n)
    ensures key in g.nodes[x] && n in g.nodes
  { }

  // The path that expanded a node is the given one or was listed for a node above.
  lemma ExpandedBy(g: Lock, given: Option<Path>, expanded: map<Name, Path>, listed: seq<Path>, rows: seq<Row>,
        queue: seq<Item>, n: Name)
    returns (above: Option<Name>)
    requires WellFormed(g) && AllOk(g, given, expanded, listed, rows, queue) && n in expanded && n != g.root
    ensures expanded[n] != [] && expanded[n] in listed && n in g.nodes && Leads(g, g.root, expanded[n], n)
    ensures above.None? ==> given == Some(expanded[n])
    ensures above.Some? ==>
              var m := above.value;
              && m in expanded && Opens(g, given, m) && m in g.nodes && expanded[m] == Init(expanded[n])
              && Last(expanded[n]) in g.nodes[m] && Leads(g, m, [Last(expanded[n])], n)
  {
    hide Leads;
    RootAlone(g, expanded, n);
    assert HasRow(rows, expanded[n], n);
    var i: nat :| i < |rows| && rows[i].input == expanded[n] && rows[i].node == n;
    assert rows[i].input == listed[i];
    if given == Some(listed[i]) {
      above := None;
    } else {
      assert FromExpanded(g, given, expanded, listed[i]);
      var m :| m in expanded && Opens(g, given, m) && expanded[m] == Init(listed[i]) && Last(listed[i]) in g.nodes[m];
      above := Some(m);
      RowResolved(g, listed[i], n, m);
    }
  }

  lemma RootAlone(g: Lock, expanded: map<Name, Path>, n: Name)
    requires WellFormed(g) && ExpandedOk(g, expanded) && n in expanded
    ensures n in g.nodes && Derives(g, expanded[n], n)
    ensures expanded[n] == [] ==> n == g.root
  {
    if expanded[n] == [] { ExpandedInjective(g, expanded, n, g.root); }
  }

  // However far a report came: what was expanded is met.
  lemma {:induction false} ExpandedMeets(g: Lock, given: Option<Path>, expanded: map<Name, Path>, listed: seq<Path>,
        rows: seq<Row>, queue: seq<Item>, n: Name)
    requires WellFormed(g) && AllOk(g, given, expanded, listed, rows, queue) && n in expanded && Opens(g, given, n)
    ensures Meets(g, given, n)
    decreases |expanded[n]|
  {
    hide AllOk, Leads;
    AllExpandsRoot(g, given, expanded, listed, rows, queue);
    RootAlone(g, expanded, n);
    if given.None? {
      assert Leads(g, g.root, expanded[n], n);
    } else {
      var above := ExpandedBy(g, given, expanded, listed, rows, queue, n);
      match above
      case None => assert Clear(g, n, [], n);
      case Some(m) =>
        ExpandedMeets(g, given, expanded, listed, rows, queue, m);
        var from: Name, q: Path :| Derives(g, given.value, from) && Clear(g, from, q, m);
        ClearNext(g, from, q, m, Last(expanded[n]), n);
    }
  }

  lemma ClearNext(g: Lock, from: Name, q: Path, m: Name, key: Name, n: Name)
    requires WellFormed(g) && Clear(g, from, q, m) && Leads(g, m, [key], n) && n in g.nodes && n != g.root
    ensures Clear(g, from, q + [key], n)
  {
    hide Leads;
    assert Init(q + [key]) == q && Last(q + [key]) == key;
  }

  // Some row lists this input path under this parent.
  ghost predicate InputListed(rows: seq<Row>, parents: seq<Name>, parent: Name, input: Path)
    requires |rows| == |parents|
  {
    exists i: nat :: i < |rows| && parents[i] == parent && rows[i].input == input
  }

  // The row is an input of a node that was expanded, by the path that did it.
  ghost predicate RowFrom(g: Lock, given: Option<Path>, row: Row, parent: Name, first: map<Name, Path>) {
    && parent in first && Opens(g, given, parent)
    && row.input != [] && row.input == first[parent] + [Last(row.input)]
  }

  /**
   The rows are the given path, if there is one, and the inputs of the nodes that
   are met, each once; `first` is the path that expanded each of those nodes first,
   and the rows share by it.
   */
  ghost predicate Complete(g: Lock, given: Option<Path>, rows: seq<Row>, parents: seq<Name>, first: map<Name, Path>)
    requires WellFormed(g) && |rows| == |parents|
  {
    && (forall n: Name :: n in first && Opens(g, given, n) <==> Meets(g, given, n))
    && (forall i: nat {:trigger rows[i]} :: i < |rows| ==>
          given == Some(rows[i].input) || RowFrom(g, given, rows[i], parents[i], first))
    && (given.Some? ==> exists i: nat :: i < |rows| && rows[i].input == given.value)
    && (forall n, key :: n in first && Opens(g, given, n) && n in g.nodes && key in g.nodes[n] ==>
          InputListed(rows, parents, n, first[n] + [key]))
    && (forall i: nat, j: nat {:trigger rows[i], rows[j]} :: i < j < |rows| ==> rows[i].input != rows[j].input)
    && SharingOk(rows, first)
  }

  lemma ExpandedExactly(g: Lock, given: Option<Path>, expanded: map<Name, Path>, listed: seq<Path>, rows: seq<Row>,
        parents: seq<Name>, n: Name)
    requires WellFormed(g) && AllOk(g, given, expanded, listed, rows, []) && RowsOk(g, rows, parents)
    ensures n in expanded && Opens(g, given, n) <==> Meets(g, given, n)
  {
    hide AllOk, RowsOk, Leads;
    if n in expanded && Opens(g, given, n) { ExpandedMeets(g, given, expanded, listed, rows, [], n); }
    if Meets(g, given, n) {
      if given.None? {
        var q: Path :| Leads(g, g.root, q, n);
        EverythingExpanded(g, expanded, listed, rows, parents, q, n);
      } else {
        var m: Name, q: Path :| Derives(g, given.value, m) && Clear(g, m, q, n);
        ClearExpanded(g, given.value, expanded, listed, rows, parents, m, q, n);
      }
    }
  }

  lemma RowFromFirst(g: Lock, given: Option<Path>, expanded: map<Name, Path>, listed: seq<Path>, rows: seq<Row>,
        parents: seq<Name>, i: nat)
    requires WellFormed(g) && AllOk(g, given, expanded, listed, rows, []) && RowsOk(g, rows, parents) && i < |rows|
    ensures given == Some(rows[i].input) || RowFrom(g, given, rows[i], parents[i], expanded)
  {
    hide Derives, SharingOk;
    assert rows[i].input == listed[i] && RowOk(g, rows[i], parents[i]);
    if given != Some(listed[i]) {
      assert FromExpanded(g, given, expanded, listed[i]);
      var n :| n in expanded && Opens(g, given, n) && expanded[n] == Init(listed[i]) && Last(listed[i]) in g.nodes[n];
      assert Init(listed[i]) + [Last(listed[i])] == listed[i];
      SameParent(g, Init(listed[i]), n, parents[i]);
    }
  }

  lemma InputHasRow(g: Lock, given: Option<Path>, expanded: map<Name, Path>, listed: seq<Path>, rows: seq<Row>,
        parents: seq<Name>, n: Name, key: Name)
    returns (i: nat)
    requires WellFormed(g) && AllOk(g, given, expanded, listed, rows, []) && RowsOk(g, rows, parents)
    requires n in expanded && Opens(g, given, n) && n in g.nodes && key in g.nodes[n]
    ensures i < |rows| && parents[i] == n && rows[i].input == expanded[n] + [key]
  {
    hide Derives, SharingOk;
    assert expanded[n] + [key] in listed;
    i :| i < |listed| && listed[i] == expanded[n] + [key];
    assert rows[i].input == listed[i] && RowOk(g, rows[i], parents[i]);
    assert Init(rows[i].input) == expanded[n];
    SameParent(g, expanded[n], n, parents[i]);
  }

  lemma AllComplete(g: Lock, given: Option<Path>, expanded: map<Name, Path>, listed: seq<Path>, rows: seq<Row>,
        parents: seq<Name>)
    requires WellFormed(g) && AllOk(g, given, expanded, listed, rows, []) && RowsOk(g, rows, parents)
    ensures Complete(g, given, rows, parents, expanded)
  {
    hide ExpandedOk, SharingOk, RowOk, Meets, FromExpanded, RowFrom, Opens;
    forall n: Name ensures n in expanded && Opens(g, given, n) <==> Meets(g, given, n) {
      ExpandedExactly(g, given, expanded, listed, rows, parents, n);
    }
    forall i: nat | i < |rows|
      ensures given == Some(rows[i].input) || RowFrom(g, given, rows[i], parents[i], expanded)
    {
      RowFromFirst(g, given, expanded, listed, rows, parents, i);
    }
    forall n, key | n in expanded && Opens(g, given, n) && n in g.nodes && key in g.nodes[n]
      ensures InputListed(rows, parents, n, expanded[n] + [key])
    {
      var i := InputHasRow(g, given, expanded, listed, rows, parents, n, key);
    }
    forall i: nat, j: nat | i < j < |rows| ensures rows[i].input != rows[j].input {
      assert listed[i] != listed[j] && rows[i].input == listed[i] && rows[j].input == listed[j];
    }
    if given.Some? {
      var i: nat :| i < |listed| && listed[i] == given.value;
      assert rows[i].input == given.value;
    }
  }

  lemma ExpandedLeads(g: Lock, expanded: map<Name, Path>, n: Name)
    requires WellFormed(g) && ExpandedOk(g, expanded) && n in expanded
    ensures Leads(g, g.root, expanded[n], n)
  { }

  lemma SameParent(g: Lock, path: Path, m: Name, n: Name)
    requires WellFormed(g) && Derives(g, path, m) && Derives(g, path, n)
    ensures m == n
  {
    VerdictsExclusive(g, g.root, path, m, n);
  }

  // ---------- the search ----------

  ghost predicate FoundOk(g: Lock, rows: seq<Row>, parents: seq<Name>, edges: Edges, queue: seq<Item>)
    requires WellFormed(g)
  {
    RowsOk(g, rows, parents) && FlagsOk(g, rows, parents) && EdgesOk(rows, parents, edges) && QueueOk(g, queue)
  }

  // The first item of the queue becomes a row.
  lemma RowAdded(g: Lock, rows: seq<Row>, parents: seq<Name>, edges: Edges, queue: seq<Item>, row: Row, parent: Name)
    requires WellFormed(g) && FoundOk(g, rows, parents, edges, queue) && queue != []
    requires RowOk(g, row, parent) && row.input == queue[0].path
    requires row.cycle ==> row.node in queue[0].ancestors
    ensures FoundOk(g, rows + [row], parents + [parent], edges[parent := Children(edges, parent) + {row.node}],
              queue[1..])
  {
    hide RowOk, Reach, Derives;
    var rows', parents' := rows + [row], parents + [parent];
    var edges' := edges[parent := Children(edges, parent) + {row.node}];
    forall i: nat | i < |rows'|
      ensures RowOk(g, rows'[i], parents'[i]) && (rows'[i].cycle ==> Reach(g, rows'[i].node, parents'[i]))
    {
      if i < |rows| {
        assert RowOk(g, rows[i], parents[i]);
      } else {
        assert ItemOk(g, queue[0]);
        RowNode(g, row, parent);
      }
    }
    forall i: nat | i < |rows'| ensures Link(edges', parents'[i], rows'[i].node) {
      if i < |rows| { assert Link(edges, parents[i], rows[i].node); }
    }
    forall a, b | Link(edges', a, b) ensures exists i: nat :: i < |rows'| && parents'[i] == a && rows'[i].node == b {
      if Link(edges, a, b) {
        var i: nat :| i < |rows| && parents[i] == a && rows[i].node == b;
        assert parents'[i] == a && rows'[i].node == b;
      } else {
        assert parents'[|rows|] == a && rows'[|rows|].node == b;
      }
    }
    forall j: nat | j < |queue[1..]| ensures ItemOk(g, queue[1..][j]) { assert ItemOk(g, queue[j + 1]); }
  }

  lemma RowNode(g: Lock, row: Row, parent: Name)
    requires WellFormed(g) && RowOk(g, row, parent)
    ensures row.input != [] && Derives(g, row.input, row.node) && Derives(g, Init(row.input), parent)
    ensures row.node in g.nodes
  { }

  // A row whose node was expanded before.
  lemma SharedRow(g: Lock, given: Option<Path>, expanded: map<Name, Path>, listed: seq<Path>, rows: seq<Row>,
        queue: seq<Item>, row: Row)
    requires WellFormed(g) && AllOk(g, given, expanded, listed, rows, queue) && queue != []
    requires row.input == queue[0].path && row.node in expanded && row.sharedWith == Some(expanded[row.node])
    requires row.input != []
    ensures AllOk(g, given, expanded, listed, rows + [row], queue[1..])
  {
    hide ExpandedOk, ListedOk, FromExpanded, HasRow;
    var rows' := rows + [row];
    ListsNext(listed, rows, queue, row);
    assert expanded[row.node] != row.input by { ListedAgain(g, given, expanded, listed, rows, queue, row.node); }
    forall n | n in expanded ensures expanded[n] == [] || HasRow(rows', expanded[n], n) {
      if expanded[n] != [] { HasRowGrows(rows, row, expanded[n], n); }
    }
    forall i: nat | i < |rows'|
      ensures rows'[i].node in expanded
      ensures rows'[i].sharedWith == if expanded[rows'[i].node] == rows'[i].input then None
                else Some(expanded[rows'[i].node])
    { }
  }

  // The next path has expanded nothing yet.
  lemma ListedAgain(g: Lock, given: Option<Path>, expanded: map<Name, Path>, listed: seq<Path>, rows: seq<Row>,
        queue: seq<Item>, n: Name)
    requires WellFormed(g) && AllOk(g, given, expanded, listed, rows, queue) && queue != [] && n in expanded
    requires queue[0].path != []
    ensures expanded[n] != queue[0].path
  {
    hide ExpandedOk, FromExpanded;
    assert queue[0].path == listed[|rows| + 0];
  }

  lemma ListsNext(listed: seq<Path>, rows: seq<Row>, queue: seq<Item>, row: Row)
    requires Lists(listed, rows, queue) && queue != [] && row.input == queue[0].path
    ensures Lists(listed, rows + [row], queue[1..]) && |rows| < |listed| && listed[|rows|] == row.input
  {
    assert queue[0].path == listed[|rows| + 0];
  }

  // A row whose node is expanded now, by its own path.
  lemma FirstRow(g: Lock, given: Option<Path>, expanded: map<Name, Path>, listed: seq<Path>, rows: seq<Row>,
        queue: seq<Item>, row: Row, children: seq<Path>, items: seq<Item>)
    requires WellFormed(g) && AllOk(g, given, expanded, listed, rows, queue) && queue != []
    requires row.input == queue[0].path && row.input != [] && row.node !in expanded && row.sharedWith == None
    requires row.node in g.nodes && Derives(g, row.input, row.node) && Fans(children, row.input, g.nodes[row.node].Keys)
    requires |items| == |children| && forall i: nat {:trigger items[i]} :: i < |items| ==> items[i].path == children[i]
    ensures AllOk(g, given, expanded[row.node := row.input], listed + children, rows + [row], queue[1..] + items)
  {
    hide ExpandedOk, Fans, Derives, ListedOk, SharingOk;
    ListsNext(listed, rows, queue, row);
    NodeExpanded(g, given, expanded, listed, row.input, row.node, children);
    assert Lists(listed + children, rows + [row], queue[1..] + items);
    SharingGrows(rows, expanded, row);
  }

  lemma SharingGrows(rows: seq<Row>, expanded: map<Name, Path>, row: Row)
    requires SharingOk(rows, expanded) && row.node !in expanded && row.sharedWith == None
    ensures SharingOk(rows + [row], expanded[row.node := row.input])
  {
    hide HasRow;
    var rows' := rows + [row];
    var expanded' := expanded[row.node := row.input];
    forall n | n in expanded' ensures expanded'[n] == [] || HasRow(rows', expanded'[n], n) {
      if n == row.node {
        HasRowAt(rows', |rows|);
      } else if expanded[n] != [] {
        HasRowGrows(rows, row, expanded[n], n);
      }
    }
    forall i: nat | i < |rows'|
      ensures rows'[i].node in expanded'
      ensures rows'[i].sharedWith == if expanded'[rows'[i].node] == rows'[i].input then None
                else Some(expanded'[rows'[i].node])
    { }
  }

  function Items(g: Lock, paths: seq<Path>): seq<Item> {
    seq(|paths|, i requires 0 <= i < |paths| => Item(paths[i], {g.root}))
  }

  // What a report starts with: a given path, or the inputs of the root.
  ghost predicate Starts(g: Lock, given: Option<Path>, initial: seq<Path>)
    requires WellFormed(g)
  {
    match given
    case None => Fans(initial, [], g.nodes[g.root].Keys)
    case Some(path) => path != [] && initial == [path]
  }

  lemma StartFound(g: Lock, initial: seq<Path>, queue: seq<Item>)
    requires WellFormed(g) && queue == Items(g, initial)
    requires forall j: nat {:trigger initial[j]} :: j < |initial| ==> initial[j] != []
    ensures FoundOk(g, [], [], map[], queue)
  {
    forall j: nat | j < |queue| ensures ItemOk(g, queue[j]) { InitialItemOk(g, initial[j]); }
  }

  lemma StartExpanded(g: Lock)
    requires WellFormed(g)
    ensures ExpandedOk(g, map[g.root := []])
  {
    assert Walk(g, g.root, [], 0) == Reaches(g.root) && Leads(g, g.root, [], g.root);
  }

  lemma StartWithRoot(g: Lock, initial: seq<Path>)
    requires WellFormed(g) && Fans(initial, [], g.nodes[g.root].Keys) && ExpandedOk(g, map[g.root := []])
    ensures ListedOk(g, None, map[g.root := []], initial)
  {
    hide ExpandedOk;
    var expanded: map<Name, Path> := map[g.root := []];
    forall i: nat | i < |initial| ensures FromExpanded(g, None, expanded, initial[i]) {
      ChildFrom(g, None, expanded, [], g.root, initial[i]);
    }
    forall key | key in g.nodes[g.root] ensures expanded[g.root] + [key] in initial {
      assert [] + [key] in initial;
    }
  }

  lemma StartWithPath(g: Lock, path: Path)
    requires WellFormed(g) && path != [] && ExpandedOk(g, map[g.root := []])
    ensures ListedOk(g, Some(path), map[g.root := []], [path])
  {
    hide ExpandedOk, FromExpanded;
  }

  lemma StartOk(g: Lock, given: Option<Path>, initial: seq<Path>, queue: seq<Item>)
    requires WellFormed(g) && queue == Items(g, initial) && Starts(g, given, initial)
    ensures AllOk(g, given, map[g.root := []], initial, [], queue)
    ensures forall j: nat {:trigger initial[j]} :: j < |initial| ==> initial[j] != []
  {
    hide ExpandedOk, ListedOk;
    StartExpanded(g);
    match given
    case None => StartWithRoot(g, initial);
    case Some(path) => StartWithPath(g, path);
  }

  lemma FanPaths(children: seq<Path>, path: Path, keys: set<Name>)
    requires Fans(children, path, keys)
    ensures forall i: nat {:trigger children[i]} :: i < |children| ==> children[i] != [] && Init(children[i]) == path
  { }

  lemma ItemPath(g: Lock, queue: seq<Item>)
    requires WellFormed(g) && QueueOk(g, queue) && queue != []
    ensures queue[0].path != []
  { }

  lemma RowMade(g: Lock, row: Row, parent: Name)
    requires WellFormed(g) && row.input != []
    requires Derives(g, row.input, row.node) && Derives(g, Init(row.input), parent)
    requires parent in g.nodes && Last(row.input) in g.nodes[parent]
    requires row.follows ==
               match g.nodes[parent][Last(row.input)] case Direct(_) => None case Follows(alias) => Some(alias)
    ensures RowOk(g, row, parent)
  { }

  lemma QueueJoined(g: Lock, a: seq<Item>, b: seq<Item>)
    requires WellFormed(g) && QueueOk(g, a) && QueueOk(g, b)
    ensures QueueOk(g, a + b)
  { }

  lemma MarkedSharing(rows: seq<Row>, marked: seq<Row>, first: map<Name, Path>)
    requires |rows| == |marked| && SharingOk(rows, first)
    requires forall i: nat {:trigger marked[i]} :: i < |rows| ==> marked[i] == rows[i].(cycle := marked[i].cycle)
    ensures SharingOk(marked, first)
  {
    forall n | n in first ensures first[n] == [] || HasRow(marked, first[n], n) {
      if first[n] != [] {
        assert HasRow(rows, first[n], n);
        var i: nat :| i < |rows| && rows[i].input == first[n] && rows[i].node == n;
        assert marked[i].input == rows[i].input;
      }
    }
  }

  lemma MarkedInput(rows: seq<Row>, marked: seq<Row>, parents: seq<Name>, parent: Name, input: Path)
    requires |rows| == |parents| == |marked| && InputListed(rows, parents, parent, input)
    requires forall i: nat {:trigger marked[i]} :: i < |rows| ==> marked[i] == rows[i].(cycle := marked[i].cycle)
    ensures InputListed(marked, parents, parent, input)
  { }

  // Completeness does not look at the flags.
  lemma MarkedComplete(g: Lock, given: Option<Path>, rows: seq<Row>, marked: seq<Row>, parents: seq<Name>,
        first: map<Name, Path>)
    requires WellFormed(g) && |rows| == |parents| == |marked| && Complete(g, given, rows, parents, first)
    requires forall i: nat {:trigger marked[i]} :: i < |rows| ==> marked[i] == rows[i].(cycle := marked[i].cycle)
    ensures Complete(g, given, marked, parents, first)
  {
    hide Meets, SharingOk, InputListed, Opens;
    MarkedSharing(rows, marked, first);
    forall n, key | n in first && Opens(g, given, n) && n in g.nodes && key in g.nodes[n]
      ensures InputListed(marked, parents, n, first[n] + [key])
    {
      MarkedInput(rows, marked, parents, n, first[n] + [key]);
    }
    forall i: nat | i < |marked|
      ensures given == Some(marked[i].input) || RowFrom(g, given, marked[i], parents[i], first)
    {
      assert marked[i].input == rows[i].input;
      if given != Some(rows[i].input) { assert RowFrom(g, given, rows[i], parents[i], first); }
    }
    if given.Some? {
      var i: nat :| i < |rows| && rows[i].input == given.value;
      assert marked[i].input == given.value;
    }
  }
}
