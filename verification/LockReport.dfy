/** The breadth-first report over resolved inputs, and its cycle flags. */
module LockReport {
  import opened Prelude
  import opened LockGraph
  import opened LockResolver
  import opened LockCycles
  import opened LockRows
  import opened LockBudgets

  // Mark the rows whose edge the search flagged.
  method FlagRows(g: Lock, rows: seq<Row>, parents: seq<Name>, edges: Edges) returns (marked: seq<Row>)
    requires WellFormed(g) && RowsOk(g, rows, parents) && FlagsOk(g, rows, parents) && EdgesOk(rows, parents, edges)
    ensures |marked| == |rows| && forall i: nat {:trigger marked[i]} :: i < |rows| ==>
              marked[i] == rows[i].(cycle := marked[i].cycle)
    ensures RowsOk(g, marked, parents) && FlagsOk(g, marked, parents) && NoCycleLeft(marked, parents)
  {
    hide RowOk, Reach, Acyclic, NoCycleLeft;
    var flagged := MarkCycles(edges);
    marked := rows;
    var i := 0;
    while i < |rows|
      invariant 0 <= i <= |rows| == |marked|
      invariant forall k: nat {:trigger marked[k]} :: k < |rows| ==>
                  marked[k] == rows[k].(cycle := rows[k].cycle || (k < i && (parents[k], rows[k].node) in flagged))
    {
      marked := marked[i := marked[i].(cycle := marked[i].cycle || (parents[i], marked[i].node) in flagged)];
      i := i + 1;
    }
    Marked(g, rows, parents, edges, flagged, marked);
  }

  method Fan(path: Path, keys: set<Name>) returns (children: seq<Path>)
    ensures Fans(children, path, keys)
  {
    hide Fans;
    children := [];
    var rest := keys;
    NoFan(path, keys - rest);
    while rest != {}
      invariant rest <= keys && Fans(children, path, keys - rest)
    {
      var key :| key in rest;
      FanGrows(children, path, keys - rest, key);
      assert keys - (rest - {key}) == keys - rest + {key};
      rest := rest - {key};
      children := children + [path + [key]];
    }
    assert keys - rest == keys;
  }

  lemma NoFan(path: Path, keys: set<Name>)
    requires keys == {}
    ensures Fans([], path, keys)
  { }

  // Queue the children of a row, as long as the queued paths fit.
  method Enqueue(ghost g: Lock, item: Item, node: Name, ghost parent: Name, children: seq<Path>, spent: nat)
    returns (items: seq<Item>, budget: nat, fits: bool)
    requires WellFormed(g) && ItemOk(g, item) && Derives(g, item.path, node) && Derives(g, Init(item.path), parent)
    requires forall i: nat {:trigger children[i]} :: i < |children| ==>
               children[i] != [] && Init(children[i]) == item.path
    ensures fits <==> children == [] || spent + Total(Bytes, children) <= MAX_BYTES
    ensures fits ==> |items| == |children| && budget == spent + Total(Bytes, children)
    ensures |items| <= |children| && QueueOk(g, items)
    ensures forall i: nat {:trigger items[i]} :: i < |items| ==> items[i] == Item(children[i], item.ancestors + {node})
  {
    hide ItemOk, Derives, Total, Bytes;
    items, budget := [], spent;
    TotalNone(Bytes, children[..0]);
    while |items| < |children|
      invariant |items| <= |children| && QueueOk(g, items)
      invariant budget == spent + Total(Bytes, children[..|items|])
      invariant items != [] ==> budget <= MAX_BYTES
      invariant forall i: nat {:trigger items[i]} :: i < |items| ==>
                  items[i] == Item(children[i], item.ancestors + {node})
    {
      var n := |items|;
      TotalNext(Bytes, children, n);
      assert children[n] == item.path + [Last(children[n])];
      BytesNext(item.path, children[n][|item.path|]);
      budget := budget + Bytes(item.path) + |children[n][|item.path|]|;
      if budget > MAX_BYTES { return items, budget, false; }
      ChildItemOk(g, item, node, parent, Last(children[n]));
      items := items + [Item(children[n], item.ancestors + {node})];
    }
    assert children[..|children|] == children;
    fits := true;
  }

  // One item: its node, the node of the path above it, and its row.
  method Look(graph: Graph, item: Item, expanded: map<Name, Path>) returns (r: Result<(Row, Name), Failure>)
    requires graph.Valid() && item.path != []
    modifies graph
    ensures graph.Valid()
    ensures r.Ok? ==>
      && var row := r.value.0;
      && RowOk(graph.lock, row, r.value.1) && row.input == item.path
      && row.sharedWith == (if row.node in expanded then Some(expanded[row.node]) else None)
      && row.cycle == (row.node in item.ancestors)
    ensures r.Ok? ==> graph.Spent() <= old(graph.Spent()) + Steps(item.path)
    ensures r == Err(MissingInput) ==> DerivesMissing(graph.lock, item.path)
    ensures r == Err(CyclicFollows) ==> Endless(graph.lock, item.path)
    ensures r == Err(TraversalLimit) ==> old(graph.Spent()) + Steps(item.path) > MAX_WORK
  {
    hide Derives, DerivesMissing, Endless, RowOk;
    var lock, path := graph.lock, item.path;
    var resolved := graph.Resolve(path);
    if resolved.Err? { return Err(resolved.error); }
    PrefixDerives(lock, path, resolved.value);
    var above := graph.Resolve(path[..|path| - 1]);
    if above.Err? { return Err(above.error); }
    var node, parent := resolved.value, above.value;
    RowResolved(lock, path, node, parent);
    var follows := match lock.nodes[parent][path[|path| - 1]] case Direct(_) => None case Follows(alias) => Some(alias);
    var shared := if node in expanded then Some(expanded[node]) else None;
    var row := Row(path, node, follows, shared, node in item.ancestors);
    RowMade(lock, row, parent);
    r := Ok((row, parent));
  }

  // The search proper. `size` is the length of a row's JSON text. A refusal means
  // what it says of the paths that were listed: without `all` of the initial ones,
  // else of what a report from the given path on, or from the root on, comes to.
  method Expand(graph: Graph, all: bool, ghost given: Option<Path>, initial: seq<Path>, size: Row -> nat)
    returns (r: Result<seq<Row>, Refusal>, parents: seq<Name>, edges: Edges, ghost t: Trace)
    requires graph.Valid() && Starts(graph.lock, given, initial)
    modifies graph
    ensures graph.Valid()
    ensures Traced(graph.lock, given, t, all) && RowsOk(graph.lock, t.rows, parents)
    ensures !all ==> t.listed == initial
    ensures r != Err(BadSelection)
    ensures r.Err? ==> Refused(graph.lock, r.error, size, old(graph.Spent()), t)
    ensures r.Ok? ==> FoundOk(graph.lock, r.value, parents, edges, []) && t.rows == r.value && t.queue == []
  {
    hide ItemOk, RowOk, Derives, DerivesMissing, Endless, ExpandedOk, FromExpanded, ListedOk, SharingOk, Lists, Reach;
    hide RowsOk, FlagsOk, EdgesOk, AllOk, Traced, Counts, Refused, Starts, Fans, Total, Bytes;
    hide MemoTrue;
    var lock := graph.lock;
    var rows: seq<Row> := [];
    parents, edges := [], map[];
    var queue := Items(lock, initial);
    var expanded: map<Name, Path> := map[lock.root := []];
    ghost var spent: nat, steps: nat := graph.Spent(), 0;
    t := Trace(expanded, initial, rows, queue);
    StartOk(lock, given, initial, queue);
    StartFound(lock, initial, queue);
    StartTraced(lock, given, t, all);
    var pathBudget: nat, outputBudget: nat, queuedBudget := 0, 0, Total(Bytes, initial);
    CountsStart(size, t);
    while queue != []
      invariant graph.Valid() && graph.lock == lock
      invariant t.first == expanded && t.rows == rows && t.queue == queue
      invariant FoundOk(lock, rows, parents, edges, queue) && Traced(lock, given, t, all)
      invariant !all ==> t.listed == initial
      invariant Counts(size, t, pathBudget, outputBudget, queuedBudget, steps) && graph.Spent() <= spent + steps
      decreases MAX_WORK - pathBudget
    {
      var item := queue[0];
      var path := item.path;
      ItemPath(lock, queue);
      NextListed(lock, given, t, all);
      CountsPath(size, t, pathBudget, outputBudget, queuedBudget, steps);
      pathBudget := pathBudget + |path|;
      if pathBudget > MAX_WORK {
        PathRefused(lock, size, spent, t);
        return Err(PathLimit), parents, edges, t;
      }
      var found := Look(graph, item, expanded);
      if found.Err? {
        ResolveRefused(lock, found.error, size, spent, t, path);
        return Err(Unresolved(found.error)), parents, edges, t;
      }
      var (row, parent) := found.value;
      var node := row.node;
      RowNode(lock, row, parent);
      RowAdded(lock, rows, parents, edges, queue, row, parent);
      outputBudget := outputBudget + size(row);
      edges := edges[parent := (if parent in edges then edges[parent] else {}) + {node}];
      parents := parents + [parent];
      if outputBudget > 2 * MAX_BYTES {
        t := OutputRefused(lock, given, t, row, all, size, spent, outputBudget - size(row));
        return Err(OutputLimit), parents, edges, t;
      }
      if !all || node in expanded {
        Stays(lock, given, t, row, all);
        ghost var before := t;
        TotalNone(Bytes, []);
        rows, queue := rows + [row], queue[1..];
        t := Trace(expanded, t.listed, rows, queue);
        CountsRow(size, before, pathBudget - |path|, outputBudget - size(row), queuedBudget, steps, row, [], t);
        steps := steps + Steps(path);
        continue;
      }
      var children := Fan(path, lock.nodes[node].Keys);
      FanPaths(children, path, lock.nodes[node].Keys);
      var items, budget, fits := Enqueue(lock, item, node, parent, children, queuedBudget);
      if !fits {
        t := QueueRefused(lock, given, t, row, children, size, spent, queuedBudget);
        return Err(QueueLimit), parents, edges, t;
      }
      Spreads(lock, given, t, row, children, items);
      ghost var before := t;
      QueueJoined(lock, queue[1..], items);
      expanded := expanded[node := path];
      rows, queue := rows + [row], queue[1..] + items;
      t := Trace(expanded, t.listed + children, rows, queue);
      CountsRow(size, before, pathBudget - |path|, outputBudget - size(row), queuedBudget, steps, row, children, t);
      queuedBudget, steps := budget, steps + Steps(path);
    }
    r := Ok(rows);
  }

  // The whole report. Whatever the options, every row resolves its path, every
  // row flagged `cycle` lies on a cycle of resolved inputs, and the rows that are
  // not flagged form no cycle. Without `all` the rows answer the selected path, or
  // the inputs of the root. With `all` they are the inputs of the nodes the root
  // reaches, or the selected path and the inputs of what it reaches past the root. A
  // refusal means that a limit was passed or a listed path has no node; a report of
  // everything that has the room is given exactly when each of these has a node.
  method Report(graph: Graph, all: bool, selected: Option<Path>, size: Row -> nat)
    returns (r: Result<seq<Row>, Refusal>, ghost parents: seq<Name>, ghost t: Trace)
    requires graph.Valid()
    requires selected.Some? ==> selected.value != []  // splitting a text gives at least one part
    modifies graph
    ensures graph.Valid()
    ensures r == Err(BadSelection) <==> selected.Some? && (|selected.value| > MAX_PARTS || "" in selected.value)
    ensures r.Ok? ==>
              && RowsOk(graph.lock, r.value, parents) && FlagsOk(graph.lock, r.value, parents)
              && NoCycleLeft(r.value, parents) && Lists(t.listed, r.value, [])
    ensures r.Ok? && all ==> Complete(graph.lock, selected, r.value, parents, t.first)
    ensures r.Err? && r.error != BadSelection ==> Refused(graph.lock, r.error, size, old(graph.Spent()), t)
    ensures r != Err(BadSelection) ==> RowsOk(graph.lock, t.rows, parents) && Lists(t.listed, t.rows, t.queue)
    ensures r != Err(BadSelection) && !all ==> Starts(graph.lock, selected, t.listed)
    ensures r != Err(BadSelection) && all ==> Partial(graph.lock, selected, t, parents)
    ensures r != Err(BadSelection) && all && Roomy(graph.lock, selected, size, old(graph.Spent())) ==>
              (r.Ok? <==> Resolvable(graph.lock, selected))
  {
    hide RowOk, RowsOk, Reach, Lists, NoCycleLeft, EdgesOk, Complete, AllOk, Fans, Refused, Resolvable;
    parents, t := [], Trace(map[], [], [], []);
    var initial: seq<Path>;
    if selected.Some? {
      if |selected.value| > MAX_PARTS || "" in selected.value { return Err(BadSelection), parents, t; }
      initial := [selected.value];
    } else {
      initial := Fan([], graph.lock.nodes[graph.lock.root].Keys);
    }
    var found, above, edges;
    found, above, edges, t := Expand(graph, all, selected, initial, size);
    parents := above;
    if found.Err? {
      if all && Roomy(graph.lock, selected, size, old(graph.Spent())) {
        RefusedWithin(graph.lock, selected, found.error, size, old(graph.Spent()), t, parents);
      }
      return found, parents, t;
    }
    var marked := FlagRows(graph.lock, found.value, above, edges);
    if all {
      FoundComplete(graph.lock, selected, t, above);
      CompleteResolves(graph.lock, selected, t.rows, above, t.first);
      MarkedComplete(graph.lock, selected, found.value, marked, above, t.first);
    }
    MarkedLists(t.listed, found.value, marked);
    r := Ok(marked);
  }

  lemma MarkedLists(listed: seq<Path>, rows: seq<Row>, marked: seq<Row>)
    requires |rows| == |marked| && Lists(listed, rows, [])
    requires forall i: nat {:trigger marked[i]} :: i < |rows| ==> marked[i] == rows[i].(cycle := marked[i].cycle)
    ensures Lists(listed, marked, [])
  { }

  lemma StartTraced(g: Lock, given: Option<Path>, t: Trace, all: bool)
    requires WellFormed(g) && t.rows == [] && AllOk(g, given, t.first, t.listed, t.rows, t.queue)
    ensures Traced(g, given, t, all)
  {
    hide ExpandedOk, ListedOk, SharingOk;
  }

  lemma FoundComplete(g: Lock, given: Option<Path>, t: Trace, parents: seq<Name>)
    requires WellFormed(g) && Partial(g, given, t, parents) && t.queue == []
    ensures |t.rows| == |parents| && Complete(g, given, t.rows, parents, t.first)
  {
    AllComplete(g, given, t.first, t.listed, t.rows, parents);
  }
}
