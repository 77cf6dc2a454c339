/**
 The limits of the report. A refusal says which limit was passed, or that some
 listed path has no node; and a lock whose report fits is reported exactly when
 every input that can be reached has a node.
 */
module LockBudgets {
  import opened Prelude
  import opened LockGraph
  import opened LockResolver
  import opened LockRows

  const MAX_BYTES := 16 * 1024 * 1024
  const MAX_PARTS := 4096

  datatype Refusal = Unresolved(why: Failure) | BadSelection | PathLimit | OutputLimit | QueueLimit

  // How far a report came: who expanded each node first, the input path of
  // every row so far and then of every queued item, the rows, the queue.
  datatype Trace = Trace(first: map<Name, Path>, listed: seq<Path>, rows: seq<Row>, queue: seq<Item>)

  function Total<T>(cost: T -> nat, xs: seq<T>): nat {
    if xs == [] then 0 else cost(xs[0]) + Total(cost, xs[1..])
  }

  function Bytes(path: Path): nat {
    if path == [] then 0 else |path[0]| + Bytes(path[1..])
  }

  function Parts(path: Path): nat { |path| }

  // Steps to resolve a path and the path of its parent, besides those that the
  // aliases on the way take once and for all.
  function Steps(path: Path): nat { 2 * |path| + 1 }

  lemma {:induction false} TotalJoined<T>(cost: T -> nat, xs: seq<T>, ys: seq<T>)
    ensures Total(cost, xs + ys) == Total(cost, xs) + Total(cost, ys)
  {
    if xs == [] {
      assert xs + ys == ys;
    } else {
      assert (xs + ys)[1..] == xs[1..] + ys;
      TotalJoined(cost, xs[1..], ys);
    }
  }

  lemma TotalNext<T>(cost: T -> nat, xs: seq<T>, k: nat)
    requires k < |xs|
    ensures Total(cost, xs[..k + 1]) == Total(cost, xs[..k]) + cost(xs[k]) <= Total(cost, xs)
  {
    assert xs[..k + 1] == xs[..k] + [xs[k]];
    assert xs == xs[..k + 1] + xs[k + 1..];
    TotalJoined(cost, xs[..k], [xs[k]]);
    TotalJoined(cost, xs[..k + 1], xs[k + 1..]);
  }

  lemma {:induction false} TotalBounded<T>(cost: T -> nat, xs: seq<T>, most: nat)
    requires forall x :: x in xs ==> cost(x) <= most
    ensures Total(cost, xs) <= |xs| * most
  {
    if xs != [] { TotalBounded(cost, xs[1..], most); }
  }

  lemma {:induction false} BytesNext(path: Path, key: Name)
    ensures Bytes(path + [key]) == Bytes(path) + |key|
  {
    if path != [] {
      assert (path + [key])[1..] == path[1..] + [key];
      BytesNext(path[1..], key);
    }
  }

  // ---------- what a refusal means ----------

  ghost predicate Refused(g: Lock, error: Refusal, size: Row -> nat, spent: nat, t: Trace)
    requires WellFormed(g)
  {
    match error
    case Unresolved(MissingInput) => exists path :: path in t.listed && DerivesMissing(g, path)
    case Unresolved(CyclicFollows) => exists path :: path in t.listed && Endless(g, path)
    case Unresolved(TraversalLimit) => spent + Total(Steps, t.listed) > MAX_WORK
    case BadSelection => false
    case PathLimit => Total(Parts, t.listed) > MAX_WORK
    case OutputLimit => Total(size, t.rows) > 2 * MAX_BYTES
    case QueueLimit => Total(Bytes, t.listed) > MAX_BYTES
  }

  ghost predicate Fits(size: Row -> nat, spent: nat, t: Trace) {
    && Total(Parts, t.listed) <= MAX_WORK && spent + Total(Steps, t.listed) <= MAX_WORK
    && Total(Bytes, t.listed) <= MAX_BYTES && Total(size, t.rows) <= 2 * MAX_BYTES
  }

  // A report of everything that came this far.
  ghost predicate Partial(g: Lock, given: Option<Path>, t: Trace, parents: seq<Name>)
    requires WellFormed(g)
  {
    AllOk(g, given, t.first, t.listed, t.rows, t.queue) && RowsOk(g, t.rows, parents)
  }

  // However far a report of everything comes, it is within the limits.
  ghost predicate Roomy(g: Lock, given: Option<Path>, size: Row -> nat, spent: nat)
    requires WellFormed(g)
  {
    forall t, parents :: Partial(g, given, t, parents) ==> Fits(size, spent, t)
  }

  // The given path has a node, and so has every input of every node that is met.
  ghost predicate Resolvable(g: Lock, given: Option<Path>)
    requires WellFormed(g)
  {
    && (given.Some? ==> exists m :: Derives(g, given.value, m))
    && forall n, key :: Meets(g, given, n) && n in g.nodes && key in g.nodes[n] ==> HasNode(g, n, key)
  }

  ghost predicate HasNode(g: Lock, n: Name, key: Name)
    requires WellFormed(g) && n in g.nodes
  {
    exists m :: Leads(g, n, [key], m)
  }

  // A listed path other than the given one is an input of a node that is met.
  lemma ListedFrom(g: Lock, given: Option<Path>, t: Trace, parents: seq<Name>, path: Path) returns (n: Name)
    requires WellFormed(g) && Partial(g, given, t, parents) && path in t.listed && given != Some(path)
    ensures path != [] && n in g.nodes && Last(path) in g.nodes[n] && Leads(g, g.root, Init(path), n)
    ensures n in t.first && Opens(g, given, n) && t.first[n] == Init(path)
  {
    hide SharingOk, Lists, RowsOk, Leads;
    var i: nat :| i < |t.listed| && t.listed[i] == path;
    assert FromExpanded(g, given, t.first, t.listed[i]);
    n :| n in t.first && Opens(g, given, n) && t.first[n] == Init(path) && Last(path) in g.nodes[n];
    assert Derives(g, t.first[n], n);
  }

  lemma ListedResolves(g: Lock, given: Option<Path>, t: Trace, parents: seq<Name>, path: Path)
    requires WellFormed(g) && Partial(g, given, t, parents) && Resolvable(g, given) && path in t.listed
    ensures !DerivesMissing(g, path) && !Endless(g, path)
  {
    hide Leads, DerivesMissing, Endless, AllOk, RowsOk, Meets;
    if given == Some(path) {
      var m :| Derives(g, path, m);
      VerdictsExclusive(g, g.root, path, m, m);
    } else {
      var n := ListedFrom(g, given, t, parents, path);
      ExpandedMeets(g, given, t.first, t.listed, t.rows, t.queue, n);
      assert HasNode(g, n, Last(path));
      var m :| Leads(g, n, [Last(path)], m);
      LeadsConcat(g, g.root, Init(path), n, [Last(path)], m);
      assert Init(path) + [Last(path)] == path;
      VerdictsExclusive(g, g.root, path, m, m);
    }
  }

  // So within the limits a refusal means an input without a node.
  lemma RefusedWithin(g: Lock, given: Option<Path>, error: Refusal, size: Row -> nat, spent: nat, t: Trace,
        parents: seq<Name>)
    requires WellFormed(g) && Partial(g, given, t, parents)
    requires Refused(g, error, size, spent, t) && Fits(size, spent, t)
    ensures !Resolvable(g, given)
  {
    hide AllOk, RowsOk, DerivesMissing, Endless, Resolvable;
    if Resolvable(g, given) {
      forall path | path in t.listed ensures !DerivesMissing(g, path) && !Endless(g, path) {
        ListedResolves(g, given, t, parents, path);
      }
    }
  }

  // Complete rows give every input its node.
  lemma CompleteResolves(g: Lock, given: Option<Path>, rows: seq<Row>, parents: seq<Name>, first: map<Name, Path>)
    requires WellFormed(g) && RowsOk(g, rows, parents) && Complete(g, given, rows, parents, first)
    ensures Resolvable(g, given)
  {
    hide Leads, SharingOk, Meets, RowFrom;
    forall n, key | Meets(g, given, n) && n in g.nodes && key in g.nodes[n] ensures HasNode(g, n, key) {
      assert InputListed(rows, parents, n, first[n] + [key]);
      var i: nat :| i < |rows| && parents[i] == n && rows[i].input == first[n] + [key];
      assert RowOk(g, rows[i], parents[i]);
      RowResolved(g, rows[i].input, rows[i].node, n);
      assert Last(rows[i].input) == key;
    }
    if given.Some? {
      var i: nat :| i < |rows| && rows[i].input == given.value;
      assert RowOk(g, rows[i], parents[i]);
      assert Derives(g, given.value, rows[i].node);
    }
  }

  // ---------- how a report comes this far ----------

  // The rows so far answer the first of the listed paths; a report of everything
  // has listed what it met.
  ghost predicate Traced(g: Lock, given: Option<Path>, t: Trace, all: bool)
    requires WellFormed(g)
  {
    Lists(t.listed, t.rows, t.queue) && (all ==> AllOk(g, given, t.first, t.listed, t.rows, t.queue))
  }

  lemma TotalNone<T>(cost: T -> nat, xs: seq<T>)
    requires xs == []
    ensures Total(cost, xs) == 0
  { }

  // The three counters of the report, and the work it took to resolve its rows.
  ghost predicate Counts(size: Row -> nat, t: Trace, parts: nat, output: nat, queued: nat, steps: nat) {
    && |t.rows| <= |t.listed| && parts == Total(Parts, t.listed[..|t.rows|])
    && output == Total(size, t.rows) && queued == Total(Bytes, t.listed)
    && steps == Total(Steps, t.listed[..|t.rows|])
  }

  lemma CountsStart(size: Row -> nat, t: Trace)
    requires t.rows == []
    ensures Counts(size, t, 0, 0, Total(Bytes, t.listed), 0)
  {
    assert t.listed[..0] == [];
  }

  // The next item is the path listed next.
  lemma NextListed(g: Lock, given: Option<Path>, t: Trace, all: bool)
    requires WellFormed(g) && Traced(g, given, t, all) && t.queue != []
    ensures |t.rows| < |t.listed| && t.queue[0].path == t.listed[|t.rows|]
  {
    hide AllOk;
    assert t.queue[0].path == t.listed[|t.rows| + 0];
  }

  lemma CountsPath(size: Row -> nat, t: Trace, parts: nat, output: nat, queued: nat, steps: nat)
    requires Counts(size, t, parts, output, queued, steps) && |t.rows| < |t.listed|
    ensures var path := t.listed[|t.rows|];
            parts + |path| <= Total(Parts, t.listed) && steps + Steps(path) <= Total(Steps, t.listed)
    ensures output == Total(size, t.rows) && queued == Total(Bytes, t.listed)
  {
    hide Total;
    TotalNext(Parts, t.listed, |t.rows|);
    TotalNext(Steps, t.listed, |t.rows|);
  }

  // A row more, and the paths that it lists.
  lemma CountsRow(size: Row -> nat, t: Trace, parts: nat, output: nat, queued: nat, steps: nat, row: Row,
        more: seq<Path>, next: Trace)
    requires Counts(size, t, parts, output, queued, steps) && |t.rows| < |t.listed|
    requires next.rows == t.rows + [row] && next.listed == t.listed + more && row.input == t.listed[|t.rows|]
    ensures Counts(size, next, parts + |row.input|, output + size(row), queued + Total(Bytes, more),
              steps + Steps(row.input))
  {
    hide Total, Bytes;
    var k := |t.rows|;
    TotalNext(Parts, t.listed, k);
    TotalNext(Steps, t.listed, k);
    TotalJoined(size, t.rows, [row]);
    TotalOne(size, row);
    TotalJoined(Bytes, t.listed, more);
    assert next.listed[..k + 1] == t.listed[..k + 1];
  }

  lemma TotalOne<T>(cost: T -> nat, x: T)
    ensures Total(cost, [x]) == cost(x)
  { }

  // A row whose node is not expanded for it.
  lemma Stays(g: Lock, given: Option<Path>, t: Trace, row: Row, all: bool)
    requires WellFormed(g) && Traced(g, given, t, all) && t.queue != []
    requires row.input == t.queue[0].path && row.input != []
    requires all ==> row.node in t.first && row.sharedWith == Some(t.first[row.node])
    ensures Traced(g, given, Trace(t.first, t.listed, t.rows + [row], t.queue[1..]), all)
  {
    hide Lists, AllOk;
    ListsNext(t.listed, t.rows, t.queue, row);
    if all { SharedRow(g, given, t.first, t.listed, t.rows, t.queue, row); }
  }

  // A row whose node is expanded for it.
  lemma Spreads(g: Lock, given: Option<Path>, t: Trace, row: Row, children: seq<Path>, items: seq<Item>)
    requires WellFormed(g) && Traced(g, given, t, true) && t.queue != []
    requires row.input == t.queue[0].path && row.input != [] && row.node !in t.first && row.sharedWith == None
    requires row.node in g.nodes && Derives(g, row.input, row.node) && Fans(children, row.input, g.nodes[row.node].Keys)
    requires |items| == |children| && forall i: nat {:trigger items[i]} :: i < |items| ==> items[i].path == children[i]
    ensures Traced(g, given, Spread(t, row, children, items), true)
  {
    hide ExpandedOk, ListedOk, SharingOk, Lists, Derives, Fans;
    FirstRow(g, given, t.first, t.listed, t.rows, t.queue, row, children, items);
  }

  function Spread(t: Trace, row: Row, children: seq<Path>, items: seq<Item>): Trace
    requires t.queue != []
  {
    Trace(t.first[row.node := row.input], t.listed + children, t.rows + [row], t.queue[1..] + items)
  }

  lemma {:induction false} SomeFan(path: Path, keys: set<Name>) returns (children: seq<Path>)
    ensures Fans(children, path, keys)
  {
    if keys == {} {
      children := [];
    } else {
      var key :| key in keys;
      var before := SomeFan(path, keys - {key});
      children := before + [path + [key]];
      FanGrows(before, path, keys - {key}, key);
      assert keys - {key} + {key} == keys;
    }
  }

  // Either way some trace counts the row.
  lemma Counted(g: Lock, given: Option<Path>, t: Trace, row: Row, all: bool) returns (next: Trace, more: seq<Path>)
    requires WellFormed(g) && Traced(g, given, t, all) && t.queue != []
    requires row.input == t.queue[0].path && row.input != [] && row.node in g.nodes && Derives(g, row.input, row.node)
    requires row.sharedWith == if row.node in t.first then Some(t.first[row.node]) else None
    ensures Traced(g, given, next, all) && next.rows == t.rows + [row] && next.listed == t.listed + more
    ensures !all ==> more == []
  {
    hide Traced, Derives, Fans;
    if !all || row.node in t.first {
      Stays(g, given, t, row, all);
      next, more := Trace(t.first, t.listed, t.rows + [row], t.queue[1..]), [];
    } else {
      more := SomeFan(row.input, g.nodes[row.node].Keys);
      var items := Items(g, more);
      Spreads(g, given, t, row, more, items);
      next := Spread(t, row, more, items);
    }
  }

  // A path that is resolved has a resolved parent.
  lemma PrefixDerives(g: Lock, path: Path, node: Name)
    requires WellFormed(g) && path != [] && Derives(g, path, node)
    ensures !DerivesMissing(g, Init(path)) && !Endless(g, Init(path))
  {
    var d: nat :| Walk(g, g.root, path, d) == Reaches(node);
    assert Init(path) + [Last(path)] == path;
    WalkConcat(g, g.root, Init(path), [Last(path)], d);
    var m := Walk(g, g.root, Init(path), d).node;
    assert Derives(g, Init(path), m);
    VerdictsExclusive(g, g.root, Init(path), m, m);
  }

  // Which limit was passed.
  lemma PathRefused(g: Lock, size: Row -> nat, spent: nat, t: Trace)
    requires WellFormed(g) && Total(Parts, t.listed) > MAX_WORK
    ensures Refused(g, PathLimit, size, spent, t)
  { }

  lemma OutputRefused(g: Lock, given: Option<Path>, t: Trace, row: Row, all: bool, size: Row -> nat, spent: nat,
        output: nat)
    returns (next: Trace)
    requires WellFormed(g) && Traced(g, given, t, all) && t.queue != []
    requires row.input == t.queue[0].path && row.input != [] && row.node in g.nodes && Derives(g, row.input, row.node)
    requires row.sharedWith == if row.node in t.first then Some(t.first[row.node]) else None
    requires output == Total(size, t.rows) && output + size(row) > 2 * MAX_BYTES
    ensures Traced(g, given, next, all) && next.rows == t.rows + [row] && (!all ==> next.listed == t.listed)
    ensures Refused(g, OutputLimit, size, spent, next)
  {
    hide Traced, Derives;
    var more;
    next, more := Counted(g, given, t, row, all);
    TotalJoined(size, t.rows, [row]);
    TotalOne(size, row);
  }

  lemma QueueRefused(g: Lock, given: Option<Path>, t: Trace, row: Row, children: seq<Path>, size: Row -> nat,
        spent: nat, queued: nat)
    returns (next: Trace)
    requires WellFormed(g) && Traced(g, given, t, true) && t.queue != []
    requires row.input == t.queue[0].path && row.input != [] && row.node !in t.first && row.sharedWith == None
    requires row.node in g.nodes && Derives(g, row.input, row.node) && Fans(children, row.input, g.nodes[row.node].Keys)
    requires queued == Total(Bytes, t.listed) && queued + Total(Bytes, children) > MAX_BYTES
    ensures Traced(g, given, next, true) && next.rows == t.rows + [row]
    ensures Refused(g, QueueLimit, size, spent, next)
  {
    hide Traced, Derives, Fans;
    var items := Items(g, children);
    Spreads(g, given, t, row, children, items);
    TotalJoined(Bytes, t.listed, children);
    next := Spread(t, row, children, items);
  }

  // The resolver refuses a listed path for what it is, or for the work done.
  lemma ResolveRefused(g: Lock, error: Failure, size: Row -> nat, spent: nat, t: Trace, path: Path)
    requires WellFormed(g) && path in t.listed
    requires error == MissingInput ==> DerivesMissing(g, path)
    requires error == CyclicFollows ==> Endless(g, path)
    requires error == TraversalLimit ==> spent + Total(Steps, t.listed) > MAX_WORK
    ensures Refused(g, Unresolved(error), size, spent, t)
  { }

  // ---------- a lock that is small enough is roomy ----------

  ghost function Inputs(g: Lock): set<Edge> {
    set n, key | n in g.nodes && key in g.nodes[n] :: (n, key)
  }

  // The most paths that can be listed, and the most parts one of them can have.
  ghost function Most(g: Lock, given: Option<Path>): nat { |Inputs(g)| + if given.Some? then 1 else 0 }
  ghost function Deepest(g: Lock, given: Option<Path>): nat { |g.nodes| + Start(given) }
  ghost function Start(given: Option<Path>): nat { if given.Some? then |given.value| else 0 }

  // No input name, and no part of the given path, is longer.
  ghost predicate Longest(g: Lock, given: Option<Path>, longest: nat) {
    && (forall e :: e in Inputs(g) ==> |e.1| <= longest)
    && (given.Some? ==> forall part :: part in given.value ==> |part| <= longest)
  }

  // Distinct paths are inputs of distinct nodes, or distinct inputs of one.
  lemma {:induction false} ListedCount(g: Lock, given: Option<Path>, first: map<Name, Path>, listed: seq<Path>)
    returns (edges: set<Edge>)
    requires WellFormed(g) && ExpandedOk(g, first)
    requires forall i: nat, j: nat {:trigger listed[i], listed[j]} :: i < j < |listed| ==> listed[i] != listed[j]
    requires forall i: nat {:trigger listed[i]} :: i < |listed| ==>
               given == Some(listed[i]) || FromExpanded(g, given, first, listed[i])
    ensures |listed| <= |edges| + (if given.Some? && given.value in listed then 1 else 0) && edges <= Inputs(g)
    ensures forall e :: e in edges ==> e.0 in first && first[e.0] + [e.1] in listed
  {
    hide Derives;
    if listed == [] {
      edges := {};
    } else {
      var k := |listed| - 1;
      var path := listed[k];
      edges := ListedCount(g, given, first, listed[..k]);
      assert listed == listed[..k] + [path];
      if given != Some(path) {
        assert FromExpanded(g, given, first, path);
        var n :| n in first && Opens(g, given, n) && first[n] == Init(path) && Last(path) in g.nodes[n];
        assert first[n] + [Last(path)] == path;
        var e := (n, Last(path));
        edges := edges + {e};
      }
    }
  }

  // A node that was expanded by a long path has a node expanded by every shorter
  // prefix of it, down to the given path.
  lemma {:induction false} PathDepth(g: Lock, given: Option<Path>, t: Trace, parents: seq<Name>, n: Name)
    returns (above: set<Name>)
    requires WellFormed(g) && Partial(g, given, t, parents) && n in t.first
    ensures |t.first[n]| <= |above| + Start(given) && n !in above && above <= t.first.Keys
    ensures forall m :: m in above ==> |t.first[m]| < |t.first[n]|
    decreases |t.first[n]|
  {
    hide AllOk, RowsOk, Leads, Opens;
    PartialFirst(g, given, t, parents);
    above := {};
    if n != g.root {
      var nearer := ExpandedBy(g, given, t.first, t.listed, t.rows, t.queue, n);
      if nearer.Some? {
        above := PathDepth(g, given, t, parents, nearer.value);
        above := above + {nearer.value};
      }
    }
  }

  lemma {:induction false} BytesWithin(path: Path, longest: nat)
    requires forall part :: part in path ==> |part| <= longest
    ensures Bytes(path) <= |path| * longest
  {
    if path != [] {
      BytesWithin(path[1..], longest);
      Product(|path|, longest);
    }
  }

  // What a listed path can be: no longer than that, and made of such names.
  lemma {:induction false} PathSmall(g: Lock, given: Option<Path>, t: Trace, parents: seq<Name>, path: Path,
        longest: nat)
    requires WellFormed(g) && Partial(g, given, t, parents) && path in t.listed && Longest(g, given, longest)
    ensures |path| <= Deepest(g, given) && Bytes(path) <= |path| * longest
    decreases |path|
  {
    hide AllOk, RowsOk, Leads, Inputs, Opens;
    PartialFirst(g, given, t, parents);
    if given == Some(path) {
      BytesWithin(path, longest);
    } else {
      var n := ListedFrom(g, given, t, parents, path);
      var above := PathDepth(g, given, t, parents, n);
      SubsetSize(above + {n}, g.nodes.Keys);
      assert Init(path) + [Last(path)] == path;
      BytesNext(Init(path), Last(path));
      InputAt(g, n, Last(path));
      if n != g.root {
        var nearer := ExpandedBy(g, given, t.first, t.listed, t.rows, t.queue, n);
        PathSmall(g, given, t, parents, Init(path), longest);
      }
      Product(|path|, longest);
    }
  }

  lemma PartialFirst(g: Lock, given: Option<Path>, t: Trace, parents: seq<Name>)
    requires WellFormed(g) && Partial(g, given, t, parents)
    ensures t.first.Keys <= g.nodes.Keys && g.root in t.first && t.first[g.root] == []
  {
    hide Derives, ListedOk, SharingOk, Lists, RowsOk;
  }

  lemma InputAt(g: Lock, n: Name, key: Name)
    requires n in g.nodes && key in g.nodes[n]
    ensures (n, key) in Inputs(g)
  { }

  lemma Product(n: nat, most: nat)
    requires n > 0
    ensures n * most == (n - 1) * most + most
  { }

  lemma Wider(few: nat, many: nat, most: nat)
    requires few <= many
    ensures few * most <= many * most
  { }

  lemma TotalWithin<T>(cost: T -> nat, xs: seq<T>, many: nat, most: nat)
    requires |xs| <= many && forall x :: x in xs ==> cost(x) <= most
    ensures Total(cost, xs) <= many * most
  {
    TotalBounded(cost, xs, most);
    Wider(|xs|, many, most);
  }

  // A row of such a lock, as far as its size goes.
  ghost predicate Listable(g: Lock, given: Option<Path>, row: Row, parent: Name)
    requires WellFormed(g)
  {
    && RowOk(g, row, parent) && |row.input| <= Deepest(g, given)
    && (row.sharedWith.Some? ==>
          Derives(g, row.sharedWith.value, row.node) && |row.sharedWith.value| <= Deepest(g, given))
  }

  lemma RowListable(g: Lock, given: Option<Path>, t: Trace, parents: seq<Name>, i: nat, longest: nat)
    requires WellFormed(g) && Partial(g, given, t, parents) && i < |t.rows| && Longest(g, given, longest)
    ensures i < |parents| && Listable(g, given, t.rows[i], parents[i])
  {
    hide RowOk, Derives, Partial, Inputs, Longest;
    PartialRow(g, given, t, parents, i);
    PathSmall(g, given, t, parents, t.rows[i].input, longest);
    if t.rows[i].sharedWith.Some? {
      var above := PathDepth(g, given, t, parents, t.rows[i].node);
      PartialFirst(g, given, t, parents);
      SubsetSize(above, g.nodes.Keys);
    }
  }

  lemma PartialRow(g: Lock, given: Option<Path>, t: Trace, parents: seq<Name>, i: nat)
    requires WellFormed(g) && Partial(g, given, t, parents) && i < |t.rows|
    ensures |parents| == |t.rows| && RowOk(g, t.rows[i], parents[i]) && t.rows[i].input in t.listed
    ensures var row := t.rows[i];
            row.sharedWith.Some? ==>
              && row.node in t.first && row.sharedWith.value == t.first[row.node]
              && Derives(g, t.first[row.node], row.node)
  {
    hide RowOk, Derives, ListedOk;
    assert t.rows[i].input == t.listed[i];
  }

  // The inputs of the lock, their number, the longest of their names, the given path
  // and the size of the rows they can give bound every report.
  lemma SmallIsRoomy(g: Lock, given: Option<Path>, size: Row -> nat, spent: nat, longest: nat, widest: nat)
    requires WellFormed(g) && Longest(g, given, longest)
    requires forall row, parent :: Listable(g, given, row, parent) ==> size(row) <= widest
    requires spent + Most(g, given) * (2 * Deepest(g, given) + 1) <= MAX_WORK
    requires Most(g, given) * (Deepest(g, given) * longest) <= MAX_BYTES
    requires Most(g, given) * widest <= 2 * MAX_BYTES
    ensures Roomy(g, given, size, spent)
  {
    hide Partial, Listable, Longest, Most, Deepest;
    forall t, parents | Partial(g, given, t, parents) ensures Fits(size, spent, t) {
      SmallPaths(g, given, t, parents, longest, Deepest(g, given) * longest);
      SmallRows(g, given, size, t, parents, longest, widest);
    }
  }

  lemma SmallPaths(g: Lock, given: Option<Path>, t: Trace, parents: seq<Name>, longest: nat, most: nat)
    requires WellFormed(g) && Partial(g, given, t, parents) && most == Deepest(g, given) * longest
    requires Longest(g, given, longest)
    ensures Total(Steps, t.listed) <= Most(g, given) * (2 * Deepest(g, given) + 1)
    ensures Total(Parts, t.listed) <= Most(g, given) * (2 * Deepest(g, given) + 1)
    ensures Total(Bytes, t.listed) <= Most(g, given) * most
  {
    hide Partial, Total, Bytes, Longest, Most, Deepest;
    PartialCount(g, given, t, parents);
    var deepest := Deepest(g, given);
    forall path | path in t.listed
      ensures Parts(path) <= deepest && Steps(path) <= 2 * deepest + 1 && Bytes(path) <= most
    {
      PathSmall(g, given, t, parents, path, longest);
      Wider(|path|, deepest, longest);
    }
    TotalWithin(Steps, t.listed, Most(g, given), 2 * deepest + 1);
    TotalWithin(Parts, t.listed, Most(g, given), 2 * deepest + 1);
    TotalWithin(Bytes, t.listed, Most(g, given), most);
  }

  lemma SmallRows(g: Lock, given: Option<Path>, size: Row -> nat, t: Trace, parents: seq<Name>, longest: nat,
        widest: nat)
    requires WellFormed(g) && Partial(g, given, t, parents) && Longest(g, given, longest)
    requires forall row, parent :: Listable(g, given, row, parent) ==> size(row) <= widest
    ensures Total(size, t.rows) <= Most(g, given) * widest
  {
    hide Partial, Listable, Total, Longest, Most;
    PartialCount(g, given, t, parents);
    forall row | row in t.rows ensures size(row) <= widest {
      var i: nat :| i < |t.rows| && t.rows[i] == row;
      RowListable(g, given, t, parents, i, longest);
      assert Listable(g, given, row, parents[i]);
    }
    TotalWithin(size, t.rows, Most(g, given), widest);
  }

  lemma PartialCount(g: Lock, given: Option<Path>, t: Trace, parents: seq<Name>)
    requires WellFormed(g) && Partial(g, given, t, parents)
    ensures |t.rows| <= |t.listed| <= Most(g, given)
  {
    hide Inputs, Derives, SharingOk, RowsOk, FromExpanded;
    var edges := ListedCount(g, given, t.first, t.listed);
    SubsetSize(edges, Inputs(g));
  }
}
