/**
 The report's white, grey and black depth-first search over the edges it
 listed. It flags every edge that leads to a node still on the stack.
 */
module LockCycles {
  import opened LockGraph

  type Edges = map<Name, set<Name>>

  ghost predicate Link(edges: Edges, a: Name, b: Name) {
    a in edges && b in edges[a]
  }

  ghost predicate Chain(edges: Edges, p: seq<Name>) {
    p != [] && forall i {:trigger p[i]} :: 0 <= i < |p| - 1 ==> Link(edges, p[i], p[i + 1])
  }

  ghost predicate Connects(edges: Edges, p: seq<Name>, a: Name, b: Name) {
    Chain(edges, p) && p[0] == a && p[|p| - 1] == b
  }

  // A path whose every edge is listed and not flagged.
  ghost predicate Spared(edges: Edges, flagged: set<Edge>, p: seq<Name>) {
    Chain(edges, p) && forall i {:trigger p[i]} :: 0 <= i < |p| - 1 ==> (p[i], p[i + 1]) !in flagged
  }

  ghost predicate Acyclic(edges: Edges, flagged: set<Edge>) {
    forall p: seq<Name> :: Spared(edges, flagged, p) && |p| > 1 ==> p[0] != p[|p| - 1]
  }

  datatype Color = Grey | Black

  datatype Visit = Visit(node: Name, rest: set<Name>)

  ghost function Children(edges: Edges, a: Name): set<Name> {
    if a in edges then edges[a] else {}
  }

  ghost predicate Finished(edges: Edges, flagged: set<Edge>, rank: map<Name, nat>, a: Name)
    requires a in rank
  {
    forall b :: Link(edges, a, b) ==> (a, b) in flagged || (b in rank && rank[b] < rank[a])
  }

  ghost predicate FlagsSound(edges: Edges, flagged: set<Edge>) {
    forall e :: e in flagged ==> Link(edges, e.0, e.1) && exists p :: Connects(edges, p, e.1, e.0)
  }

  ghost function Nodes(stack: seq<Visit>): set<Name> {
    if stack == [] then {} else Nodes(stack[..|stack| - 1]) + {stack[|stack| - 1].node}
  }

  // The children a visit has taken are flagged, or finished, or visited above it.
  ghost predicate VisitOk(edges: Edges, flagged: set<Edge>, rank: map<Name, nat>, v: Visit, above: set<Name>) {
    && v.rest <= Children(edges, v.node)
    && forall b :: b in Children(edges, v.node) - v.rest ==> (v.node, b) in flagged || b in rank || b in above
  }

  // The stack is a path of distinct nodes; `above` holds the node visited next.
  ghost predicate StackOk(edges: Edges, flagged: set<Edge>, rank: map<Name, nat>, stack: seq<Visit>, above: set<Name>) {
    stack != [] ==>
      && var k := |stack| - 1;
      && stack[k].node !in Nodes(stack[..k])
      && above <= Children(edges, stack[k].node)
      && VisitOk(edges, flagged, rank, stack[k], above)
      && StackOk(edges, flagged, rank, stack[..k], {stack[k].node})
  }

  ghost predicate ColorsOk(edges: Edges, colors: map<Name, Color>, flagged: set<Edge>, rank: map<Name, nat>,
        grey: set<Name>)
  {
    && (forall a :: a in grey <==> a in colors && colors[a] == Grey)
    && (forall a :: a in rank <==> a in colors && colors[a] == Black)
    && (forall a {:trigger Finished(edges, flagged, rank, a)} {:trigger rank[a]} :: a in rank ==>
          rank[a] < |rank| && Finished(edges, flagged, rank, a))
  }

  ghost predicate SearchOk(edges: Edges, colors: map<Name, Color>, flagged: set<Edge>, rank: map<Name, nat>,
        stack: seq<Visit>)
  {
    && StackOk(edges, flagged, rank, stack, {})
    && ColorsOk(edges, colors, flagged, rank, Nodes(stack)) && FlagsSound(edges, flagged)
  }

  lemma {:induction false} StackWeakens(edges: Edges, flagged: set<Edge>, rank: map<Name, nat>, stack: seq<Visit>,
        above: set<Name>, flagged': set<Edge>, rank': map<Name, nat>)
    requires StackOk(edges, flagged, rank, stack, above)
    requires flagged <= flagged' && rank.Keys <= rank'.Keys
    ensures StackOk(edges, flagged', rank', stack, above)
  {
    if stack != [] {
      StackWeakens(edges, flagged, rank, stack[..|stack| - 1], {stack[|stack| - 1].node}, flagged', rank');
    }
  }

  // From a node on the stack its edges lead up to the top.
  lemma {:induction false} StackConnects(edges: Edges, flagged: set<Edge>, rank: map<Name, nat>, stack: seq<Visit>,
        above: set<Name>, b: Name)
    returns (p: seq<Name>)
    requires StackOk(edges, flagged, rank, stack, above) && b in Nodes(stack)
    ensures stack != [] && Connects(edges, p, b, stack[|stack| - 1].node)
  {
    var k := |stack| - 1;
    if b == stack[k].node {
      p := [b];
    } else {
      var q := StackConnects(edges, flagged, rank, stack[..k], {stack[k].node}, b);
      p := q + [stack[k].node];
      forall i | 0 <= i < |p| - 1 ensures Link(edges, p[i], p[i + 1]) {
        if i < |q| - 1 { assert p[i] == q[i] && p[i + 1] == q[i + 1]; }
      }
    }
  }

  lemma Blacken(edges: Edges, colors: map<Name, Color>, flagged: set<Edge>, rank: map<Name, nat>, grey: set<Name>,
        a: Name)
    requires ColorsOk(edges, colors, flagged, rank, grey) && a in grey
    requires forall b :: Link(edges, a, b) ==> (a, b) in flagged || b in rank
    ensures ColorsOk(edges, colors[a := Black], flagged, rank[a := |rank|], grey - {a})
  { }

  lemma MoreFlags(edges: Edges, colors: map<Name, Color>, flagged: set<Edge>, rank: map<Name, nat>, grey: set<Name>,
        flagged': set<Edge>)
    requires ColorsOk(edges, colors, flagged, rank, grey) && flagged <= flagged'
    ensures ColorsOk(edges, colors, flagged', rank, grey)
  { }

  lemma Greyed(edges: Edges, colors: map<Name, Color>, flagged: set<Edge>, rank: map<Name, nat>, grey: set<Name>,
        b: Name)
    requires ColorsOk(edges, colors, flagged, rank, grey) && b !in colors
    ensures ColorsOk(edges, colors[b := Grey], flagged, rank, grey + {b})
  { }

  // The top visit is over: it is finished later than all it leads to.
  lemma VisitOver(edges: Edges, colors: map<Name, Color>, flagged: set<Edge>, rank: map<Name, nat>, stack: seq<Visit>)
    requires SearchOk(edges, colors, flagged, rank, stack)
    requires stack != [] && stack[|stack| - 1].rest == {}
    ensures var a := stack[|stack| - 1].node;
            SearchOk(edges, colors[a := Black], flagged, rank[a := |rank|], stack[..|stack| - 1])
  {
    hide FlagsSound, Finished, ColorsOk;
    var k := |stack| - 1;
    var a := stack[k].node;
    assert Nodes(stack) - {a} == Nodes(stack[..k]);
    Blacken(edges, colors, flagged, rank, Nodes(stack), a);
    StackWeakens(edges, flagged, rank, stack[..k], {a}, flagged, rank[a := |rank|]);
    AboveGone(edges, flagged, rank[a := |rank|], stack[..k], a);
  }

  lemma AboveGone(edges: Edges, flagged: set<Edge>, rank: map<Name, nat>, stack: seq<Visit>, a: Name)
    requires StackOk(edges, flagged, rank, stack, {a}) && a in rank
    ensures StackOk(edges, flagged, rank, stack, {})
  { }

  // Replacing the top visit by one that has taken child b.
  lemma ChildGone(edges: Edges, flagged: set<Edge>, rank: map<Name, nat>, stack: seq<Visit>, b: Name,
        flagged': set<Edge>, above: set<Name>)
    requires StackOk(edges, flagged, rank, stack, {}) && stack != [] && b in stack[|stack| - 1].rest
    requires flagged <= flagged' && above <= {b}
    requires (stack[|stack| - 1].node, b) in flagged' || b in rank || b in above
    ensures var top := stack[|stack| - 1];
            var after := stack[..|stack| - 1] + [Visit(top.node, top.rest - {b})];
            StackOk(edges, flagged', rank, after, above) && Nodes(after) == Nodes(stack)
  {
    var k := |stack| - 1;
    var top := stack[k];
    var after := stack[..k] + [Visit(top.node, top.rest - {b})];
    assert after[..k] == stack[..k];
    StackWeakens(edges, flagged, rank, stack[..k], {top.node}, flagged', rank);
  }

  lemma BackEdge(edges: Edges, flagged: set<Edge>, rank: map<Name, nat>, stack: seq<Visit>, b: Name)
    requires StackOk(edges, flagged, rank, stack, {}) && FlagsSound(edges, flagged)
    requires stack != [] && b in stack[|stack| - 1].rest && b in Nodes(stack)
    ensures FlagsSound(edges, flagged + {(stack[|stack| - 1].node, b)})
  {
    var p := StackConnects(edges, flagged, rank, stack, {}, b);
    assert Connects(edges, p, b, stack[|stack| - 1].node);
  }

  // The top visit takes a child that is grey (flagged now) or finished.
  lemma ChildTaken(edges: Edges, colors: map<Name, Color>, flagged: set<Edge>, rank: map<Name, nat>, stack: seq<Visit>,
        b: Name)
    requires SearchOk(edges, colors, flagged, rank, stack)
    requires stack != [] && b in stack[|stack| - 1].rest && b in colors
    ensures var top := stack[|stack| - 1];
            SearchOk(edges, colors, if colors[b] == Grey then flagged + {(top.node, b)} else flagged, rank,
                     stack[..|stack| - 1] + [Visit(top.node, top.rest - {b})])
  {
    hide FlagsSound, Finished, StackOk;
    var top := stack[|stack| - 1];
    var flagged' := if colors[b] == Grey then flagged + {(top.node, b)} else flagged;
    ChildGone(edges, flagged, rank, stack, b, flagged', {});
    if colors[b] == Grey { BackEdge(edges, flagged, rank, stack, b); }
    MoreFlags(edges, colors, flagged, rank, Nodes(stack), flagged');
  }

  lemma Pushed(edges: Edges, flagged: set<Edge>, rank: map<Name, nat>, below: seq<Visit>, b: Name)
    requires StackOk(edges, flagged, rank, below, {b}) && b !in Nodes(below)
    ensures var after := below + [Visit(b, Children(edges, b))];
            StackOk(edges, flagged, rank, after, {}) && Nodes(after) == Nodes(below) + {b}
  { }

  // The top visit takes a child not seen before, and it is visited next.
  lemma ChildVisited(edges: Edges, colors: map<Name, Color>, flagged: set<Edge>, rank: map<Name, nat>,
        stack: seq<Visit>, b: Name)
    requires SearchOk(edges, colors, flagged, rank, stack)
    requires stack != [] && b in stack[|stack| - 1].rest && b !in colors
    ensures var top := stack[|stack| - 1];
            SearchOk(edges, colors[b := Grey], flagged, rank,
                     stack[..|stack| - 1] + [Visit(top.node, top.rest - {b}), Visit(b, Children(edges, b))])
  {
    hide FlagsSound, Finished, StackOk;
    var k := |stack| - 1;
    var top := stack[k];
    var below := stack[..k] + [Visit(top.node, top.rest - {b})];
    ChildGone(edges, flagged, rank, stack, b, flagged, {b});
    Pushed(edges, flagged, rank, below, b);
    assert below + [Visit(b, Children(edges, b))]
        == stack[..k] + [Visit(top.node, top.rest - {b}), Visit(b, Children(edges, b))];
    Greyed(edges, colors, flagged, rank, Nodes(stack), b);
  }

  lemma {:induction false} RanksFall(edges: Edges, flagged: set<Edge>, rank: map<Name, nat>, p: seq<Name>)
    requires forall a :: a in rank ==> Finished(edges, flagged, rank, a)
    requires forall a :: a in edges ==> a in rank
    requires Spared(edges, flagged, p) && |p| > 1
    ensures p[0] in rank && p[|p| - 1] in rank && rank[p[|p| - 1]] < rank[p[0]]
  {
    assert Link(edges, p[0], p[1]) && Finished(edges, flagged, rank, p[0]);
    if |p| > 2 {
      var q := p[1..];
      forall i | 0 <= i < |q| - 1 ensures Link(edges, q[i], q[i + 1]) && (q[i], q[i + 1]) !in flagged {
        assert q[i] == p[i + 1];
      }
      RanksFall(edges, flagged, rank, q);
    }
  }

  ghost function Pending(stack: seq<Visit>): nat {
    if stack == [] then 0 else |stack[|stack| - 1].rest| + 1 + Pending(stack[..|stack| - 1])
  }

  lemma PendingFalls(stack: seq<Visit>, b: Name)
    requires stack != [] && b in stack[|stack| - 1].rest
    ensures var top := stack[|stack| - 1];
            Pending(stack[..|stack| - 1] + [Visit(top.node, top.rest - {b})]) < Pending(stack)
  { }

  ghost function Universe(edges: Edges): set<Name> {
    edges.Keys + set a, b | a in edges && b in edges[a] :: b
  }

  lemma FirstVisit(edges: Edges, start: Name, colors: map<Name, Color>, flagged: set<Edge>, rank: map<Name, nat>)
    requires SearchOk(edges, colors, flagged, rank, []) && start in edges && start !in colors
    ensures SearchOk(edges, colors[start := Grey], flagged, rank, [Visit(start, edges[start])])
    ensures start in Universe(edges)
  {
    Greyed(edges, colors, flagged, rank, {}, start);
  }

  lemma TopKnown(edges: Edges, colors: map<Name, Color>, flagged: set<Edge>, rank: map<Name, nat>, stack: seq<Visit>)
    requires SearchOk(edges, colors, flagged, rank, stack) && stack != []
    ensures stack[|stack| - 1].node in colors && stack[|stack| - 1].rest <= Universe(edges)
  { }

  // Visit everything that can be reached from `start`.
  method Search(edges: Edges, start: Name, colors0: map<Name, Color>, flagged0: set<Edge>, ghost rank0: map<Name, nat>)
    returns (colors: map<Name, Color>, flagged: set<Edge>, ghost rank: map<Name, nat>)
    requires SearchOk(edges, colors0, flagged0, rank0, []) && start in edges && start !in colors0
    requires colors0.Keys <= Universe(edges)
    ensures SearchOk(edges, colors, flagged, rank, [])
    ensures colors0.Keys + {start} <= colors.Keys <= Universe(edges)
  {
    hide SearchOk, Universe;
    FirstVisit(edges, start, colors0, flagged0, rank0);
    colors, flagged, rank := colors0[start := Grey], flagged0, rank0;
    var stack := [Visit(start, edges[start])];
    while stack != []
      invariant SearchOk(edges, colors, flagged, rank, stack)
      invariant colors0.Keys + {start} <= colors.Keys <= Universe(edges)
      decreases Universe(edges) - colors.Keys, Pending(stack)
    {
      var k := |stack| - 1;
      var top := stack[k];
      TopKnown(edges, colors, flagged, rank, stack);
      if top.rest == {} {
        VisitOver(edges, colors, flagged, rank, stack);
        rank := rank[top.node := |rank|];
        colors := colors[top.node := Black];
        stack := stack[..k];
        continue;
      }
      var child :| child in top.rest;
      var taken := Visit(top.node, top.rest - {child});
      if child in colors {
        ChildTaken(edges, colors, flagged, rank, stack, child);
        if colors[child] == Grey { flagged := flagged + {(top.node, child)}; }
        PendingFalls(stack, child);
        stack := stack[..k] + [taken];
      } else {
        assert child in Universe(edges) - colors.Keys;
        ChildVisited(edges, colors, flagged, rank, stack, child);
        colors := colors[child := Grey];
        stack := stack[..k] + [taken, Visit(child, if child in edges then edges[child] else {})];
      }
    }
  }

  // Every flagged edge closes a cycle of listed edges, and without the flagged
  // edges no cycle is left.
  method MarkCycles(edges: Edges) returns (flagged: set<Edge>)
    ensures forall e :: e in flagged ==> Link(edges, e.0, e.1) && exists p :: Connects(edges, p, e.1, e.0)
    ensures Acyclic(edges, flagged)
  {
    var colors: map<Name, Color> := map[];
    flagged := {};
    ghost var rank: map<Name, nat> := map[];
    var starts := edges.Keys;
    while starts != {}
      invariant starts <= edges.Keys && edges.Keys - starts <= colors.Keys <= Universe(edges)
      invariant SearchOk(edges, colors, flagged, rank, [])
    {
      var start :| start in starts;
      if start !in colors {
        colors, flagged, rank := Search(edges, start, colors, flagged, rank);
      }
      starts := starts - {start};
    }
    forall a | a in edges ensures a in rank { assert a in colors; }
    forall p: seq<Name> | Spared(edges, flagged, p) && |p| > 1 ensures p[0] != p[|p| - 1] {
      RanksFall(edges, flagged, rank, p);
    }
  }
}
