/** How much work the resolver can do: every alias is walked once at most. */
module LockWork {
  import opened LockGraph

  // What walking the alias of an edge takes: one step an input and one at its end.
  function Cost(g: Lock, e: Edge): nat {
    if e.0 in g.nodes && e.1 in g.nodes[e.0] && g.nodes[e.0][e.1].Follows? then |g.nodes[e.0][e.1].path| + 1 else 0
  }

  function AliasEdges(g: Lock): set<Edge> {
    set n, key | n in g.nodes && key in g.nodes[n] && g.nodes[n][key].Follows? :: (n, key)
  }

  ghost function Weight(g: Lock, edges: set<Edge>): nat {
    if edges == {} then 0
    else
      var e :| e in edges;
      Cost(g, e) + Weight(g, edges - {e})
  }

  // Whichever edge is taken away, its cost goes with it.
  lemma {:induction false} WeightWithout(g: Lock, edges: set<Edge>, e: Edge)
    requires e in edges
    ensures Weight(g, edges) == Cost(g, e) + Weight(g, edges - {e})
    decreases |edges|
  {
    hide Cost;
    var f :| f in edges && Weight(g, edges) == Cost(g, f) + Weight(g, edges - {f});
    if e != f {
      WeightWithout(g, edges - {f}, e);
      WeightWithout(g, edges - {e}, f);
      assert edges - {f} - {e} == edges - {e} - {f};
    }
  }

  // The aliases that are neither resolved nor being walked.
  ghost function Open(g: Lock, resolved: set<Edge>, active: set<Edge>): set<Edge> { AliasEdges(g) - resolved - active }

  lemma AliasOpened(g: Lock, resolved: set<Edge>, active: set<Edge>, e: Edge)
    requires e in AliasEdges(g) && e !in resolved && e !in active
    ensures Weight(g, Open(g, resolved, active)) == Cost(g, e) + Weight(g, Open(g, resolved, active + {e}))
  {
    hide Cost, Weight;
    WeightWithout(g, Open(g, resolved, active), e);
    assert Open(g, resolved, active) - {e} == Open(g, resolved, active + {e});
  }
}
