/**
 A flake lock graph and the meaning of its input paths. An input names a node
 outright, or follows another path from the root. Walk gives a path its meaning
 with at most `depth` aliases followed inside one another.
 */
module LockGraph {
  type Name = string
  type Path = seq<Name>
  type Edge = (Name, Name)   // a node and one of its inputs

  datatype Reference = Direct(node: Name) | Follows(path: Path)

  datatype Lock = Lock(root: Name, nodes: map<Name, map<Name, Reference>>)

  // What Graph::new has checked of the graph's shape.
  ghost predicate WellFormed(g: Lock) {
    && g.root in g.nodes
    && forall n, key :: n in g.nodes && key in g.nodes[n] && g.nodes[n][key].Direct? ==> g.nodes[n][key].node in g.nodes
  }

  datatype Sight = Reaches(node: Name) | Missing | Deep

  ghost function Walk(g: Lock, node: Name, path: Path, depth: nat): (r: Sight)
    requires WellFormed(g) && node in g.nodes
    ensures r.Reaches? ==> r.node in g.nodes
    decreases depth, |path|
  {
    if path == [] then Reaches(node)
    else if path[0] !in g.nodes[node] then Missing
    else match g.nodes[node][path[0]]
      case Direct(next) => Walk(g, next, path[1..], depth)
      case Follows(alias) =>
        if depth == 0 then Deep
        else match Walk(g, g.root, alias, depth - 1)
          case Reaches(next) => Walk(g, next, path[1..], depth)
          case other => other
  }

  // A finite derivation of `node` exists for the path from `start`.
  ghost predicate Leads(g: Lock, start: Name, path: Path, node: Name)
    requires WellFormed(g) && start in g.nodes
  {
    exists d: nat :: Walk(g, start, path, d) == Reaches(node)
  }

  ghost predicate Derives(g: Lock, path: Path, node: Name)
    requires WellFormed(g)
  {
    Leads(g, g.root, path, node)
  }

  ghost predicate DerivesMissing(g: Lock, path: Path)
    requires WellFormed(g)
  {
    exists d: nat :: Walk(g, g.root, path, d) == Missing
  }

  // No finite derivation of anything: the aliases go round in circles.
  ghost predicate Endless(g: Lock, path: Path)
    requires WellFormed(g)
  {
    forall d: nat :: Walk(g, g.root, path, d) == Deep
  }

  // What a walk finds at some depth it finds at every greater depth.
  lemma {:induction false} WalkMonotone(g: Lock, node: Name, path: Path, d: nat, e: nat)
    requires WellFormed(g) && node in g.nodes && d <= e
    requires Walk(g, node, path, d) != Deep
    ensures Walk(g, node, path, e) == Walk(g, node, path, d)
    decreases d, |path|
  {
    if path != [] && path[0] in g.nodes[node] {
      match g.nodes[node][path[0]]
      case Direct(next) => WalkMonotone(g, next, path[1..], d, e);
      case Follows(alias) =>
        WalkMonotone(g, g.root, alias, d - 1, e - 1);
        if Walk(g, g.root, alias, d - 1).Reaches? {
          WalkMonotone(g, Walk(g, g.root, alias, d - 1).node, path[1..], d, e);
        }
    }
  }

  // So the three verdicts exclude one another, and a node is unique.
  lemma VerdictsExclusive(g: Lock, start: Name, path: Path, m: Name, n: Name)
    requires WellFormed(g) && start in g.nodes && Leads(g, start, path, m)
    ensures Leads(g, start, path, n) ==> m == n
    ensures start == g.root ==> !DerivesMissing(g, path) && !Endless(g, path)
  {
    var d: nat :| Walk(g, start, path, d) == Reaches(m);
    forall e: nat ensures Walk(g, start, path, e) in {Reaches(m), Deep} {
      if Walk(g, start, path, e) != Deep {
        if d <= e { WalkMonotone(g, start, path, d, e); } else { WalkMonotone(g, start, path, e, d); }
      }
    }
  }

  // Walking p and then q.
  lemma {:induction false} WalkConcat(g: Lock, node: Name, p: Path, q: Path, d: nat)
    requires WellFormed(g) && node in g.nodes
    ensures Walk(g, node, p + q, d) ==
            match Walk(g, node, p, d) case Reaches(next) => Walk(g, next, q, d) case other => other
    decreases |p|
  {
    if p == [] {
      assert p + q == q;
    } else if p[0] in g.nodes[node] {
      assert (p + q)[1..] == p[1..] + q;
      match g.nodes[node][p[0]]
      case Direct(next) => WalkConcat(g, next, p[1..], q, d);
      case Follows(alias) =>
        if d > 0 && Walk(g, g.root, alias, d - 1).Reaches? {
          WalkConcat(g, Walk(g, g.root, alias, d - 1).node, p[1..], q, d);
        }
    }
  }

  lemma LeadsConcat(g: Lock, a: Name, p: Path, b: Name, q: Path, c: Name)
    requires WellFormed(g) && a in g.nodes && Leads(g, a, p, b) && b in g.nodes && Leads(g, b, q, c)
    ensures Leads(g, a, p + q, c)
  {
    var d: nat :| Walk(g, a, p, d) == Reaches(b);
    var e: nat :| Walk(g, b, q, e) == Reaches(c);
    var f := if d < e then e else d;
    WalkMonotone(g, a, p, d, f);
    WalkMonotone(g, b, q, e, f);
    WalkConcat(g, a, p, q, f);
  }

  lemma LeadsPrefix(g: Lock, a: Name, p: Path, b: Name, q: Path, c: Name)
    requires WellFormed(g) && a in g.nodes && Leads(g, a, p, b) && Leads(g, a, p + q, c)
    ensures b in g.nodes && Leads(g, b, q, c)
  {
    var d: nat :| Walk(g, a, p, d) == Reaches(b);
    var e: nat :| Walk(g, a, p + q, e) == Reaches(c);
    WalkConcat(g, a, p, q, e);
    var f := if d < e then e else d;
    WalkMonotone(g, a, p, d, f);
    WalkMonotone(g, a, p + q, e, f);
    WalkConcat(g, a, p, q, f);
  }

  // ---------- how far a frame has come ----------

  // A walk of `origin` from the root now stands at `node` with `rest` to go: it
  // never finds anything else, and from some depth on finds the same.
  ghost predicate StandsAt(g: Lock, origin: Path, node: Name, rest: Path)
    requires WellFormed(g)
  {
    && node in g.nodes
    && (forall d: nat {:trigger Walk(g, g.root, origin, d)} ::
          Walk(g, g.root, origin, d) == Deep || Walk(g, g.root, origin, d) == Walk(g, node, rest, d))
    && exists enough: nat :: Settled(g, origin, node, rest, enough)
  }

  ghost predicate Settled(g: Lock, origin: Path, node: Name, rest: Path, enough: nat)
    requires WellFormed(g) && node in g.nodes
  {
    forall d: nat {:trigger Walk(g, g.root, origin, d)} :: enough <= d ==>
      Walk(g, g.root, origin, d) == Walk(g, node, rest, d)
  }

  lemma StandsAtStart(g: Lock, origin: Path)
    requires WellFormed(g)
    ensures StandsAt(g, origin, g.root, origin)
  {
    assert Settled(g, origin, g.root, origin, 0);
  }

  // Taking a direct input.
  lemma StepDirect(g: Lock, origin: Path, node: Name, rest: Path)
    requires WellFormed(g) && StandsAt(g, origin, node, rest)
    requires rest != [] && rest[0] in g.nodes[node] && g.nodes[node][rest[0]].Direct?
    ensures StandsAt(g, origin, g.nodes[node][rest[0]].node, rest[1..])
  {
    var enough: nat :| Settled(g, origin, node, rest, enough);
    assert Settled(g, origin, g.nodes[node][rest[0]].node, rest[1..], enough);
  }

  // Taking an alias whose resolution is known.
  lemma StepAlias(g: Lock, origin: Path, node: Name, rest: Path, alias: Path, next: Name)
    requires WellFormed(g) && StandsAt(g, origin, node, rest)
    requires rest != [] && rest[0] in g.nodes[node] && g.nodes[node][rest[0]] == Follows(alias)
    requires Derives(g, alias, next)
    ensures StandsAt(g, origin, next, rest[1..])
  {
    var enough: nat :| Settled(g, origin, node, rest, enough);
    var e: nat :| Walk(g, g.root, alias, e) == Reaches(next);
    forall d: nat
      ensures Walk(g, node, rest, d) == Deep || Walk(g, node, rest, d) == Walk(g, next, rest[1..], d)
      ensures e < d ==> Walk(g, node, rest, d) == Walk(g, next, rest[1..], d)
    {
      if d > 0 {
        if e <= d - 1 { WalkMonotone(g, g.root, alias, e, d - 1); }
        else if Walk(g, g.root, alias, d - 1) != Deep { WalkMonotone(g, g.root, alias, d - 1, e); }
      }
    }
    assert Settled(g, origin, next, rest[1..], if enough <= e then e + 1 else enough);
  }

  // Nothing left to walk: the origin is resolved.
  lemma StandsAtEnd(g: Lock, origin: Path, node: Name)
    requires WellFormed(g) && StandsAt(g, origin, node, [])
    ensures Derives(g, origin, node)
  {
    var enough: nat :| Settled(g, origin, node, [], enough);
    assert Walk(g, g.root, origin, enough) == Reaches(node);
  }

  // The next input is missing: the origin's walk ends there.
  lemma StandsAtMissing(g: Lock, origin: Path, node: Name, rest: Path)
    requires WellFormed(g) && StandsAt(g, origin, node, rest)
    requires rest != [] && rest[0] !in g.nodes[node]
    ensures DerivesMissing(g, origin)
  {
    var enough: nat :| Settled(g, origin, node, rest, enough);
    assert Walk(g, g.root, origin, enough) == Missing;
  }

  // The next input is an alias that ends at a missing one.
  lemma StandsAtMissingAlias(g: Lock, origin: Path, node: Name, rest: Path, alias: Path)
    requires WellFormed(g) && StandsAt(g, origin, node, rest)
    requires rest != [] && rest[0] in g.nodes[node] && g.nodes[node][rest[0]] == Follows(alias)
    requires DerivesMissing(g, alias)
    ensures DerivesMissing(g, origin)
  {
    var enough: nat :| Settled(g, origin, node, rest, enough);
    var e: nat :| Walk(g, g.root, alias, e) == Missing;
    var d := if enough <= e then e + 1 else enough;
    WalkMonotone(g, g.root, alias, e, d - 1);
    assert Walk(g, g.root, origin, d) == Missing;
  }

  // A walk that gets past an alias got through the alias one level further down.
  lemma AliasBelow(g: Lock, origin: Path, node: Name, rest: Path, alias: Path, d: nat)
    requires WellFormed(g) && StandsAt(g, origin, node, rest)
    requires rest != [] && rest[0] in g.nodes[node] && g.nodes[node][rest[0]] == Follows(alias)
    requires Walk(g, g.root, origin, d) != Deep
    ensures d > 0 && Walk(g, g.root, alias, d - 1) != Deep
  { }
}
