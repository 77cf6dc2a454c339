/** The iterative resolver: an explicit stack of aliases, a memo, an active set. */
module LockResolver {
  import opened Prelude
  import opened LockGraph
  import opened LockWork

  const MAX_WORK := 1_000_000

  datatype Failure = MissingInput | CyclicFollows | TraversalLimit

  datatype Frame = Frame(node: Name, path: Path, edge: Option<Edge>)

  ghost predicate IsAlias(g: Lock, e: Edge) {
    e.0 in g.nodes && e.1 in g.nodes[e.0] && g.nodes[e.0][e.1].Follows?
  }

  ghost function Alias(g: Lock, e: Edge): Path
    requires IsAlias(g, e)
  {
    g.nodes[e.0][e.1].path
  }

  // Every memo entry is the true resolution of its edge.
  ghost predicate MemoTrue(g: Lock, memo: map<Edge, Name>)
    requires WellFormed(g)
  {
    forall e {:trigger IsAlias(g, e)} {:trigger memo[e]} :: e in memo ==>
      IsAlias(g, e) && Derives(g, Alias(g, e), memo[e])
  }

  // ---------- the frame stack ----------

  ghost predicate IsAlias'(g: Lock, e: Option<Edge>) {
    e.Some? && IsAlias(g, e.value)
  }

  // The path that the top frame walks from the root.
  ghost function Origin(g: Lock, path: Path, frames: seq<Frame>): Path
    requires frames != [] && (|frames| > 1 ==> IsAlias'(g, frames[|frames| - 1].edge))
  {
    if |frames| == 1 then path else Alias(g, frames[|frames| - 1].edge.value)
  }

  // The aliases that are being walked.
  ghost function Active(frames: seq<Frame>): set<Edge> {
    if |frames| <= 1 then {}
    else Active(frames[..|frames| - 1]) + match frames[|frames| - 1].edge case Some(e) => {e} case None => {}
  }

  // The top frame has come from its origin to its node, with `rest` to go. The
  // frame below waits before the input whose alias the top frame walks.
  ghost predicate StackOk(g: Lock, path: Path, frames: seq<Frame>, rest: Path)
    requires WellFormed(g)
  {
    && frames != []
    && var k := |frames| - 1;
    && (k == 0 <==> frames[k].edge.None?)
    && (k > 0 ==>
          && IsAlias'(g, frames[k].edge)
          && frames[k].edge.value.0 == frames[k - 1].node
          && frames[k].edge.value !in Active(frames[..k])
          && StackOk(g, path, frames[..k], [frames[k].edge.value.1] + frames[k - 1].path))
    && StandsAt(g, Origin(g, path, frames), frames[k].node, rest)
  }

  // If the alias of `e`, somewhere on the stack, gets through in depth d, the
  // walk of the top frame gets through in no more.
  lemma {:induction false} Descend(g: Lock, path: Path, frames: seq<Frame>, rest: Path, e: Edge, d: nat)
    returns (less: nat)
    requires WellFormed(g) && StackOk(g, path, frames, rest) && e in Active(frames) && IsAlias(g, e)
    requires Walk(g, g.root, Alias(g, e), d) != Deep
    ensures less <= d && Walk(g, g.root, Origin(g, path, frames), less) != Deep
  {
    var k := |frames| - 1;
    if frames[k].edge == Some(e) {
      less := d;
    } else {
      var waiting := [frames[k].edge.value.1] + frames[k - 1].path;
      less := Descend(g, path, frames[..k], waiting, e, d);
      AliasBelow(g, Origin(g, path, frames[..k]), frames[k - 1].node, waiting, Origin(g, path, frames), less);
      less := less - 1;
    }
  }

  // If the whole path gets through in depth d, so does the walk of every frame.
  lemma {:induction false} Climb(g: Lock, path: Path, frames: seq<Frame>, rest: Path, d: nat) returns (less: nat)
    requires WellFormed(g) && StackOk(g, path, frames, rest)
    requires Walk(g, g.root, path, d) != Deep
    ensures Walk(g, g.root, Origin(g, path, frames), less) != Deep
  {
    var k := |frames| - 1;
    less := d;
    if k > 0 {
      var waiting := [frames[k].edge.value.1] + frames[k - 1].path;
      less := Climb(g, path, frames[..k], waiting, d);
      AliasBelow(g, Origin(g, path, frames[..k]), frames[k - 1].node, waiting, Origin(g, path, frames), less);
      less := less - 1;
    }
  }

  // If the top frame meets an alias that is already being walked, that alias
  // cannot be derived at any depth: it would get through in less than it takes.
  lemma {:induction false} CycleHopeless(g: Lock, path: Path, frames: seq<Frame>, e: Edge, d: nat)
    requires WellFormed(g) && frames != [] && StackOk(g, path, frames, frames[|frames| - 1].path)
    requires var top := frames[|frames| - 1]; top.path != [] && e == (top.node, top.path[0])
    requires e in Active(frames) && IsAlias(g, e)
    ensures Walk(g, g.root, Alias(g, e), d) == Deep
    decreases d
  {
    if Walk(g, g.root, Alias(g, e), d) != Deep {
      var top := frames[|frames| - 1];
      var less := Descend(g, path, frames, top.path, e, d);
      AliasBelow(g, Origin(g, path, frames), top.node, top.path, Alias(g, e), less);
      CycleHopeless(g, path, frames, e, less - 1);
    }
  }

  lemma CycleEndless(g: Lock, path: Path, frames: seq<Frame>, e: Edge)
    requires WellFormed(g) && frames != [] && StackOk(g, path, frames, frames[|frames| - 1].path)
    requires var top := frames[|frames| - 1]; top.path != [] && e == (top.node, top.path[0])
    requires e in Active(frames) && IsAlias(g, e)
    ensures Endless(g, path)
  {
    forall d: nat ensures Walk(g, g.root, path, d) == Deep {
      if Walk(g, g.root, path, d) != Deep {
        var top := frames[|frames| - 1];
        var less := Climb(g, path, frames, top.path, d);
        AliasBelow(g, Origin(g, path, frames), top.node, top.path, Alias(g, e), less);
        CycleHopeless(g, path, frames, e, less - 1);
      }
    }
  }

  // If the top frame meets a missing input, the whole path does.
  lemma {:induction false} MissingBelow(g: Lock, path: Path, frames: seq<Frame>, rest: Path)
    requires WellFormed(g) && StackOk(g, path, frames, rest)
    requires DerivesMissing(g, Origin(g, path, frames))
    ensures DerivesMissing(g, path)
  {
    var k := |frames| - 1;
    if k > 0 {
      var waiting := [frames[k].edge.value.1] + frames[k - 1].path;
      StandsAtMissingAlias(g, Origin(g, path, frames[..k]), frames[k - 1].node, waiting, Origin(g, path, frames));
      MissingBelow(g, path, frames[..k], waiting);
    }
  }

  // Replacing the top frame by one that stands further on.
  lemma TopMoves(g: Lock, path: Path, frames: seq<Frame>, rest: Path, node: Name, left: Path, rest': Path)
    requires WellFormed(g) && StackOk(g, path, frames, rest)
    requires StandsAt(g, Origin(g, path, frames), node, rest')
    ensures var after := frames[..|frames| - 1] + [frames[|frames| - 1].(node := node, path := left)];
            StackOk(g, path, after, rest') && Active(after) == Active(frames)
  { }

  // Following an alias: the top frame keeps its place, a new one starts.
  lemma AliasPushed(g: Lock, path: Path, frames: seq<Frame>, edge: Edge)
    requires WellFormed(g) && frames != [] && StackOk(g, path, frames, frames[|frames| - 1].path) && IsAlias(g, edge)
    requires var top := frames[|frames| - 1]; top.path != [] && edge == (top.node, top.path[0])
    requires edge !in Active(frames)
    ensures var top := frames[|frames| - 1];
            var after := frames[..|frames| - 1]
              + [top.(path := top.path[1..]), Frame(g.root, Alias(g, edge), Some(edge))];
            StackOk(g, path, after, Alias(g, edge)) && Active(after) == Active(frames) + {edge}
  {
    hide StandsAt, Walk, Leads;
    var k := |frames| - 1;
    var top := frames[k];
    var waiting := frames[..k] + [top.(path := top.path[1..])];
    var after := frames[..k] + [top.(path := top.path[1..]), Frame(g.root, Alias(g, edge), Some(edge))];
    assert [top.path[0]] + top.path[1..] == top.path;
    assert frames[k].(node := top.node, path := top.path[1..]) == top.(path := top.path[1..]);
    TopMoves(g, path, frames, top.path, top.node, top.path[1..], top.path);
    assert after[..k + 1] == waiting;
    StandsAtStart(g, Alias(g, edge));
  }

  // The top frame is through: its alias is resolved, and the frame below moves on.
  lemma AliasPopped(g: Lock, path: Path, frames: seq<Frame>)
    requires WellFormed(g) && frames != [] && StackOk(g, path, frames, [])
    requires |frames| > 1
    ensures Derives(g, Origin(g, path, frames), frames[|frames| - 1].node)
    ensures var below := frames[|frames| - 2];
            var after := frames[..|frames| - 2] + [below.(node := frames[|frames| - 1].node)];
            && StackOk(g, path, after, below.path)
            && Active(after) == Active(frames) - {frames[|frames| - 1].edge.value}
  {
    hide StandsAt, Walk, Leads;
    var k := |frames| - 1;
    var below := frames[k - 1];
    var waiting := [frames[k].edge.value.1] + below.path;
    StandsAtEnd(g, Origin(g, path, frames), frames[k].node);
    StepAlias(g, Origin(g, path, frames[..k]), below.node, waiting, Origin(g, path, frames), frames[k].node);
    assert waiting[1..] == below.path;
    assert frames[..k][..k - 1] == frames[..k - 1];
    TopMoves(g, path, frames[..k], waiting, frames[k].node, below.path, below.path);
  }

  ghost predicate Grows(before: map<Edge, Name>, after: map<Edge, Name>) {
    forall e :: e in before ==> e in after && after[e] == before[e]
  }

  lemma StandsInGraph(g: Lock, origin: Path, node: Name, rest: Path)
    requires WellFormed(g) && StandsAt(g, origin, node, rest)
    ensures node in g.nodes
  { }

  // The steps still to come on the stack: the inputs left, and one pop a frame.
  ghost function Remaining(frames: seq<Frame>): nat {
    if frames == [] then 0 else Remaining(frames[..|frames| - 1]) + |frames[|frames| - 1].path| + 1
  }

  // Steps done, steps on the stack, and what the aliases not yet met can add.
  ghost function Expense(g: Lock, work: nat, frames: seq<Frame>, resolved: set<Edge>, active: set<Edge>): nat {
    work + Remaining(frames) + Weight(g, Open(g, resolved, active))
  }

  lemma StepSpends(g: Lock, work: nat, frames: seq<Frame>, resolved: set<Edge>, active: set<Edge>, node: Name)
    requires frames != [] && frames[|frames| - 1].path != []
    ensures var top := frames[|frames| - 1];
      Expense(g, work + 1, frames[..|frames| - 1] + [top.(node := node, path := top.path[1..])], resolved, active)
      == Expense(g, work, frames, resolved, active)
  {
    hide Weight, Open;
    var top := frames[|frames| - 1];
    var after := frames[..|frames| - 1] + [top.(node := node, path := top.path[1..])];
    assert after[..|after| - 1] == frames[..|frames| - 1];
    assert Remaining(after) + 1 == Remaining(frames);
  }

  lemma PushSpends(g: Lock, work: nat, frames: seq<Frame>, resolved: set<Edge>, active: set<Edge>, e: Edge)
    requires WellFormed(g) && frames != [] && frames[|frames| - 1].path != []
    requires IsAlias(g, e) && e !in resolved && e !in active
    ensures var top := frames[|frames| - 1];
      Expense(g, work + 1, frames[..|frames| - 1] + [top.(path := top.path[1..]), Frame(g.root, Alias(g, e), Some(e))],
        resolved, active + {e})
      == Expense(g, work, frames, resolved, active)
  {
    hide Weight, Open;
    var top := frames[|frames| - 1];
    var moved := frames[..|frames| - 1] + [top.(path := top.path[1..])];
    var after := frames[..|frames| - 1] + [top.(path := top.path[1..]), Frame(g.root, Alias(g, e), Some(e))];
    assert moved[..|frames| - 1] == frames[..|frames| - 1];
    assert after[..|frames|] == moved;
    assert Remaining(moved) + 1 == Remaining(frames);
    assert Remaining(after) == Remaining(moved) + |Alias(g, e)| + 1;
    assert e in AliasEdges(g) by { assert e == (e.0, e.1); }
    AliasOpened(g, resolved, active, e);
  }

  lemma PopSpends(g: Lock, work: nat, frames: seq<Frame>, resolved: set<Edge>, active: set<Edge>, e: Edge)
    requires |frames| > 1 && frames[|frames| - 1].path == [] && e in active
    ensures var k := |frames| - 1;
      Expense(g, work + 1, frames[..k - 1] + [frames[k - 1].(node := frames[k].node)], resolved + {e}, active - {e})
      == Expense(g, work, frames, resolved, active)
  {
    hide Weight;
    var k := |frames| - 1;
    var after := frames[..k - 1] + [frames[k - 1].(node := frames[k].node)];
    assert after[..k - 1] == frames[..k - 1] == frames[..k][..k - 1];
    assert Remaining(frames) == Remaining(frames[..k]) + 1;
    assert Remaining(frames[..k]) == Remaining(frames[..k - 1]) + |frames[k - 1].path| + 1;
    assert Remaining(after) == Remaining(frames[..k]);
    assert Open(g, resolved + {e}, active - {e}) == Open(g, resolved, active);
  }

  lemma TopRemains(frames: seq<Frame>)
    requires frames != []
    ensures Remaining(frames) >= |frames[|frames| - 1].path| + 1
  { }

  class Graph {
    const lock: Lock
    var resolved: map<Edge, Name>
    var work: nat

    ghost predicate Valid()
      reads this
    {
      WellFormed(lock) && MemoTrue(lock, resolved)
    }

    constructor (lock: Lock)
      requires WellFormed(lock)
      ensures this.lock == lock && Valid() && work == 0 && resolved == map[]
    {
      this.lock := lock;
      resolved, work := map[], 0;
    }

    // The top frame is through: remember its alias and hand its node down.
    method Pop(ghost path: Path, frames: seq<Frame>, active: set<Edge>) returns (popped: seq<Frame>, left: set<Edge>)
      requires Valid() && |frames| > 1 && frames[|frames| - 1].path == []
      requires StackOk(lock, path, frames, []) && active == Active(frames)
      modifies this`resolved
      ensures Valid() && Grows(old(resolved), resolved)
      ensures popped != [] && StackOk(lock, path, popped, popped[|popped| - 1].path) && left == Active(popped)
      ensures Expense(lock, work + 1, popped, resolved.Keys, left) ==
                Expense(lock, work, frames, old(resolved).Keys, active)
    {
      hide StandsAt, Walk, Leads, Derives;
      var k := |frames| - 1;
      var frame := frames[k];
      AliasPopped(lock, path, frames);
      left := active - {frame.edge.value};
      PopSpends(lock, work, frames, resolved.Keys, active, frame.edge.value);
      KeepMemo(frame.edge.value, frame.node);
      assert resolved[frame.edge.value := frame.node].Keys == resolved.Keys + {frame.edge.value};
      resolved := resolved[frame.edge.value := frame.node];
      popped := frames[..k - 1] + [frames[k - 1].(node := frame.node)];
    }

    // Below the traversal limit the answer is the path's meaning: a node exactly
    // when a finite derivation of it exists, a missing input exactly when one of
    // that exists, a cycle exactly when nothing can be derived at any depth. The
    // memo stays true and keeps what it had. It takes one step an input, and the
    // aliases it resolves on the way are paid for once and for all.
    method Resolve(path: Path) returns (r: Result<Name, Failure>)
      requires Valid()
      modifies this
      ensures Valid() && old(work) <= work
      ensures Grows(old(resolved), resolved)
      ensures r == Err(TraversalLimit) <==> work > MAX_WORK
      ensures r != Err(TraversalLimit) ==>
                && (forall n: Name :: r == Ok(n) <==> Derives(lock, path, n))
                && (r == Err(MissingInput) <==> DerivesMissing(lock, path))
                && (r == Err(CyclicFollows) <==> Endless(lock, path))
      ensures work <= old(Spent()) + |path| + 1
      ensures r.Ok? ==> Spent() <= old(Spent()) + |path| + 1
    {
      hide StandsAt, Walk, Leads, Derives, DerivesMissing, Endless, Weight, Open, Remaining;
      var frames := [Frame(lock.root, path, None)];
      var active: set<Edge> := {};
      StandsAtStart(lock, path);
      ghost var bound := Spent() + |path| + 1;
      FirstExpense(path, frames);
      while frames != []
        invariant Valid() && old(work) <= work
        invariant frames != [] && StackOk(lock, path, frames, frames[|frames| - 1].path) && active == Active(frames)
        invariant Grows(old(resolved), resolved)
        invariant Expense(lock, work, frames, resolved.Keys, active) <= bound
        decreases MAX_WORK - work
      {
        var k := |frames| - 1;
        var frame := frames[k];
        ghost var origin := Origin(lock, path, frames);
        StandsInGraph(lock, origin, frame.node, frame.path);
        TopRemains(frames);
        ghost var before := work;
        work := work + 1;
        if work > MAX_WORK { return Err(TraversalLimit); }
        if frame.path == [] {
          if k == 0 {
            StandsAtEnd(lock, path, frame.node);
            Verdict(path, frame.node);
            return Ok(frame.node);
          }
          frames, active := Pop(path, frames, active);
          continue;
        }
        var part := frame.path[0];
        var edge := (frame.node, part);
        if part !in lock.nodes[frame.node] {
          StandsAtMissing(lock, origin, frame.node, frame.path);
          MissingBelow(lock, path, frames, frame.path);
          VerdictMissing(path);
          return Err(MissingInput);
        }
        match lock.nodes[frame.node][part] {
          case Direct(node) =>
            StepDirect(lock, origin, frame.node, frame.path);
            TopMoves(lock, path, frames, frame.path, node, frame.path[1..], frame.path[1..]);
            StepSpends(lock, before, frames, resolved.Keys, active, node);
            frames := frames[..k] + [frame.(node := node, path := frame.path[1..])];
          case Follows(alias) =>
            if edge in resolved {
              assert IsAlias(lock, edge);
              StepAlias(lock, origin, frame.node, frame.path, alias, resolved[edge]);
              TopMoves(lock, path, frames, frame.path, resolved[edge], frame.path[1..], frame.path[1..]);
              StepSpends(lock, before, frames, resolved.Keys, active, resolved[edge]);
              frames := frames[..k] + [frame.(node := resolved[edge], path := frame.path[1..])];
            } else if edge in active {
              CycleEndless(lock, path, frames, edge);
              VerdictEndless(path);
              return Err(CyclicFollows);
            } else {
              AliasPushed(lock, path, frames, edge);
              PushSpends(lock, before, frames, resolved.Keys, active, edge);
              active := active + {edge};
              frames := frames[..k] + [frame.(path := frame.path[1..]), Frame(lock.root, alias, Some(edge))];
            }
        }
      }
      assert false;  // "could not resolve input" is never reported: the stack only empties at a return
      r := Err(MissingInput);
    }

    // What the aliases that are not in the memo can still cost.
    ghost function Unresolved(memo: map<Edge, Name>): nat { Weight(lock, Open(lock, memo.Keys, {})) }

    // Steps done, and what those aliases can add.
    ghost function Spent(): nat
      reads this
    {
      work + Unresolved(resolved)
    }

    lemma FirstExpense(path: Path, frames: seq<Frame>)
      requires frames == [Frame(lock.root, path, None)]
      ensures Expense(lock, work, frames, resolved.Keys, {}) == Spent() + |path| + 1
    {
      assert frames[..0] == [];
      assert Remaining(frames) == Remaining(frames[..0]) + |path| + 1;
    }

    lemma KeepMemo(e: Edge, node: Name)
      requires Valid() && IsAlias(lock, e) && Derives(lock, Alias(lock, e), node)
      ensures MemoTrue(lock, resolved[e := node])
      ensures e in resolved ==> resolved[e] == node
    {
      if e in resolved { VerdictsExclusive(lock, lock.root, Alias(lock, e), node, resolved[e]); }
    }

    lemma Verdict(path: Path, node: Name)
      requires WellFormed(lock) && Derives(lock, path, node)
      ensures forall n: Name :: Derives(lock, path, n) ==> n == node
      ensures !DerivesMissing(lock, path) && !Endless(lock, path)
    {
      forall n: Name | Derives(lock, path, n) ensures n == node { VerdictsExclusive(lock, lock.root, path, node, n); }
      VerdictsExclusive(lock, lock.root, path, node, node);
    }

    lemma VerdictMissing(path: Path)
      requires WellFormed(lock) && DerivesMissing(lock, path)
      ensures forall n: Name :: !Derives(lock, path, n)
      ensures !Endless(lock, path)
    {
      forall n: Name ensures !Derives(lock, path, n) {
        if Derives(lock, path, n) { VerdictsExclusive(lock, lock.root, path, n, n); }
      }
    }

    lemma VerdictEndless(path: Path)
      requires WellFormed(lock) && Endless(lock, path)
      ensures (forall n: Name :: !Derives(lock, path, n)) && !DerivesMissing(lock, path)
    { }
  }
}
