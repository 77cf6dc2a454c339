/**
 Backtick runs, and the plain rule for code spans: at each run that is not used
 up, take the longest suffix that some later run equals in length, then the
 earliest such run, and go on behind it.
 */
module MarkdownRuns {
  import opened Prelude
  import opened Unicode

  datatype Run = Run(start: nat, end: nat)

  function Length(r: Run): nat { if r.start <= r.end then r.end - r.start else 0 }

  // A maximal stretch of backticks.
  ghost predicate RunOk(bytes: seq<Byte>, from: nat, upTo: nat, r: Run) {
    && from <= r.start < r.end <= upTo <= |bytes|
    && (forall b: nat {:trigger bytes[b]} :: r.start <= b < r.end ==> bytes[b] == BACKTICK)
    && (r.end < |bytes| ==> bytes[r.end] != BACKTICK)
  }

  ghost predicate Covered(runs: seq<Run>, b: nat) {
    exists i: nat :: i < |runs| && runs[i].start <= b < runs[i].end
  }

  // The runs from `from` on, left to right, maximal, and none left out.
  ghost predicate AreRuns(bytes: seq<Byte>, from: nat, upTo: nat, runs: seq<Run>) {
    && upTo <= |bytes|
    && (forall i: nat {:trigger runs[i]} :: i < |runs| ==> RunOk(bytes, from, upTo, runs[i]))
    && (forall i: nat {:trigger runs[i]} :: i + 1 < |runs| ==> runs[i].end < runs[i + 1].start)
    && (forall b: nat {:trigger Covered(runs, b)} :: from <= b < upTo && bytes[b] == BACKTICK ==> Covered(runs, b))
  }

  // What a run at `index` matches: the run `closing` after it, with its own
  // last Length(closing) backticks.
  ghost predicate Matches(runs: seq<Run>, index: nat, closing: nat) {
    && index < closing < |runs|
    && Length(runs[closing]) <= Length(runs[index])
    && (forall k: nat {:trigger runs[k]} :: index < k < |runs| && Length(runs[k]) <= Length(runs[index]) ==>
          Length(runs[k]) <= Length(runs[closing]))
    && (forall k: nat {:trigger runs[k]} :: index < k < closing ==> Length(runs[k]) != Length(runs[closing]))
  }

  ghost predicate Unmatched(runs: seq<Run>, index: nat) {
    index < |runs| && forall k: nat {:trigger runs[k]} :: index < k < |runs| ==> Length(runs[k]) > Length(runs[index])
  }

  datatype Pair = Pair(opening: nat, closing: nat)

  // The rule, from run `index` on.
  ghost predicate Rule(runs: seq<Run>, index: nat, pairs: seq<Pair>)
    decreases |runs| - index
  {
    if index >= |runs| then pairs == []
    else
      || (Unmatched(runs, index) && Rule(runs, index + 1, pairs))
      || (&& pairs != [] && pairs[0].opening == index && Matches(runs, index, pairs[0].closing)
          && Rule(runs, pairs[0].closing + 1, pairs[1..]))
  }

  lemma {:induction false} EndsBefore(bytes: seq<Byte>, from: nat, runs: seq<Run>, i: nat, j: nat)
    requires AreRuns(bytes, from, |bytes|, runs) && i <= j < |runs|
    ensures runs[i].start < runs[i].end && runs[i].start <= runs[j].start && runs[i].end <= runs[j].end
    ensures i < j ==> runs[i].end < runs[j].start
    ensures RunOk(bytes, from, |bytes|, runs[i])
  {
    hide Covered;
    if i < j { EndsBefore(bytes, from, runs, i, j - 1); }
  }

  // Which run a backtick is in.
  lemma RunOf(bytes: seq<Byte>, from: nat, runs: seq<Run>, b: nat) returns (i: nat)
    requires AreRuns(bytes, from, |bytes|, runs) && from <= b < |bytes| && bytes[b] == BACKTICK
    ensures i < |runs| && runs[i].start <= b < runs[i].end
  {
    hide RunOk;
    assert Covered(runs, b);
    i :| i < |runs| && runs[i].start <= b < runs[i].end;
  }

  // After n equal runs, the next run of one starts no later than that of the other.
  lemma NextRun(bytes: seq<Byte>, from: nat, p: seq<Run>, q: seq<Run>, n: nat)
    requires AreRuns(bytes, from, |bytes|, p) && AreRuns(bytes, from, |bytes|, q)
    requires n <= |p| && n < |q| && p[..n] == q[..n]
    ensures n < |p| && p[n].start <= q[n].start
  {
    hide AreRuns;
    EndsBefore(bytes, from, q, n, n);
    var b := q[n].start;
    var i := RunOf(bytes, from, p, b);
    if i < n {
      assert p[i] == p[..n][i] == q[i];
      EndsBefore(bytes, from, q, i, n);
    } else {
      EndsBefore(bytes, from, p, n, i);
    }
  }

  // The bytes leave no choice of runs.
  lemma {:induction false} RunsUniqueUpTo(bytes: seq<Byte>, from: nat, p: seq<Run>, q: seq<Run>, n: nat)
    requires AreRuns(bytes, from, |bytes|, p) && AreRuns(bytes, from, |bytes|, q)
    requires n <= |p| && n <= |q|
    ensures p[..n] == q[..n]
  {
    hide AreRuns;
    if n > 0 {
      var k := n - 1;
      RunsUniqueUpTo(bytes, from, p, q, k);
      NextRun(bytes, from, p, q, k);
      NextRun(bytes, from, q, p, k);
      EndsBefore(bytes, from, p, k, k);
      EndsBefore(bytes, from, q, k, k);
      assert p[..n] == p[..k] + [p[k]] && q[..n] == q[..k] + [q[k]];
    }
  }

  lemma RunsUnique(bytes: seq<Byte>, from: nat, p: seq<Run>, q: seq<Run>)
    requires AreRuns(bytes, from, |bytes|, p) && AreRuns(bytes, from, |bytes|, q)
    ensures p == q
  {
    hide AreRuns;
    if |p| <= |q| {
      RunsUniqueUpTo(bytes, from, p, q, |p|);
      if |p| < |q| { NextRun(bytes, from, p, q, |p|); }
    } else {
      RunsUniqueUpTo(bytes, from, p, q, |q|);
      NextRun(bytes, from, q, p, |q|);
    }
    assert p[..|p|] == p && q[..|q|] == q;
  }

  // The rule leaves no choice.
  lemma {:induction false} RuleUnique(runs: seq<Run>, index: nat, p: seq<Pair>, q: seq<Pair>)
    requires Rule(runs, index, p) && Rule(runs, index, q)
    ensures p == q
    decreases |runs| - index
  {
    if index < |runs| {
      if Unmatched(runs, index) {
        RuleUnique(runs, index + 1, p, q);
      } else {
        var a, b := p[0].closing, q[0].closing;
        assert Matches(runs, index, a) && Matches(runs, index, b);
        assert Length(runs[a]) == Length(runs[b]);
        RuleUnique(runs, a + 1, p[1..], q[1..]);
        assert p == [p[0]] + p[1..] && q == [q[0]] + q[1..];
      }
    }
  }

  // ---------- runs indexed by length ----------

  type Index = map<nat, seq<nat>>

  // The runs of one length from `index` on, in order.
  ghost function Later(runs: seq<Run>, length: nat, index: nat): (r: seq<nat>)
    ensures forall k: nat {:trigger k in r} :: k in r <==> index <= k < |runs| && Length(runs[k]) == length
    ensures r != [] ==> forall k :: k in r ==> r[0] <= k
    decreases |runs| - index
  {
    if index >= |runs| then []
    else if Length(runs[index]) == length then [index] + Later(runs, length, index + 1)
    else Later(runs, length, index + 1)
  }

  ghost predicate Indexed(future: Index, runs: seq<Run>, index: nat) {
    forall length: nat {:trigger length in future} {:trigger Later(runs, length, index)} ::
      && (length in future <==> Later(runs, length, index) != [])
      && (length in future ==> future[length] == Later(runs, length, index))
  }

  lemma {:induction false} LaterAppend(runs: seq<Run>, run: Run, length: nat, index: nat)
    requires index <= |runs|
    ensures Later(runs + [run], length, index) ==
            Later(runs, length, index) + if Length(run) == length then [|runs|] else []
    decreases |runs| - index
  {
    if index < |runs| {
      LaterAppend(runs, run, length, index + 1);
      assert (runs + [run])[index] == runs[index];
    }
  }

  method Append(future: Index, ghost runs: seq<Run>, run: Run, n: nat) returns (longer: Index)
    requires Indexed(future, runs, 0) && n == |runs|
    ensures Indexed(longer, runs + [run], 0)
  {
    var length := Length(run);
    longer := future[length := (if length in future then future[length] else []) + [n]];
    forall l: nat
      ensures l in longer <==> Later(runs + [run], l, 0) != []
      ensures l in longer ==> longer[l] == Later(runs + [run], l, 0)
    {
      LaterAppend(runs, run, l, 0);
      assert l in future <==> Later(runs, l, 0) != [];
    }
  }

  // Take the run `index` out of the index. Its queue is there, and it is in front.
  method Drop(future: Index, runs: seq<Run>, index: nat) returns (shorter: Index)
    requires index < |runs| && Indexed(future, runs, index)
    ensures Indexed(shorter, runs, index + 1)
  {
    var length := Length(runs[index]);
    assert index in Later(runs, length, index);
    assert length in future;  // expect("indexed code run"), expect("indexed consumed run")
    var queue := future[length][1..];
    shorter := if queue == [] then future - {length} else future[length := queue];
    forall l: nat
      ensures l in shorter <==> Later(runs, l, index + 1) != []
      ensures l in shorter ==> shorter[l] == Later(runs, l, index + 1)
    {
      assert l in future <==> Later(runs, l, index) != [];
      if l == length { assert Later(runs, l, index)[1..] == Later(runs, l, index + 1); }
    }
  }

  // The greatest key that is at most `length`.
  ghost predicate IsFloor(keys: set<nat>, length: nat, fence: Option<nat>) {
    match fence
    case None => forall l: nat :: l in keys ==> l > length
    case Some(f) => f in keys && f <= length && forall l: nat :: l in keys && l <= length ==> l <= f
  }

  // range(..=length).next_back() over the keys of an ordered map
  method Floor(keys: set<nat>, length: nat) returns (fence: Option<nat>)
    ensures IsFloor(keys, length, fence)
  {
    fence := None;
    var rest := keys;
    while rest != {}
      invariant rest <= keys
      invariant IsFloor(keys - rest, length, fence)
    {
      var l: nat :| l in rest;
      assert keys - (rest - {l}) == (keys - rest) + {l};
      rest := rest - {l};
      if l <= length && (fence.None? || fence.value < l) { fence := Some(l); }
    }
    assert keys - rest == keys;
  }

  // Scan the bytes once: the runs, and where each length occurs.
  method Scan(bytes: seq<Byte>, from: nat) returns (runs: seq<Run>, future: Index)
    requires from <= |bytes|
    ensures AreRuns(bytes, from, |bytes|, runs) && Indexed(future, runs, 0)
  {
    hide Indexed;
    runs, future := [], map[];
    StartIndexed();
    var cursor := from;
    while cursor < |bytes|
      invariant from <= cursor <= |bytes|
      invariant AreRuns(bytes, from, cursor, runs) && Indexed(future, runs, 0)
      invariant runs != [] && cursor < |bytes| && bytes[cursor] == BACKTICK ==> runs[|runs| - 1].end < cursor
    {
      if bytes[cursor] != BACKTICK {
        cursor := cursor + 1;
        continue;
      }
      var start := cursor;
      while cursor < |bytes| && bytes[cursor] == BACKTICK
        invariant start <= cursor <= |bytes|
        invariant forall b: nat {:trigger bytes[b]} :: start <= b < cursor ==> bytes[b] == BACKTICK
        invariant cursor == start ==> cursor < |bytes| && bytes[cursor] == BACKTICK
      {
        cursor := cursor + 1;
      }
      RunAdded(bytes, from, start, cursor, runs);
      future := Append(future, runs, Run(start, cursor), |runs|);
      runs := runs + [Run(start, cursor)];
    }
  }

  lemma StartIndexed()
    ensures Indexed(map[], [], 0)
  { }

  lemma RunAdded(bytes: seq<Byte>, from: nat, start: nat, end: nat, runs: seq<Run>)
    requires from <= start < end <= |bytes| && AreRuns(bytes, from, start, runs)
    requires runs != [] ==> runs[|runs| - 1].end < start
    requires forall b: nat {:trigger bytes[b]} :: start <= b < end ==> bytes[b] == BACKTICK
    requires end < |bytes| ==> bytes[end] != BACKTICK
    ensures AreRuns(bytes, from, end, runs + [Run(start, end)])
  {
    var after := runs + [Run(start, end)];
    forall b: nat | from <= b < end && bytes[b] == BACKTICK ensures Covered(after, b) {
      if b < start {
        assert Covered(runs, b);
        var i: nat :| i < |runs| && runs[i].start <= b < runs[i].end;
        assert after[i] == runs[i];
      } else {
        assert after[|runs|] == Run(start, end);
      }
    }
  }

  // What the index says about the run just dropped: which run it matches, if any.
  lemma IndexMatches(future: Index, runs: seq<Run>, index: nat, fence: Option<nat>)
    requires index < |runs| && Indexed(future, runs, index + 1)
    requires IsFloor(future.Keys, Length(runs[index]), fence)
    ensures fence.None? ==> Unmatched(runs, index)
    ensures fence.Some? ==>
              && future[fence.value] != []  // expect("nonempty future runs")
              && Matches(runs, index, future[fence.value][0])
              && Length(runs[future[fence.value][0]]) == fence.value
  {
    forall k: nat | index < k < |runs| ensures Length(runs[k]) in future {
      assert k in Later(runs, Length(runs[k]), index + 1);
    }
    if fence.Some? {
      var queue := Later(runs, fence.value, index + 1);
      assert future[fence.value] == queue && queue[0] in queue;
      forall k: nat | index < k < queue[0] ensures Length(runs[k]) != fence.value {
        assert k !in queue;
      }
    }
  }

  lemma MatchBounds(runs: seq<Run>, index: nat, closing: nat)
    requires Matches(runs, index, closing)
    ensures index < closing < |runs|
  { }

  // Drop the next run and look up its match: the front of the queue of the
  // greatest length that still occurs and is no longer than the run.
  method Take(future: Index, runs: seq<Run>, index: nat) returns (shorter: Index, closing: Option<nat>)
    requires index < |runs| && runs[index].start < runs[index].end && Indexed(future, runs, index)
    ensures Indexed(shorter, runs, index + 1)
    ensures closing.None? ==> Unmatched(runs, index)
    ensures closing.Some? ==> index < closing.value < |runs| && Matches(runs, index, closing.value)
  {
    hide Indexed, IsFloor, Matches, Unmatched, Later;
    shorter := Drop(future, runs, index);
    var fence := Floor(shorter.Keys, runs[index].end - runs[index].start);
    IndexMatches(shorter, runs, index, fence);
    if fence.Some? { MatchBounds(runs, index, shorter[fence.value][0]); }
    closing := if fence.None? then None else Some(shorter[fence.value][0]);
  }

  method DropThrough(future: Index, runs: seq<Run>, index: nat, closing: nat) returns (shorter: Index, next: nat)
    requires index <= closing < |runs| && Indexed(future, runs, index)
    ensures next == closing + 1 && Indexed(shorter, runs, next)
  {
    hide Indexed;
    shorter, next := future, index;
    while next <= closing
      invariant index <= next <= closing + 1 && Indexed(shorter, runs, next)
    {
      shorter := Drop(shorter, runs, next);
      next := next + 1;
    }
  }
}
