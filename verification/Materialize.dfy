/** The refresh itself: remove owned links, install wanted ones, publish the manifest. */
module Materialize {
  import opened Prelude
  import opened MaterializeTree
  import opened MaterializeManifest

  // The states after the n-th lie between two trees.
  ghost predicate Between(trace: seq<Tree>, n: nat, low: Tree, high: Tree) {
    forall i: nat {:trigger trace[i]} :: n <= i < |trace| ==>
      WellFormed(trace[i]) && Within(low, trace[i]) && Within(trace[i], high)
  }

  lemma BetweenMore(trace: seq<Tree>, n: nat, low: Tree, high: Tree, higher: Tree)
    requires Between(trace, n, low, high) && Within(high, higher) && Within(low, higher) && WellFormed(higher)
    ensures Between(trace, n, low, higher) && Between(trace + [higher], n, low, higher)
  { }

  lemma BetweenLess(trace: seq<Tree>, n: nat, m: nat, lower: Tree, low: Tree, high: Tree)
    requires Between(trace, m, low, high) && Within(lower, low) && n <= m <= |trace|
    requires Between(trace[..m], n, lower, high)
    ensures Between(trace, n, lower, high)
  { }

  lemma {:induction false} AddDirsIdle(t: Tree, p: Path, n: nat)
    requires n <= |p| && forall k: nat :: k <= n ==> p[..k] in t
    ensures AddDirs(t, p, n) == t
  {
    if n > 0 { AddDirsIdle(t, p, n - 1); }
  }

  lemma {:induction false} BlockedLater(t: Tree, p: Path, n: nat, m: nat)
    requires n <= m <= |p| && Blocked(t, p, n)
    ensures Blocked(t, p, m)
  {
    if n < m { BlockedLater(t, p, n, m - 1); }
  }

  // The walk meets something that is no directory: nothing was created before it.
  lemma StoppedAt(t: Tree, p: Path, i: nat)
    requires WellFormed(t) && i + 1 <= |p| && !Blocked(t, p, i)
    requires p[..i + 1] in AddDirs(t, p, i) && !AddDirs(t, p, i)[p[..i + 1]].Dir?
    ensures AddDirs(t, p, i) == t && Blocked(t, p, i + 1)
  {
    hide Blocked;
    AddDirsAdds(t, p, i);
    assert p[..i + 1] in t;
    forall k: nat | k <= i ensures p[..k] in t { AboveIsThere(t, p, i + 1, k); }
    AddDirsIdle(t, p, i);
    assert Blocked(t, p, i + 1) by { BlockedHere(t, p, i + 1); }
  }

  lemma BlockedHere(t: Tree, p: Path, n: nat)
    requires 0 < n <= |p| && p[..n] in t && !t[p[..n]].Dir?
    ensures Blocked(t, p, n)
  { }

  // The walk goes on into a directory that is there or has just been made.
  lemma WentOn(t: Tree, p: Path, i: nat)
    requires WellFormed(t) && i + 1 <= |p| && !Blocked(t, p, i)
    requires p[..i + 1] in AddDirs(t, p, i) ==> AddDirs(t, p, i)[p[..i + 1]].Dir?
    ensures !Blocked(t, p, i + 1)
    ensures WellFormed(AddDirs(t, p, i + 1)) && Within(AddDirs(t, p, i), AddDirs(t, p, i + 1))
    ensures Within(t, AddDirs(t, p, i + 1))
  {
    hide WellFormed, Within, Ready, AddDirs, Blocked;
    AddDirsAdds(t, p, i);
    ReadyAgrees(t, AddDirs(t, p, i), p, i, p[..i + 1]);
    NotBlockedNext(t, p, i);
    AddDirsAdds(t, p, i + 1);
    ReadyAgrees(t, AddDirs(t, p, i + 1), p, i + 1, []);
    AddDirsGrow(t, p, i);
  }

  lemma ReadyAgrees(t: Tree, b: Tree, p: Path, n: nat, q: Path)
    requires Ready(t, b, p, n)
    ensures Within(t, b) && (q in t ==> q in b && b[q] == t[q])
  { }

  lemma NotBlockedNext(t: Tree, p: Path, i: nat)
    requires i + 1 <= |p| && !Blocked(t, p, i) && (p[..i + 1] in t ==> t[p[..i + 1]].Dir?)
    ensures !Blocked(t, p, i + 1)
  { }

  lemma AddDirsGrow(t: Tree, p: Path, i: nat)
    requires i + 1 <= |p|
    ensures Within(AddDirs(t, p, i), AddDirs(t, p, i + 1))
  { }

  class Store {
    var tree: Tree
    ghost var trace: seq<Tree>

    constructor (tree: Tree)
      ensures this.tree == tree
    {
      this.tree := tree;
      trace := [];
    }

    // The directory that holds a name, made on the way when it may be.
    method Parent(name: Name, create: bool) returns (found: Option<Path>)
      requires WellFormed(tree)
      modifies this`tree, this`trace
      ensures WellFormed(tree) && Within(old(tree), tree)
      ensures |old(trace)| <= |trace| && trace[..|old(trace)|] == old(trace)
      ensures Between(trace, |old(trace)|, old(tree), tree)
      ensures !create ==> tree == old(tree) && trace == old(trace)
      ensures !Usable(name) ==> found == None && tree == old(tree)
      ensures Usable(name) && !create ==>
                found == if IsDir(tree, PathOf(name)[..|name| - 1]) then Some(PathOf(name)) else None
      ensures Usable(name) && create ==>
                && (found == if Blocked(old(tree), PathOf(name), |name| - 1) then None else Some(PathOf(name)))
                && tree == (if found.None? then old(tree) else AddDirs(old(tree), PathOf(name), |name| - 1))
    {
      hide Blocked, AddDirs, WellFormed;
      if !Usable(name) { return None; }
      var path := PathOf(name);
      var i := 0;
      NotBlockedYet(tree, path);
      while i < |path| - 1
        invariant i <= |path| - 1 && WellFormed(tree) && Within(old(tree), tree)
        invariant !Blocked(old(tree), path, i) && IsDir(tree, path[..i])
        invariant tree == AddDirs(old(tree), path, i) && (!create ==> tree == old(tree) && trace == old(trace))
        invariant |old(trace)| <= |trace| && trace[..|old(trace)|] == old(trace)
        invariant Between(trace, |old(trace)|, old(tree), tree)
      {
        var part := path[..i + 1];
        if part in tree && !tree[part].Dir? {
          StoppedAt(old(tree), path, i);
          BlockedLater(old(tree), path, i + 1, |path| - 1);
          NotBelow(tree, path, i + 1, |path| - 1);
          return None;
        }
        if part !in tree && !create {
          NotBelow(tree, path, i + 1, |path| - 1);
          return None;
        }
        WentOn(old(tree), path, i);
        NextDir(old(tree), path, i);
        BetweenMore(trace, |old(trace)|, old(tree), tree, AddDirs(old(tree), path, i + 1));
        if part !in tree {
          tree := tree[part := Dir];
          trace := trace + [tree];
        }
        i := i + 1;
      }
      found := Some(path);
    }

    // `older` tells what a generation file records, `wanted` what the source asks
    // for, `fits` whether a manifest stays below its limit. The trace is every
    // state from the first removal to the last link, before publication.
    method Materialize(generation: string, older: Bytes -> Option<seq<Record>>, wanted: seq<Record>,
          fits: Manifest -> bool)
      returns (r: Result<(), Refusal>)
      requires WellFormed(tree)
      modifies this
      ensures (r, tree) == Refresh(old(tree), generation, older, wanted, fits)
      ensures WellFormed(tree)
      ensures Previous(old(tree), older).Err? ==> trace == []
      ensures Previous(old(tree), older).Ok? && Previous(old(tree), older).value.generation == generation ==>
                trace == []
      ensures Previous(old(tree), older).Ok? ==>
                forall i: nat {:trigger trace[i]} :: i < |trace| ==>
                  Midway(old(tree), Previous(old(tree), older).value.links, wanted, trace[i])
      ensures r.Ok? && Previous(old(tree), older).value.generation != generation ==>
                && MANIFEST in tree && tree[MANIFEST].File? && tree[MANIFEST].bytes.Encoded?
                && var manifest := tree[MANIFEST].bytes.manifest;
                && manifest.generation == generation
                && (manifest.links == Standing(tree, wanted) <==> MANIFEST in old(tree) || !Names(wanted, MANIFEST))
    {
      hide Blocked, AddDirs, WellFormed, Installed, Removed, Listed, Standing, Midway, Names;
      trace := [];
      var previous := Previous(tree, older);
      if previous.Err? { return Err(previous.error); }
      if previous.value.generation == generation { return Ok(()); }
      var records := previous.value.links;
      ghost var before := tree;
      RemoveAll(records);
      ghost var rest, removals := tree, |trace|;
      RemovedKeeps(before, records);
      var installed := InstallAll(wanted);
      InstalledKeeps(rest, wanted);
      forall i: nat | i < |trace| ensures Midway(before, records, wanted, trace[i]) {
        if i < removals {
          assert trace[i] == trace[..removals][i];
          var k: nat :| k <= |records| && trace[i] == Removed(before, records[..k]);
          StoppedRemoving(before, records, wanted, k);
        } else {
          StoppedInstalling(before, records, wanted, trace[i]);
        }
      }
      var manifest := Manifest(generation, installed);
      if !fits(manifest) { return Err(TooLong); }
      if IsDir(tree, MANIFEST) { return Err(Occupied); }
      ManifestStands(before, records, wanted, manifest);
      PublishedKeeps(tree, manifest);
      tree := Published(tree, manifest);
      r := Ok(());
    }

    method RemoveAll(records: seq<Record>)
      requires WellFormed(tree) && trace == []
      modifies this`tree, this`trace
      ensures tree == Removed(old(tree), records)
      ensures forall i: nat {:trigger trace[i]} :: i < |trace| ==>
                exists k: nat :: k <= |records| && trace[i] == Removed(old(tree), records[..k])
    {
      hide WellFormed, Removed;
      NothingDone(tree);
      var i := 0;
      while i < |records|
        invariant i <= |records| && tree == Removed(old(tree), records[..i]) && WellFormed(tree)
        invariant forall j: nat {:trigger trace[j]} :: j < |trace| ==>
                    exists k: nat :: k <= |records| && trace[j] == Removed(old(tree), records[..k])
      {
        var r := records[i];
        RemovedNext(old(tree), records, i);
        RemovedKeeps(old(tree), records[..i + 1]);
        var found := Parent(r.name, false);
        if found.Some? && found.value in tree && tree[found.value] == Link(r.target) {
          tree := tree - {found.value};
          trace := trace + [tree];
        } else if Usable(r.name) {
          NotThere(tree, PathOf(r.name));
        }
        i := i + 1;
      }
      assert records[..i] == records;
    }

    method InstallAll(wanted: seq<Record>) returns (installed: seq<Record>)
      requires WellFormed(tree)
      modifies this`tree, this`trace
      ensures tree == Installed(old(tree), wanted) && installed == Listed(old(tree), wanted)
      ensures |old(trace)| <= |trace| && trace[..|old(trace)|] == old(trace)
      ensures Between(trace, |old(trace)|, old(tree), tree)
    {
      hide WellFormed, Installed, Listed, Blocked, AddDirs, Between, Within;
      installed := [];
      NothingDone(tree);
      NothingTraced(trace, tree);
      ghost var n := |old(trace)|;
      var i := 0;
      while i < |wanted|
        invariant i <= |wanted| && WellFormed(tree) && Within(old(tree), tree)
        invariant tree == Installed(old(tree), wanted[..i]) && installed == Listed(old(tree), wanted[..i])
        invariant n <= |trace| && trace[..n] == old(trace) && Between(trace, n, old(tree), tree)
      {
        InstalledNext(old(tree), wanted, i);
        ghost var m := |trace|;
        ghost var traced := trace;
        ghost var start := tree;
        var listed := InstallOne(wanted[i]);
        InstallKeeps(start, wanted[i]);
        InstalledKeeps(old(tree), wanted[..i + 1]);
        BetweenMore(traced, n, old(tree), start, tree);
        BetweenLess(trace, n, m, old(tree), start, tree);
        assert trace[..n] == trace[..m][..n];
        if listed { installed := installed + [wanted[i]]; }
        i := i + 1;
      }
      assert wanted[..i] == wanted;
    }

    method InstallOne(r: Record) returns (listed: bool)
      requires WellFormed(tree)
      modifies this`tree, this`trace
      ensures tree == Install(old(tree), r) && listed == Owns(tree, r)
      ensures |old(trace)| <= |trace| && trace[..|old(trace)|] == old(trace)
      ensures Between(trace, |old(trace)|, old(tree), tree)
    {
      hide WellFormed, Blocked, AddDirs, Between, Within;
      var found := Parent(r.name, true);
      match found {
        case None =>
          if Usable(r.name) { BlockedOwnsNothing(tree, r); }
          return false;
        case Some(path) =>
          if path !in tree {
            InstallKeeps(old(tree), r);
            GrewByOne(old(tree), tree, r);
            BetweenMore(trace, |old(trace)|, old(tree), tree, tree[path := Link(r.target)]);
            tree := tree[path := Link(r.target)];
            trace := trace + [tree];
            return true;
          }
          listed := tree[path] == Link(r.target);
      }
    }
  }

  lemma NotBlockedYet(t: Tree, p: Path)
    requires WellFormed(t)
    ensures !Blocked(t, p, 0) && AddDirs(t, p, 0) == t && IsDir(t, p[..0])
  { }

  lemma NextDir(t: Tree, p: Path, i: nat)
    requires i + 1 <= |p|
    ensures var before := AddDirs(t, p, i);
      AddDirs(t, p, i + 1) == if p[..i + 1] in before then before else before[p[..i + 1] := Dir]
  { }

  // Below something that is no directory there is nothing.
  lemma NotBelow(t: Tree, p: Path, n: nat, m: nat)
    requires WellFormed(t) && n <= m <= |p| && !IsDir(t, p[..n])
    ensures !IsDir(t, p[..m])
  {
    if n < m && p[..m] in t { AboveIsThere(t, p, m, n); }
  }

  lemma NotThere(t: Tree, p: Path)
    requires WellFormed(t) && p != []
    ensures !IsDir(t, p[..|p| - 1]) ==> p !in t
  { }

  lemma NothingDone(t: Tree)
    ensures Removed(t, []) == t && Installed(t, []) == t && Listed(t, []) == []
  { }

  lemma NothingTraced(trace: seq<Tree>, t: Tree)
    ensures Between(trace, |trace|, t, t) && Within(t, t) && trace[..|trace|] == trace
  { }

  lemma RemovedNext(t: Tree, records: seq<Record>, i: nat)
    requires i < |records|
    ensures Removed(t, records[..i + 1]) == Remove(Removed(t, records[..i]), records[i])
  {
    assert records[..i + 1][..i] == records[..i];
  }

  lemma InstalledNext(t: Tree, wanted: seq<Record>, i: nat)
    requires i < |wanted|
    ensures Installed(t, wanted[..i + 1]) == Install(Installed(t, wanted[..i]), wanted[i])
    ensures Listed(t, wanted[..i + 1]) ==
              Listed(t, wanted[..i]) + if Owns(Installed(t, wanted[..i + 1]), wanted[i]) then [wanted[i]] else []
  {
    assert wanted[..i + 1][..i] == wanted[..i];
  }

  lemma BlockedOwnsNothing(t: Tree, r: Record)
    requires WellFormed(t) && Usable(r.name) && Blocked(t, PathOf(r.name), |r.name| - 1)
    ensures !Owns(t, r)
  {
    if PathOf(r.name) in t { BlockedShowsNothing(t, PathOf(r.name), |r.name| - 1); }
  }

  lemma GrewByOne(t: Tree, ready: Tree, r: Record)
    requires WellFormed(t) && Usable(r.name) && !Blocked(t, PathOf(r.name), |r.name| - 1)
    requires ready == AddDirs(t, PathOf(r.name), |r.name| - 1) && PathOf(r.name) !in ready
    ensures Install(t, r) == ready[PathOf(r.name) := Link(r.target)] && Within(ready, Install(t, r))
  { }

  lemma StoppedRemoving(t: Tree, records: seq<Record>, wanted: seq<Record>, k: nat)
    requires k <= |records|
    ensures Midway(t, records, wanted, Removed(t, records[..k]))
  { }

  lemma StoppedInstalling(t: Tree, records: seq<Record>, wanted: seq<Record>, s: Tree)
    requires WellFormed(s) && Within(Removed(t, records), s) && Within(s, Refreshed(t, records, wanted))
    ensures Midway(t, records, wanted, s)
  { }
}
