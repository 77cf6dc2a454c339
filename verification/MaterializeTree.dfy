/** The destination directory of a refresh as a tree, and what a refresh makes of it. */
module MaterializeTree {
  // A name is usable when all its components are ordinary ones.
  datatype Component = Normal(name: string) | Other
  type Name = seq<Component>
  datatype Record = Record(name: Name, target: string)

  datatype Manifest = Manifest(generation: string, links: seq<Record>)

  // What is in a file: the text of a manifest or something else.
  datatype Bytes = Encoded(manifest: Manifest) | Plain(text: nat)

  type Path = seq<string>
  datatype Entry = Dir | File(bytes: Bytes) | Link(target: string)
  type Tree = map<Path, Entry>

  predicate Usable(name: Name) { name != [] && forall c :: c in name ==> c.Normal? }

  function PathOf(name: Name): (p: Path)
    requires forall c :: c in name ==> c.Normal?
    ensures |p| == |name|
  {
    if name == [] then [] else [name[0].name] + PathOf(name[1..])
  }

  predicate IsDir(t: Tree, p: Path) { p in t && t[p].Dir? }

  // The root is there, and what is in a directory has that directory.
  ghost predicate WellFormed(t: Tree) {
    IsDir(t, []) && forall p: Path {:trigger p in t} :: p in t && p != [] ==> IsDir(t, p[..|p| - 1])
  }

  ghost predicate Within(a: Tree, b: Tree) {
    forall p: Path {:trigger p in a} {:trigger p in b} :: p in a ==> p in b && b[p] == a[p]
  }

  // ---------- removing ----------

  predicate Owns(t: Tree, r: Record) {
    Usable(r.name) && PathOf(r.name) in t && t[PathOf(r.name)] == Link(r.target)
  }

  function Remove(t: Tree, r: Record): Tree {
    if Owns(t, r) then t - {PathOf(r.name)} else t
  }

  function Removed(t: Tree, records: seq<Record>): Tree {
    if records == [] then t else Remove(Removed(t, records[..|records| - 1]), records[|records| - 1])
  }

  // ---------- installing ----------

  // One of the first n directories on the way is something else.
  predicate Blocked(t: Tree, p: Path, n: nat)
    requires n <= |p|
  {
    n > 0 && (Blocked(t, p, n - 1) || (p[..n] in t && !t[p[..n]].Dir?))
  }

  function AddDirs(t: Tree, p: Path, n: nat): Tree
    requires n <= |p|
  {
    if n == 0 then t
    else
      var before := AddDirs(t, p, n - 1);
      if p[..n] in before then before else before[p[..n] := Dir]
  }

  function Install(t: Tree, r: Record): Tree {
    if !Usable(r.name) || Blocked(t, PathOf(r.name), |r.name| - 1) then t
    else
      var p := PathOf(r.name);
      var ready := AddDirs(t, p, |p| - 1);
      if p in ready then ready else ready[p := Link(r.target)]
  }

  function Installed(t: Tree, wanted: seq<Record>): Tree {
    if wanted == [] then t else Install(Installed(t, wanted[..|wanted| - 1]), wanted[|wanted| - 1])
  }

  // What the manifest records: the wanted links that stand when their turn comes.
  function Listed(t: Tree, wanted: seq<Record>): seq<Record> {
    if wanted == [] then []
    else
      var last := wanted[|wanted| - 1];
      Listed(t, wanted[..|wanted| - 1]) + if Owns(Installed(t, wanted), last) then [last] else []
  }

  function Refreshed(t: Tree, records: seq<Record>, wanted: seq<Record>): Tree {
    Installed(Removed(t, records), wanted)
  }

  // ---------- both keep the tree well formed ----------

  lemma RemoveKeeps(t: Tree, r: Record)
    requires WellFormed(t)
    ensures WellFormed(Remove(t, r)) && Within(Remove(t, r), t)
  { }

  lemma {:induction false} RemovedKeeps(t: Tree, records: seq<Record>)
    requires WellFormed(t)
    ensures WellFormed(Removed(t, records)) && Within(Removed(t, records), t)
  {
    hide WellFormed, Remove;
    if records != [] {
      RemovedKeeps(t, records[..|records| - 1]);
      RemoveKeeps(Removed(t, records[..|records| - 1]), records[|records| - 1]);
    }
  }

  // In a well-formed tree what stands below a path shows that the path is there.
  lemma {:induction false} AboveIsThere(t: Tree, p: Path, n: nat, k: nat)
    requires WellFormed(t) && k < n <= |p| && p[..n] in t
    ensures IsDir(t, p[..k])
    decreases n - k
  {
    assert p[..n][..n - 1] == p[..n - 1];
    if k < n - 1 { AboveIsThere(t, p, n - 1, k); }
  }

  // The directories on the way to `p`, up to depth n, are there; nothing else is new.
  ghost predicate Ready(t: Tree, b: Tree, p: Path, n: nat) {
    && Within(t, b)
    && (forall q: Path {:trigger IsDir(b, q)} :: q <= p && |q| <= n ==> IsDir(b, q))
    && (forall q: Path {:trigger q in b} :: q in b && q !in t ==> q <= p && |q| <= n && b[q].Dir?)
  }

  lemma {:induction false} AddDirsAdds(t: Tree, p: Path, n: nat)
    requires WellFormed(t) && n <= |p| && !Blocked(t, p, n)
    ensures WellFormed(AddDirs(t, p, n)) && Ready(t, AddDirs(t, p, n), p, n)
  {
    if n > 0 {
      AddDirsAdds(t, p, n - 1);
      DirAdded(t, AddDirs(t, p, n - 1), p, n);
    }
  }

  lemma DirAdded(t: Tree, before: Tree, p: Path, n: nat)
    requires 0 < n <= |p| && WellFormed(before) && Ready(t, before, p, n - 1)
    requires p[..n] in t ==> t[p[..n]].Dir?
    ensures var b := if p[..n] in before then before else before[p[..n] := Dir];
      WellFormed(b) && Ready(t, b, p, n)
  {
    var b := if p[..n] in before then before else before[p[..n] := Dir];
    assert p[..n][..n - 1] == p[..n - 1];
    assert IsDir(before, p[..n - 1]);
    assert IsDir(b, p[..n]);
    forall q: Path | q <= p && |q| <= n ensures IsDir(b, q) {
      if |q| == n { assert q == p[..n]; } else { assert IsDir(before, q); }
    }
    forall q: Path | q in b && q != [] ensures IsDir(b, q[..|q| - 1]) {
      if q in before { assert IsDir(before, q[..|q| - 1]); }
    }
  }

  lemma InstallKeeps(t: Tree, r: Record)
    requires WellFormed(t)
    ensures WellFormed(Install(t, r)) && Within(t, Install(t, r))
  {
    hide Blocked, AddDirs;
    if Usable(r.name) && !Blocked(t, PathOf(r.name), |r.name| - 1) {
      var p := PathOf(r.name);
      var ready, b := AddDirs(t, p, |p| - 1), Install(t, r);
      AddDirsAdds(t, p, |p| - 1);
      assert IsDir(ready, p[..|p| - 1]);
      forall q: Path | q in b && q != [] ensures IsDir(b, q[..|q| - 1]) {
        assert q in ready ==> IsDir(ready, q[..|q| - 1]);
      }
    }
  }

  lemma {:induction false} InstalledKeeps(t: Tree, wanted: seq<Record>)
    requires WellFormed(t)
    ensures WellFormed(Installed(t, wanted)) && Within(t, Installed(t, wanted))
  {
    hide WellFormed, Install;
    if wanted != [] {
      InstalledKeeps(t, wanted[..|wanted| - 1]);
      InstallKeeps(Installed(t, wanted[..|wanted| - 1]), wanted[|wanted| - 1]);
    }
  }

  lemma {:induction false} InstalledGrows(t: Tree, wanted: seq<Record>, n: nat)
    requires WellFormed(t) && n <= |wanted|
    ensures Within(Installed(t, wanted[..n]), Installed(t, wanted))
    decreases |wanted| - n
  {
    hide WellFormed, Install;
    if n == |wanted| {
      assert wanted[..n] == wanted;
    } else {
      InstalledGrows(t, wanted, n + 1);
      InstalledKeeps(t, wanted[..n]);
      assert wanted[..n + 1][..n] == wanted[..n];
      InstallKeeps(Installed(t, wanted[..n]), wanted[n]);
    }
  }

  // ---------- running again after an interruption ----------

  /**
   Where a refresh of `t` may be stopped before its manifest is written: some
   records are removed, or all are and some of what it installs is there.
   */
  ghost predicate Midway(t: Tree, records: seq<Record>, wanted: seq<Record>, s: Tree) {
    || (exists k: nat :: k <= |records| && s == Removed(t, records[..k]))
    || (WellFormed(s) && Within(Removed(t, records), s) && Within(s, Refreshed(t, records, wanted)))
  }

  // Blocked on fewer entries is blocked on more.
  lemma {:induction false} BlockedMore(a: Tree, b: Tree, p: Path, n: nat)
    requires n <= |p| && Within(a, b) && Blocked(a, p, n)
    ensures Blocked(b, p, n)
  {
    if Blocked(a, p, n - 1) { BlockedMore(a, b, p, n - 1); }
  }

  lemma {:induction false} DirsDoNotBlock(t: Tree, b: Tree, p: Path, n: nat)
    requires n <= |p| && Within(t, b) && forall q: Path {:trigger IsDir(b, q)} :: q <= p && |q| <= n ==> IsDir(b, q)
    ensures !Blocked(t, p, n)
  {
    if n > 0 {
      DirsDoNotBlock(t, b, p, n - 1);
      assert IsDir(b, p[..n]);
    }
  }

  // An install that is not blocked: the directories and the link, no more.
  ghost predicate Placed(t: Tree, b: Tree, p: Path, target: string) {
    && Within(t, b) && p in b && (p !in t ==> b[p] == Link(target))
    && (forall q: Path {:trigger IsDir(b, q)} :: q <= p && |q| < |p| ==> IsDir(b, q))
    && (forall q: Path {:trigger q in b} :: q in b && q !in t ==> q <= p && (|q| < |p| ==> b[q].Dir?))
  }

  lemma PlacedFrom(t: Tree, ready: Tree, b: Tree, p: Path, target: string)
    requires p != [] && Ready(t, ready, p, |p| - 1)
    requires b == if p in ready then ready else ready[p := Link(target)]
    ensures Placed(t, b, p, target)
  {
    forall q: Path | q <= p && |q| < |p| ensures IsDir(b, q) { assert IsDir(ready, q); }
  }

  lemma InstallPlaces(t: Tree, r: Record)
    requires WellFormed(t) && Usable(r.name) && !Blocked(t, PathOf(r.name), |r.name| - 1)
    ensures Placed(t, Install(t, r), PathOf(r.name), r.target)
  {
    hide Blocked, AddDirs, WellFormed, Ready, Placed;
    var p := PathOf(r.name);
    AddDirsAdds(t, p, |p| - 1);
    PlacedFrom(t, AddDirs(t, p, |p| - 1), Install(t, r), p, r.target);
  }

  // One install from more than `a` and less than the end.
  lemma InstallMeets(a: Tree, x: Tree, r: Record, end: Tree)
    requires WellFormed(a) && WellFormed(x) && Within(a, x) && Within(x, end) && Within(Install(a, r), end)
    ensures Within(Install(a, r), Install(x, r)) && Within(Install(x, r), end)
  {
    hide Blocked, Install, WellFormed, PathOf, Placed;
    InstallStops(a, r);
    InstallStops(x, r);
    if Usable(r.name) {
      var p, n := PathOf(r.name), |r.name| - 1;
      if Blocked(a, p, n) {
        BlockedMore(a, x, p, n);
      } else {
        InstallPlaces(a, r);
        DirsOn(a, Install(a, r), end, p, r.target);
        DirsDoNotBlock(x, end, p, n);
        InstallPlaces(x, r);
        PlacedMeets(a, Install(a, r), x, Install(x, r), end, p, r.target);
      }
    }
  }

  lemma InstallStops(t: Tree, r: Record)
    ensures !Usable(r.name) || Blocked(t, PathOf(r.name), |r.name| - 1) ==> Install(t, r) == t
  { }

  lemma DirsOn(a: Tree, b: Tree, end: Tree, p: Path, target: string)
    requires Placed(a, b, p, target) && Within(b, end)
    ensures forall q: Path {:trigger IsDir(end, q)} :: q <= p && |q| <= |p| - 1 ==> IsDir(end, q)
  {
    forall q: Path | q <= p && |q| <= |p| - 1 ensures IsDir(end, q) { assert IsDir(b, q); }
  }

  lemma PlacedMeets(a: Tree, b: Tree, x: Tree, y: Tree, end: Tree, p: Path, target: string)
    requires Placed(a, b, p, target) && Placed(x, y, p, target) && Within(a, x) && Within(x, end) && Within(b, end)
    ensures Within(b, y) && Within(y, end)
  {
    forall q: Path | q in y ensures q in end && end[q] == y[q] {
      if q !in x {
        if |q| < |p| { assert IsDir(b, q); } else { assert q == p; }
      }
    }
    forall q: Path | q in b ensures q in y && y[q] == b[q] {
      if q !in a {
        if |q| < |p| { assert IsDir(y, q); } else { assert q == p; }
      }
    }
  }

  // ---------- the whole of both phases ----------

  // A record names the path and the entry there is its link.
  ghost predicate Recorded(records: seq<Record>, p: Path, e: Entry) {
    exists r: Record :: r in records && Usable(r.name) && PathOf(r.name) == p && e == Link(r.target)
  }

  lemma {:induction false} RemovedIs(t: Tree, records: seq<Record>)
    ensures forall p: Path :: p in Removed(t, records) <==> p in t && !Recorded(records, p, t[p])
    ensures Within(Removed(t, records), t)
  {
    if records != [] {
      var earlier, last := records[..|records| - 1], records[|records| - 1];
      RemovedIs(t, earlier);
      assert records == earlier + [last];
      forall p: Path | p in t
        ensures Recorded(records, p, t[p]) <==>
                  Recorded(earlier, p, t[p]) ||
                    (Usable(last.name) && PathOf(last.name) == p && t[p] == Link(last.target))
      {
        if Recorded(earlier, p, t[p]) {
          var r: Record :| r in earlier && Usable(r.name) && PathOf(r.name) == p && t[p] == Link(r.target);
          assert r in records;
        }
      }
    }
  }

  lemma RemoveAgain(t: Tree, records: seq<Record>, k: nat)
    requires k <= |records|
    ensures Removed(Removed(t, records[..k]), records) == Removed(t, records)
  {
    var s := Removed(t, records[..k]);
    RemovedIs(t, records);
    RemovedIs(t, records[..k]);
    RemovedIs(s, records);
    assert records == records[..k] + records[k..];
    forall p: Path | p in t && Recorded(records[..k], p, t[p]) ensures Recorded(records, p, t[p]) {
      var r: Record :| r in records[..k] && Usable(r.name) && PathOf(r.name) == p && t[p] == Link(r.target);
      assert r in records;
    }
    assert Removed(s, records).Keys == Removed(t, records).Keys;
  }

  // What was left alone before is left alone again.
  lemma RemoveLess(t: Tree, records: seq<Record>, s: Tree)
    requires Within(Removed(t, records), s)
    ensures Within(Removed(t, records), Removed(s, records))
  {
    RemovedIs(t, records);
    RemovedIs(s, records);
  }

  lemma {:induction false} PrefixMeets(a: Tree, x: Tree, wanted: seq<Record>, n: nat)
    requires WellFormed(a) && WellFormed(x) && n <= |wanted| && Within(a, x) && Within(x, Installed(a, wanted))
    ensures Within(Installed(a, wanted[..n]), Installed(x, wanted[..n]))
    ensures Within(Installed(x, wanted[..n]), Installed(a, wanted))
  {
    hide WellFormed, Install;
    if n > 0 {
      PrefixMeets(a, x, wanted, n - 1);
      assert wanted[..n][..n - 1] == wanted[..n - 1];
      InstalledKeeps(a, wanted[..n - 1]);
      InstalledKeeps(x, wanted[..n - 1]);
      InstalledGrows(a, wanted, n);
      InstallMeets(Installed(a, wanted[..n - 1]), Installed(x, wanted[..n - 1]), wanted[n - 1], Installed(a, wanted));
    }
  }

  lemma InstalledMeets(a: Tree, x: Tree, wanted: seq<Record>)
    requires WellFormed(a) && WellFormed(x) && Within(a, x) && Within(x, Installed(a, wanted))
    ensures Installed(x, wanted) == Installed(a, wanted)
  {
    hide WellFormed, Installed;
    PrefixMeets(a, x, wanted, |wanted|);
    assert wanted[..|wanted|] == wanted;
    assert Installed(x, wanted).Keys == Installed(a, wanted).Keys;
  }

  // ---------- what the manifest records ----------

  // The wanted links that stand in a tree.
  function Standing(t: Tree, wanted: seq<Record>): seq<Record> {
    if wanted == [] then []
    else Standing(t, wanted[..|wanted| - 1]) + if Owns(t, wanted[|wanted| - 1]) then [wanted[|wanted| - 1]] else []
  }

  lemma {:induction false} BlockedShowsNothing(t: Tree, p: Path, n: nat)
    requires WellFormed(t) && n < |p| && p in t
    ensures !Blocked(t, p, n)
  {
    if n > 0 {
      BlockedShowsNothing(t, p, n - 1);
      assert p[..|p|] == p;
      AboveIsThere(t, p, |p|, n);
    }
  }

  lemma OwnsLater(t: Tree, r: Record, end: Tree)
    requires WellFormed(t) && WellFormed(end) && Within(Install(t, r), end)
    ensures Owns(end, r) == Owns(Install(t, r), r)
  {
    hide Blocked, Install, AddDirs;
    if Usable(r.name) {
      var p, n := PathOf(r.name), |r.name| - 1;
      InstallStops(t, r);
      if Blocked(t, p, n) {
        BlockedMore(t, end, p, n);
        if p in end { BlockedShowsNothing(end, p, n); }
      } else {
        InstallPlaces(t, r);
      }
    }
  }

  // The manifest records exactly the wanted links that stand in the end.
  lemma {:induction false} ListedStand(t: Tree, wanted: seq<Record>, end: Tree)
    requires WellFormed(t) && WellFormed(end) && Within(Installed(t, wanted), end)
    ensures Listed(t, wanted) == Standing(end, wanted)
  {
    hide WellFormed, Install, Owns;
    if wanted != [] {
      var earlier, last := wanted[..|wanted| - 1], wanted[|wanted| - 1];
      InstalledKeeps(t, earlier);
      InstallKeeps(Installed(t, earlier), last);
      OwnsLater(Installed(t, earlier), last, end);
      ListedStand(t, earlier, end);
    }
  }

  // ---------- main results ----------

  // Links are removed and installed again to the same end, and listed the same.
  lemma LinksResume(t: Tree, records: seq<Record>, wanted: seq<Record>, s: Tree)
    requires WellFormed(t) && Midway(t, records, wanted, s)
    ensures Refreshed(s, records, wanted) == Refreshed(t, records, wanted)
    ensures Listed(Removed(s, records), wanted) == Listed(Removed(t, records), wanted)
  {
    hide WellFormed, Installed, Listed;
    var rest := Removed(t, records);
    RemovedKeeps(t, records);
    if k: nat :| k <= |records| && s == Removed(t, records[..k]) {
      RemoveAgain(t, records, k);
    } else {
      var x := Removed(s, records);
      RemovedKeeps(s, records);
      RemoveLess(t, records, s);
      InstalledMeets(rest, x, wanted);
      InstalledKeeps(rest, wanted);
      ListedStand(rest, wanted, Installed(rest, wanted));
      ListedStand(x, wanted, Installed(rest, wanted));
    }
  }

  ghost predicate Wanted(wanted: seq<Record>, p: Path, e: Entry) { e.Dir? || Recorded(wanted, p, e) }

  lemma {:induction false} InstalledAdds(t: Tree, wanted: seq<Record>)
    requires WellFormed(t)
    ensures forall p: Path :: p in Installed(t, wanted) && p !in t ==> Wanted(wanted, p, Installed(t, wanted)[p])
  {
    hide WellFormed, Install;
    if wanted != [] {
      var earlier, last := wanted[..|wanted| - 1], wanted[|wanted| - 1];
      var before, b := Installed(t, earlier), Installed(t, wanted);
      InstalledAdds(t, earlier);
      InstalledKeeps(t, earlier);
      InstallAdds(before, last);
      assert wanted == earlier + [last];
      forall p: Path | p in b && p !in t ensures Wanted(wanted, p, b[p]) {
        if p in before {
          assert Wanted(earlier, p, before[p]);
          InstallKeeps(before, last);
          MoreWanted(earlier, last, p, b[p]);
        } else {
          assert last in wanted;
        }
      }
    }
  }

  lemma MoreWanted(earlier: seq<Record>, last: Record, p: Path, e: Entry)
    requires Wanted(earlier, p, e)
    ensures Wanted(earlier + [last], p, e)
  { }

  lemma InstallAdds(t: Tree, r: Record)
    requires WellFormed(t)
    ensures forall p: Path :: p in Install(t, r) && p !in t ==>
              Install(t, r)[p].Dir? || (Usable(r.name) && p == PathOf(r.name) && Install(t, r)[p] == Link(r.target))
  {
    hide Blocked, Install, AddDirs, WellFormed;
    InstallStops(t, r);
    if Usable(r.name) && !Blocked(t, PathOf(r.name), |r.name| - 1) {
      InstallPlaces(t, r);
      var path, b := PathOf(r.name), Install(t, r);
      forall p: Path | p in b && p !in t ensures b[p].Dir? || (p == path && b[p] == Link(r.target)) {
        if |p| == |path| { assert p == path; }
      }
    }
  }

  /**
   At no point of a refresh is an entry changed that is not a link recorded under
   its name and target; what is new is a directory or a wanted link.
   */
  lemma OnlyOwnLinksChange(t: Tree, records: seq<Record>, wanted: seq<Record>, s: Tree)
    requires WellFormed(t) && Midway(t, records, wanted, s)
    ensures forall p: Path :: p in t && !Recorded(records, p, t[p]) ==> p in s && s[p] == t[p]
    ensures forall p: Path :: p in s && !(p in t && s[p] == t[p]) ==> Wanted(wanted, p, s[p])
  {
    hide WellFormed, Installed, Recorded, Wanted;
    RemovedKeeps(t, records);
    RemovedIs(t, records);
    InstalledAdds(Removed(t, records), wanted);
    if k: nat :| k <= |records| && s == Removed(t, records[..k]) {
      RemovedIs(t, records[..k]);
      forall p: Path | p in t && !Recorded(records, p, t[p]) ensures !Recorded(records[..k], p, t[p]) {
        RecordedMore(records, k, p, t[p]);
      }
    }
  }

  lemma RecordedMore(records: seq<Record>, k: nat, p: Path, e: Entry)
    requires k <= |records|
    ensures Recorded(records[..k], p, e) ==> Recorded(records, p, e)
  { }
}
