/** What a refresh makes of each path, said from the files and links that are in the tree. */
module MaterializeEffects {
  import opened Prelude
  import opened MaterializeTree
  import opened MaterializeManifest

  // ---------- what is installed, path by path ----------

  // Whatever is on the way to the path is a directory.
  ghost predicate WayFree(t: Tree, p: Path) {
    forall q: Path {:trigger q in t} :: q in t && q <= p && |q| < |p| ==> t[q].Dir?
  }

  lemma {:induction false} PathIs(name: Name, i: nat)
    requires (forall c :: c in name ==> c.Normal?) && i < |name|
    ensures |PathOf(name)| == |name| && PathOf(name)[i] == name[i].name
  {
    if i > 0 {
      assert name == [name[0]] + name[1..];
      PathIs(name[1..], i - 1);
    }
  }

  lemma {:induction false} BlockedIs(t: Tree, p: Path, n: nat)
    requires n <= |p|
    ensures Blocked(t, p, n) <==> exists m: nat :: 0 < m <= n && p[..m] in t && !t[p[..m]].Dir?
  {
    if n > 0 { BlockedIs(t, p, n - 1); }
  }

  lemma FreeIs(t: Tree, p: Path)
    requires p != [] && WellFormed(t)
    ensures WayFree(t, p) <==> !Blocked(t, p, |p| - 1)
  {
    BlockedIs(t, p, |p| - 1);
    if !Blocked(t, p, |p| - 1) {
      forall q: Path | q in t && q <= p && |q| < |p| ensures t[q].Dir? {
        assert q == p[..|q|];
        if q == [] { assert IsDir(t, []); }
      }
    } else {
      var m: nat :| 0 < m <= |p| - 1 && p[..m] in t && !t[p[..m]].Dir?;
      assert p[..m] <= p;
    }
  }

  // A wanted link whose way was free has this path, or has it on its way.
  ghost predicate NewFor(t: Tree, wanted: seq<Record>, q: Path, e: Entry) {
    exists r: Record {:trigger r in wanted} :: r in wanted && Places(t, r, q, e)
  }

  ghost predicate Places(t: Tree, r: Record, q: Path, e: Entry) {
    && Usable(r.name) && WayFree(t, PathOf(r.name)) && q <= PathOf(r.name)
    && e == if q == PathOf(r.name) then Link(r.target) else Dir
  }

  lemma PlacesNew(t: Tree, r: Record, q: Path)
    requires WellFormed(t) && q in Install(t, r) && q !in t
    ensures Places(t, r, q, Install(t, r)[q])
  {
    hide Blocked, Install, AddDirs, WellFormed;
    InstallStops(t, r);
    FreeIs(t, PathOf(r.name));
    InstallPlaces(t, r);
  }

  lemma {:induction false} InstalledNew(t: Tree, wanted: seq<Record>, q: Path)
    requires WellFormed(t) && q in Installed(t, wanted) && q !in t
    ensures NewFor(t, wanted, q, Installed(t, wanted)[q])
  {
    hide WellFormed, Install, Places;
    var earlier, last := wanted[..|wanted| - 1], wanted[|wanted| - 1];
    var before := Installed(t, earlier);
    InstalledKeeps(t, earlier);
    InstallKeeps(before, last);
    if q in before {
      InstalledNew(t, earlier, q);
      var r: Record :| r in earlier && Places(t, r, q, before[q]);
      assert r in wanted;
    } else {
      PlacesNew(before, last, q);
      PlacesLess(t, before, last, q, Installed(t, wanted)[q]);
      assert last in wanted;
    }
  }

  lemma PlacesLess(a: Tree, b: Tree, r: Record, q: Path, e: Entry)
    requires Within(a, b) && Places(b, r, q, e)
    ensures Places(a, r, q, e)
  { }

  // One name is the other or above it.
  predicate Clash(p: Path, q: Path) { p <= q || q <= p }

  // No wanted name before the k-th clashes with it.
  ghost predicate FirstOfKind(wanted: seq<Record>, k: nat)
    requires k < |wanted|
  {
    && Usable(wanted[k].name)
    && forall r: Record {:trigger r in wanted[..k]} :: r in wanted[..k] && Usable(r.name) ==>
         !Clash(PathOf(r.name), PathOf(wanted[k].name))
  }

  lemma StaysFree(t: Tree, wanted: seq<Record>, k: nat)
    requires WellFormed(t) && k < |wanted| && FirstOfKind(wanted, k)
    ensures var p, before := PathOf(wanted[k].name), Installed(t, wanted[..k]);
      WellFormed(before) && Within(t, before) && (p in before <==> p in t) && (WayFree(before, p) <==> WayFree(t, p))
  {
    hide WellFormed, Installed;
    var p, before := PathOf(wanted[k].name), Installed(t, wanted[..k]);
    InstalledKeeps(t, wanted[..k]);
    forall q: Path | q in before && q !in t && q <= p ensures |q| < |p| && before[q].Dir? {
      InstalledNew(t, wanted[..k], q);
      var r: Record :| r in wanted[..k] && Places(t, r, q, before[q]);
      assert !Clash(PathOf(r.name), p);
    }
  }

  /**
   The first wanted link of its kind: what was there stays, and if nothing was, the link
   is there in the end exactly when the way to it was free.
   */
  lemma InstalledAt(t: Tree, wanted: seq<Record>, k: nat)
    requires WellFormed(t) && k < |wanted| && FirstOfKind(wanted, k)
    ensures var p, end := PathOf(wanted[k].name), Installed(t, wanted);
      && (p in t ==> p in end && end[p] == t[p])
      && (p !in t ==> (p in end <==> WayFree(t, p)))
      && (p !in t && WayFree(t, p) ==> end[p] == Link(wanted[k].target))
  {
    hide WellFormed, Installed, Install, Blocked, FirstOfKind;
    var r := wanted[k];
    KindUsable(wanted, k);
    var p, end, before := PathOf(r.name), Installed(t, wanted), Installed(t, wanted[..k]);
    StaysFree(t, wanted, k);
    InstalledKeeps(t, wanted);
    InstalledGrows(t, wanted, k + 1);
    NextInstall(t, wanted, k);
    FreeIs(before, p);
    if WayFree(t, p) {
      InstallPlaces(before, r);
    } else if p in end {
      var q: Path :| q in t && q <= p && |q| < |p| && !t[q].Dir?;
      assert q == p[..|q|] && p == p[..|p|];
      AboveIsThere(end, p, |p|, |q|);
    }
  }

  lemma KindUsable(wanted: seq<Record>, k: nat)
    requires k < |wanted| && FirstOfKind(wanted, k)
    ensures Usable(wanted[k].name)
  { }

  lemma NextInstall(t: Tree, wanted: seq<Record>, k: nat)
    requires k < |wanted|
    ensures Installed(t, wanted[..k + 1]) == Install(Installed(t, wanted[..k]), wanted[k])
  {
    assert wanted[..k + 1][..k] == wanted[..k];
  }

  // ---------- what a refresh finds recorded ----------

  // The links that the manifest records, or else those that the older generation tells.
  ghost predicate FoundIn(t: Tree, older: Bytes -> Option<seq<Record>>, links: seq<Record>) {
    var m, g := [".seele-manifest.json"], [".seele-generation"];
    if m in t then t[m].File? && t[m].bytes.Encoded? && links == t[m].bytes.manifest.links && |links| <= 100_000
    else if g in t then t[g].File? && older(t[g].bytes) == Some(links)
    else links == []
  }

  // A manifest of this generation: nothing is to be done.
  ghost predicate UpToDate(t: Tree, generation: string) {
    var m := [".seele-manifest.json"];
    m in t && t[m].File? && t[m].bytes.Encoded? && t[m].bytes.manifest.generation == generation
  }

  // Without links to start from nothing is changed.
  lemma RefreshStops(t: Tree, generation: string, older: Bytes -> Option<seq<Record>>, wanted: seq<Record>,
        fits: Manifest -> bool)
    requires generation != ""
    ensures var m, g, (r, end) := [".seele-manifest.json"], [".seele-generation"],
                                  Refresh(t, generation, older, wanted, fits);
      && (m in t && !t[m].File? ==> r == Err(Unsafe))
      && (m in t && t[m].File? && t[m].bytes.Plain? ==> r == Err(Malformed))
      && (m in t && t[m].File? && t[m].bytes.Encoded? && |t[m].bytes.manifest.links| > 100_000 ==> r == Err(TooMany))
      && (m !in t && g in t && !t[g].File? ==> r == Err(Unsafe))
      && (m !in t && g in t && t[g].File? && older(t[g].bytes) == None ==> r == Err(Malformed))
      && ((forall links :: !FoundIn(t, older, links)) || UpToDate(t, generation) ==> end == t)
      && ((exists links :: FoundIn(t, older, links)) ==>
            (UpToDate(t, generation) ==> r == Ok(())) && (r == Ok(()) || r == Err(TooLong) || r == Err(Occupied)))
  {
    hide Refreshed, Listed, Removed;
    assert Previous(t, older).Ok? ==> FoundIn(t, older, Previous(t, older).value.links);
    if links: seq<Record> :| FoundIn(t, older, links) {
      assert Previous(t, older).Ok? && Previous(t, older).value.links == links;
    }
  }

  // Work(t, ...): a refresh that has something to do, from these links to this end.
  ghost predicate Works(t: Tree, generation: string, older: Bytes -> Option<seq<Record>>, wanted: seq<Record>,
        fits: Manifest -> bool, links: seq<Record>, r: Result<(), Refusal>, end: Tree)
  {
    && WellFormed(t) && generation != "" && FoundIn(t, older, links) && !UpToDate(t, generation)
    && Refresh(t, generation, older, wanted, fits) == (r, end)
  }

  // Up to the manifest the end is that of the links.
  lemma WorkRefreshes(t: Tree, generation: string, older: Bytes -> Option<seq<Record>>, wanted: seq<Record>,
        fits: Manifest -> bool, links: seq<Record>, r: Result<(), Refusal>, end: Tree)
    requires Works(t, generation, older, wanted, fits, links, r, end)
    ensures var before := Installed(Removed(t, links), wanted);
      && (r == Ok(()) ==>
            && end == before[MANIFEST := File(Encoded(Manifest(generation, Listed(Removed(t, links), wanted))))])
      && (r != Ok(()) ==> end == before)
  {
    hide WellFormed, Installed, Removed, Listed;
    assert Previous(t, older).Ok? && Previous(t, older).value.links == links;
    assert Previous(t, older).value.generation != generation;
  }

  // What is there and not recorded as a link of ours.
  ghost predicate Foreign(t: Tree, links: seq<Record>, p: Path) {
    p in t && forall r: Record {:trigger r in links} :: r in links && Usable(r.name) && PathOf(r.name) == p ==>
      t[p] != Link(r.target)
  }

  lemma ForeignStays(t: Tree, links: seq<Record>)
    requires WellFormed(t)
    ensures forall p: Path :: p in Removed(t, links) <==> Foreign(t, links, p)
    ensures Within(Removed(t, links), t) && WellFormed(Removed(t, links))
  {
    hide WellFormed;
    RemovedIs(t, links);
    RemovedKeeps(t, links);
    forall p: Path | p in t ensures Foreign(t, links, p) <==> !Recorded(links, p, t[p]) { }
  }

  // Whatever is on the way to the path, and not ours, is a directory.
  ghost predicate WayOpen(t: Tree, links: seq<Record>, p: Path) {
    forall q: Path {:trigger q in t} :: Foreign(t, links, q) && q <= p && |q| < |p| ==> t[q].Dir?
  }

  lemma OpenIs(t: Tree, links: seq<Record>, p: Path)
    requires WellFormed(t)
    ensures WayFree(Removed(t, links), p) <==> WayOpen(t, links, p)
  {
    hide WellFormed, Removed, Foreign;
    ForeignStays(t, links);
    var rest := Removed(t, links);
    assert forall q: Path :: q in rest ==> q in t && rest[q] == t[q];
  }

  /**
   A refresh, path by path and apart from the manifest. What is not ours stays. All else
   there is, is a wanted link whose way is open, or a directory on the way to one. So a
   link that was recorded stands in the end only if it is wanted.
   */
  lemma RefreshEffect(t: Tree, generation: string, older: Bytes -> Option<seq<Record>>, wanted: seq<Record>,
        fits: Manifest -> bool, links: seq<Record>, r: Result<(), Refusal>, end: Tree, p: Path)
    requires Works(t, generation, older, wanted, fits, links, r, end)
    requires r == Ok(()) ==> p != [".seele-manifest.json"]
    ensures Foreign(t, links, p) ==> p in end && end[p] == t[p]
    ensures p in end && !Foreign(t, links, p) ==>
              exists w: Record :: w in wanted && Usable(w.name) && WayOpen(t, links, PathOf(w.name)) &&
                p <= PathOf(w.name) && end[p] == if p == PathOf(w.name) then Link(w.target) else Dir
  {
    hide WellFormed, Installed, Removed, Listed, Foreign, WayOpen;
    WorkRefreshes(t, generation, older, wanted, fits, links, r, end);
    ForeignStays(t, links);
    InstalledKeeps(Removed(t, links), wanted);
    if p in end && !Foreign(t, links, p) {
      InstalledNew(Removed(t, links), wanted, p);
      var w: Record :| w in wanted && Places(Removed(t, links), w, p, end[p]);
      OpenIs(t, links, PathOf(w.name));
    }
  }

  lemma OldLinksGo(t: Tree, generation: string, older: Bytes -> Option<seq<Record>>, wanted: seq<Record>,
        fits: Manifest -> bool, links: seq<Record>, end: Tree, r: Record)
    requires Works(t, generation, older, wanted, fits, links, Ok(()), end)
    requires r in links && Usable(r.name) && PathOf(r.name) in end && end[PathOf(r.name)] == Link(r.target)
    ensures exists w: Record ::
              w in wanted && Usable(w.name) && PathOf(w.name) == PathOf(r.name) && w.target == r.target
  {
    hide WellFormed, Installed, Removed, Listed, WayOpen, FoundIn, Refresh, Within;
    WorkRefreshes(t, generation, older, wanted, fits, links, Ok(()), end);
    RefreshEffect(t, generation, older, wanted, fits, links, Ok(()), end, PathOf(r.name));
  }

  /**
   The first wanted link of its kind: in the end it stands exactly when it stood before
   and is not ours, or nothing but ours was in its place or on its way. A name that
   an older link holds carries the wanted target.
   */
  lemma WantedStands(t: Tree, generation: string, older: Bytes -> Option<seq<Record>>, wanted: seq<Record>,
        fits: Manifest -> bool, links: seq<Record>, r: Result<(), Refusal>, end: Tree, k: nat)
    requires Works(t, generation, older, wanted, fits, links, r, end) && k < |wanted| && FirstOfKind(wanted, k)
    requires r == Ok(()) ==> PathOf(wanted[k].name) != [".seele-manifest.json"]
    ensures var p := PathOf(wanted[k].name);
      && (!Foreign(t, links, p) ==> (p in end <==> WayOpen(t, links, p)))
      && (!Foreign(t, links, p) && WayOpen(t, links, p) ==> end[p] == Link(wanted[k].target))
      && (p in t && !Foreign(t, links, p) ==> WayOpen(t, links, p))
  {
    hide WellFormed, Installed, Removed, Listed, Foreign, WayOpen, FirstOfKind;
    KindUsable(wanted, k);
    WorkRefreshes(t, generation, older, wanted, fits, links, r, end);
    ForeignStays(t, links);
    InstalledAt(Removed(t, links), wanted, k);
    OpenIs(t, links, PathOf(wanted[k].name));
    OnTheWay(t, links, PathOf(wanted[k].name));
  }

  lemma OnTheWay(t: Tree, links: seq<Record>, p: Path)
    requires WellFormed(t)
    ensures p in t ==> WayOpen(t, links, p)
  {
    if p in t {
      forall q: Path | Foreign(t, links, q) && q <= p && |q| < |p| ensures t[q].Dir? {
        assert q == p[..|q|] && p == p[..|p|];
        AboveIsThere(t, p, |p|, |q|);
      }
    }
  }

  // The manifest of a refresh that ends well says its generation and lists, in the order
  // of the names, the wanted links that stood before it was published.
  lemma ManifestEffect(t: Tree, generation: string, older: Bytes -> Option<seq<Record>>, wanted: seq<Record>,
        fits: Manifest -> bool, links: seq<Record>, end: Tree)
    requires Works(t, generation, older, wanted, fits, links, Ok(()), end)
    requires forall w: Record :: w in wanted && Usable(w.name) ==> PathOf(w.name) != [".seele-manifest.json"]
    ensures var m := [".seele-manifest.json"];
      && m in end && end[m].File? && end[m].bytes.Encoded? && end[m].bytes.manifest.generation == generation
      && end[m].bytes.manifest.links == Standing(end, wanted)
      && fits(end[m].bytes.manifest)
  {
    hide WellFormed, Installed, Removed, Listed, Standing;
    WorkRefreshes(t, generation, older, wanted, fits, links, Ok(()), end);
    var rest, before := Removed(t, links), Installed(Removed(t, links), wanted);
    ForeignStays(t, links);
    InstalledKeeps(rest, wanted);
    ListedStand(rest, wanted, before);
    StandingSame(before, end, wanted);
    assert Previous(t, older).Ok? && Previous(t, older).value.links == links;
  }

  // It fails only because the manifest would be too long, or finds a directory in its
  // place. Either way the tree stays in order.
  lemma WorkVerdict(t: Tree, generation: string, older: Bytes -> Option<seq<Record>>, wanted: seq<Record>,
        fits: Manifest -> bool, links: seq<Record>, r: Result<(), Refusal>, end: Tree)
    requires Works(t, generation, older, wanted, fits, links, r, end)
    ensures WellFormed(end)
    ensures var m := [".seele-manifest.json"];
      || r == Ok(())
      || (r == Err(TooLong) && !fits(Manifest(generation, Standing(end, wanted))))
      || (r == Err(Occupied) && m in end && end[m].Dir? && fits(Manifest(generation, Standing(end, wanted))))
  {
    hide WellFormed, Installed, Removed, Listed, Standing;
    WorkRefreshes(t, generation, older, wanted, fits, links, r, end);
    var rest, before := Removed(t, links), Installed(Removed(t, links), wanted);
    ForeignStays(t, links);
    InstalledKeeps(rest, wanted);
    ListedStand(rest, wanted, before);
    assert Previous(t, older).Ok? && Previous(t, older).value.links == links;
    if r == Ok(()) { PublishedKeeps(before, Manifest(generation, Listed(rest, wanted))); }
  }

  // In their order, the links that stand.
  lemma {:induction false} StandingAt(t: Tree, a: seq<Record>, b: seq<Record>, r: Record)
    ensures Standing(t, a + b) == Standing(t, a) + Standing(t, b)
    ensures Standing(t, []) == []
    ensures Standing(t, [r]) ==
            if Usable(r.name) && PathOf(r.name) in t && t[PathOf(r.name)] == Link(r.target) then [r] else []
  {
    assert [r][..0] == [];
    if b == [] {
      assert a + b == a;
    } else {
      var n := |b| - 1;
      StandingAt(t, a, b[..n], r);
      assert (a + b)[..|a + b| - 1] == a + b[..n];
    }
  }
}
