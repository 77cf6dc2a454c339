/**
 The two files by which a refresh knows what it owns. They stand in the tree
 that it changes: the manifest of this layout and the generation of an older one.
 */
module MaterializeManifest {
  import opened Prelude
  import opened MaterializeTree

  const MANIFEST: Path := [".seele-manifest.json"]
  const GENERATION: Path := [".seele-generation"]

  const MAX_ENTRIES := 100_000

  datatype Refusal = Unsafe | Malformed | TooMany | TooLong | Occupied

  // A link is not followed, and a directory is no file.
  function Read(t: Tree, p: Path): Result<Option<Bytes>, Refusal> {
    if p !in t then Ok(None)
    else match t[p]
      case File(bytes) => Ok(Some(bytes))
      case _ => Err(Unsafe)
  }

  // What is recorded as owned: by the manifest, or else by the generation file,
  // of which `older` tells the links.
  function Previous(t: Tree, older: Bytes -> Option<seq<Record>>): Result<Manifest, Refusal> {
    match Read(t, MANIFEST)
    case Err(e) => Err(e)
    case Ok(Some(Encoded(manifest))) => if |manifest.links| > MAX_ENTRIES then Err(TooMany) else Ok(manifest)
    case Ok(Some(Plain(_))) => Err(Malformed)
    case Ok(None) =>
      match Read(t, GENERATION)
      case Err(e) => Err(e)
      case Ok(None) => Ok(Manifest("", []))
      case Ok(Some(bytes)) =>
        match older(bytes)
        case Some(links) => Ok(Manifest("", links))
        case None => Err(Malformed)
  }

  // Publication puts the manifest in place of whatever file or link is there.
  function Published(t: Tree, manifest: Manifest): Tree { t[MANIFEST := File(Encoded(manifest))] }

  lemma PublishedKeeps(t: Tree, manifest: Manifest)
    requires WellFormed(t) && !IsDir(t, MANIFEST)
    ensures WellFormed(Published(t, manifest))
  {
    var b := Published(t, manifest);
    assert MANIFEST[..0] == [];
    forall p: Path | p in b && p != [] ensures IsDir(b, p[..|p| - 1]) {
      if p != MANIFEST { assert IsDir(t, p[..|p| - 1]); }
    }
  }

  // A whole refresh that nothing stops: its result and the tree after it.
  function Refresh(t: Tree, generation: string, older: Bytes -> Option<seq<Record>>, wanted: seq<Record>,
        fits: Manifest -> bool)
    : (Result<(), Refusal>, Tree)
  {
    match Previous(t, older)
    case Err(e) => (Err(e), t)
    case Ok(before) =>
      if before.generation == generation then (Ok(()), t)
      else
        var end := Refreshed(t, before.links, wanted);
        var after := Manifest(generation, Listed(Removed(t, before.links), wanted));
        if !fits(after) then (Err(TooLong), end)
        else if IsDir(end, MANIFEST) then (Err(Occupied), end)
        else (Ok(()), Published(end, after))
  }

  // ---------- when a refresh can be run again ----------

  // No wanted name is this top-level one or below it.
  ghost predicate Free(wanted: seq<Record>, p: Path)
    requires p != []
  {
    forall r: Record :: r in wanted && Usable(r.name) ==> PathOf(r.name)[0] != p[0]
  }

  // A manifest is there, or the source has nothing that would stand in the way
  // of reading one, nor of reading that there is no older generation.
  ghost predicate Resumable(t: Tree, wanted: seq<Record>) {
    MANIFEST in t || (Free(wanted, MANIFEST) && (GENERATION in t || Free(wanted, GENERATION)))
  }

  // A file is never owned, so it stays.
  lemma FileStays(t: Tree, records: seq<Record>, wanted: seq<Record>, s: Tree, p: Path)
    requires WellFormed(t) && Midway(t, records, wanted, s) && p in t && t[p].File?
    ensures p in s && s[p] == t[p]
  {
    OnlyOwnLinksChange(t, records, wanted, s);
  }

  lemma {:induction false} InstalledFree(t: Tree, wanted: seq<Record>, p: Path)
    requires WellFormed(t) && |p| == 1 && p !in t && Free(wanted, p)
    ensures p !in Installed(t, wanted)
  {
    hide WellFormed, Install;
    if wanted != [] {
      var earlier, last := wanted[..|wanted| - 1], wanted[|wanted| - 1];
      InstalledFree(t, earlier, p);
      InstalledKeeps(t, earlier);
      InstallFree(Installed(t, earlier), last, p);
    }
  }

  lemma InstallFree(t: Tree, r: Record, p: Path)
    requires WellFormed(t) && |p| == 1 && p !in t && (Usable(r.name) ==> PathOf(r.name)[0] != p[0])
    ensures p !in Install(t, r)
  {
    hide Blocked, Install, AddDirs, WellFormed;
    InstallStops(t, r);
    if Usable(r.name) && !Blocked(t, PathOf(r.name), |r.name| - 1) { InstallPlaces(t, r); }
  }

  lemma AbsentStays(t: Tree, records: seq<Record>, wanted: seq<Record>, s: Tree, p: Path)
    requires WellFormed(t) && Midway(t, records, wanted, s) && |p| == 1 && p !in t && Free(wanted, p)
    ensures p !in s
  {
    hide WellFormed, Installed;
    RemovedKeeps(t, records);
    InstalledFree(Removed(t, records), wanted, p);
    if k: nat :| k <= |records| && s == Removed(t, records[..k]) { RemovedKeeps(t, records[..k]); }
  }

  lemma {:induction false} NothingBlocksBelow(t: Tree, p: Path, n: nat)
    requires WellFormed(t) && 0 < |p| && p[..1] !in t && n <= |p|
    ensures !Blocked(t, p, n)
  {
    if n > 0 {
      NothingBlocksBelow(t, p, n - 1);
      if n > 1 && p[..n] in t { AboveIsThere(t, p, n, 1); }
    }
  }

  // The first wanted name of that kind takes the place.
  lemma {:induction false} InstalledFills(t: Tree, wanted: seq<Record>, p: Path)
    requires WellFormed(t) && |p| == 1 && !Free(wanted, p)
    ensures p in Installed(t, wanted)
  {
    hide WellFormed, Install, Blocked;
    var earlier, last := wanted[..|wanted| - 1], wanted[|wanted| - 1];
    var before := Installed(t, earlier);
    InstalledKeeps(t, earlier);
    InstallKeeps(before, last);
    if Free(earlier, p) {
      assert wanted == earlier + [last];
      var r: Record :| r in wanted && Usable(r.name) && PathOf(r.name)[0] == p[0];
      assert r == last;
      var path := PathOf(last.name);
      assert path[..1] == p;
      if p !in before {
        NothingBlocksBelow(before, path, |path| - 1);
        InstallPlaces(before, last);
        assert if |path| > 1 then IsDir(Install(before, last), p) else path == p;
      }
    } else {
      InstalledFills(t, earlier, p);
    }
  }

  // Then it cannot be read.
  lemma FilledUnsafe(t: Tree, records: seq<Record>, wanted: seq<Record>, p: Path)
    requires WellFormed(t) && |p| == 1 && p !in t && !Free(wanted, p)
    ensures Read(Refreshed(t, records, wanted), p) == Err(Unsafe)
  {
    hide WellFormed, Installed;
    RemovedKeeps(t, records);
    InstalledFills(Removed(t, records), wanted, p);
    InstalledAdds(Removed(t, records), wanted);
    assert Wanted(wanted, p, Refreshed(t, records, wanted)[p]);
  }

  lemma PreviousStays(t: Tree, older: Bytes -> Option<seq<Record>>, wanted: seq<Record>, s: Tree)
    requires WellFormed(t) && Previous(t, older).Ok? && Midway(t, Previous(t, older).value.links, wanted, s)
    requires Resumable(t, wanted)
    ensures Previous(s, older) == Previous(t, older)
  {
    hide WellFormed, Midway, Free;
    var records := Previous(t, older).value.links;
    if MANIFEST in t {
      FileStays(t, records, wanted, s, MANIFEST);
    } else {
      AbsentStays(t, records, wanted, s, MANIFEST);
      if GENERATION in t {
        FileStays(t, records, wanted, s, GENERATION);
      } else {
        AbsentStays(t, records, wanted, s, GENERATION);
      }
    }
  }

  lemma StoppedAtEnd(t: Tree, records: seq<Record>, wanted: seq<Record>)
    requires WellFormed(t)
    ensures Midway(t, records, wanted, Refreshed(t, records, wanted))
  {
    hide WellFormed, Installed;
    RemovedKeeps(t, records);
    InstalledKeeps(Removed(t, records), wanted);
  }

  // Otherwise a refresh that is stopped before publication cannot be run again.
  lemma Stuck(t: Tree, older: Bytes -> Option<seq<Record>>, wanted: seq<Record>)
    requires WellFormed(t) && Previous(t, older).Ok? && !Resumable(t, wanted)
    ensures Previous(Refreshed(t, Previous(t, older).value.links, wanted), older) == Err(Unsafe)
  {
    hide WellFormed, Installed, Free;
    var records := Previous(t, older).value.links;
    if Free(wanted, MANIFEST) {
      StoppedAtEnd(t, records, wanted);
      AbsentStays(t, records, wanted, Refreshed(t, records, wanted), MANIFEST);
      FilledUnsafe(t, records, wanted, GENERATION);
    } else {
      FilledUnsafe(t, records, wanted, MANIFEST);
    }
  }

  /**
   Run again on the same source, an interrupted refresh ends where an
   uninterrupted one would, result, links and manifest, wherever it was stopped
   before publication: exactly when it is resumable.
   */
  lemma Resumes(t: Tree, generation: string, older: Bytes -> Option<seq<Record>>, wanted: seq<Record>,
        fits: Manifest -> bool)
    requires WellFormed(t) && Previous(t, older).Ok? && Previous(t, older).value.generation != generation
    ensures Resumable(t, wanted) <==>
            forall s: Tree :: Midway(t, Previous(t, older).value.links, wanted, s) ==>
              Refresh(s, generation, older, wanted, fits) == Refresh(t, generation, older, wanted, fits)
  {
    hide WellFormed, Midway, Resumable, Previous, Installed, Removed, Listed;
    var records := Previous(t, older).value.links;
    if Resumable(t, wanted) {
      forall s: Tree | Midway(t, records, wanted, s)
        ensures Refresh(s, generation, older, wanted, fits) == Refresh(t, generation, older, wanted, fits)
      {
        PreviousStays(t, older, wanted, s);
        LinksResume(t, records, wanted, s);
      }
    } else {
      var end := Refreshed(t, records, wanted);
      Stuck(t, older, wanted);
      StoppedAtEnd(t, records, wanted);
      assert Refresh(end, generation, older, wanted, fits).0 == Err(Unsafe);
      assert Refresh(t, generation, older, wanted, fits).0 != Err(Unsafe);
    }
  }

  // ---------- what the manifest lists ----------

  ghost predicate Names(wanted: seq<Record>, p: Path) {
    exists r: Record :: r in wanted && Usable(r.name) && PathOf(r.name) == p
  }

  lemma {:induction false} StandingIs(t: Tree, wanted: seq<Record>, r: Record)
    ensures r in Standing(t, wanted) <==> r in wanted && Owns(t, r)
  {
    hide Owns;
    if wanted != [] {
      var earlier, last := wanted[..|wanted| - 1], wanted[|wanted| - 1];
      StandingIs(t, earlier, r);
      assert wanted == earlier + [last];
    }
  }

  lemma {:induction false} StandingSame(a: Tree, b: Tree, wanted: seq<Record>)
    requires forall r: Record :: r in wanted ==> Owns(a, r) == Owns(b, r)
    ensures Standing(a, wanted) == Standing(b, wanted)
  {
    hide Owns;
    if wanted != [] {
      var earlier, last := wanted[..|wanted| - 1], wanted[|wanted| - 1];
      assert wanted == earlier + [last];
      StandingSame(a, b, earlier);
    }
  }

  /**
   The published manifest lists exactly the wanted links that stand then: exactly
   when there was a manifest before or none of them has its name.
   */
  lemma ManifestStands(t: Tree, records: seq<Record>, wanted: seq<Record>, after: Manifest)
    requires WellFormed(t) && (MANIFEST in t ==> t[MANIFEST].File?) && !IsDir(Refreshed(t, records, wanted), MANIFEST)
    ensures var end := Published(Refreshed(t, records, wanted), after);
            Listed(Removed(t, records), wanted) == Standing(end, wanted) <==> MANIFEST in t || !Names(wanted, MANIFEST)
  {
    hide WellFormed, Installed, Listed;
    var rest, before := Removed(t, records), Refreshed(t, records, wanted);
    var end := Published(before, after);
    RemovedKeeps(t, records);
    InstalledKeeps(rest, wanted);
    ListedStand(rest, wanted, before);
    if MANIFEST in t || !Names(wanted, MANIFEST) {
      if MANIFEST in t {
        StoppedAtEnd(t, records, wanted);
        FileStays(t, records, wanted, before, MANIFEST);
      }
      StandingSame(before, end, wanted);
    } else {
      InstalledFills(rest, wanted, MANIFEST);
      InstalledAdds(rest, wanted);
      assert Wanted(wanted, MANIFEST, before[MANIFEST]);
      var r: Record :| r in wanted && Usable(r.name) && PathOf(r.name) == MANIFEST &&
        before[MANIFEST] == Link(r.target);
      StandingIs(before, wanted, r);
      StandingIs(end, wanted, r);
    }
  }

  // A whole refresh changes the manifest, owned links, and otherwise only adds.
  lemma RefreshChanges(t: Tree, generation: string, older: Bytes -> Option<seq<Record>>, wanted: seq<Record>,
        fits: Manifest -> bool)
    requires WellFormed(t) && Previous(t, older).Ok?
    ensures var records, end := Previous(t, older).value.links, Refresh(t, generation, older, wanted, fits).1;
            && (forall p: Path :: p in t && p != MANIFEST && !Recorded(records, p, t[p]) ==> p in end && end[p] == t[p])
            && (forall p: Path :: p in end && p != MANIFEST && !(p in t && end[p] == t[p]) ==>
              Wanted(wanted, p, end[p]))
  {
    hide WellFormed, Previous, Recorded, Wanted, Installed, Removed, Listed;
    var records := Previous(t, older).value.links;
    StoppedAtEnd(t, records, wanted);
    OnlyOwnLinksChange(t, records, wanted, Refreshed(t, records, wanted));
  }

  // The first refresh from a source that has a file of the manifest's name:
  // stopped after its links are installed it can never be run again, and run to
  // its end it lists a link that it has just replaced.
  lemma NamesakeStops(target: string, generation: string, older: Bytes -> Option<seq<Record>>, fits: Manifest -> bool)
    returns (t: Tree, wanted: seq<Record>, stopped: Tree)
    requires generation != "" && forall m :: fits(m)
    ensures WellFormed(t) && Previous(t, older) == Ok(Manifest("", [])) && Midway(t, [], wanted, stopped)
    ensures Refresh(stopped, generation, older, wanted, fits) == (Err(Unsafe), stopped)
    ensures Refresh(t, generation, older, wanted, fits).0 == Ok(())
    ensures var end := Refresh(t, generation, older, wanted, fits).1;
            Previous(end, older) == Ok(Manifest(generation, wanted)) && Standing(end, wanted) == []
  {
    hide WellFormed, Installed, Removed, Listed, Standing, Midway, PathOf;
    t, wanted, stopped := NamesakeTrees(target);
    StoppedAtEnd(t, [], wanted);
    NamesakeEnd(t, wanted, stopped, generation);
  }

  lemma NamesakeTrees(target: string) returns (t: Tree, wanted: seq<Record>, stopped: Tree)
    ensures t == map[[] := Dir] && WellFormed(t) && Removed(t, []) == t
    ensures |wanted| == 1 && Usable(wanted[0].name) && PathOf(wanted[0].name) == MANIFEST
    ensures stopped == Installed(t, wanted) == t[MANIFEST := Link(target)] && Listed(t, wanted) == wanted
  {
    var name := [Normal(".seele-manifest.json")];
    t := map[[] := Dir];
    wanted := [Record(name, target)];
    assert name[1..] == [] && PathOf(name) == MANIFEST;
    assert wanted[..0] == [];
    stopped := Installed(t, wanted);
    assert Installed(t, []) == t;
    assert stopped == t[MANIFEST := Link(target)];
    assert Listed(t, wanted) == [] + [wanted[0]] == wanted;
  }

  lemma NamesakeEnd(t: Tree, wanted: seq<Record>, stopped: Tree, generation: string)
    requires |wanted| == 1 && Usable(wanted[0].name) && PathOf(wanted[0].name) == MANIFEST
    ensures Standing(Published(stopped, Manifest(generation, wanted)), wanted) == []
  {
    var end := Published(stopped, Manifest(generation, wanted));
    assert !Owns(end, wanted[0]) && Standing(end, wanted) == Standing(end, wanted[..0]);
  }
}
