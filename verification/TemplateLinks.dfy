/** The second half of a prefetch: the recorded files of a template are linked
    into gear-work, below directories that are copied from the index. A template
    may be a wrong one, recorded for another image. */
module TemplateLinks {
  import opened Text
  import opened Overlay
  import opened Store
  import opened LazyCache
  import PathWalk

  /** Paths and hashes, in the order in which the map is ranged over. */
  type Template = seq<(Path, string)>

  function StubKind(s: Stub): PathWalk.Kind {
    match s
    case SubDir => PathWalk.IsDir
    case Link(target) => PathWalk.IsLink(target)
    case _ => PathWalk.IsFile
  }

  function IndexKinds(w: World, i: Image): PathWalk.Tree {
    map k | k in w.index && k.0 == i :: k.1 := StubKind(w.index[k])
  }

  /** `os.Lstat` finds the name in the index. */
  predicate InIndex(w: World, d: Disk, i: Image, p: Path)
    requires p != []
  {
    match PathWalk.PlaceOf(IndexKinds(w, i), p)
    case Inside(r, _) => (i, r) in w.index
    case Outside => (i, p) in d.host.sources
    case Broken => false
  }

  /** One directory of the chain. */
  function CopyOne(w: World, d: Disk, i: Image, q: Path): (bool, Disk)
    requires q != []
  {
    if InWork(d, i, q) then (true, d)
    else if !InIndex(w, d, i, q) then (false, d)
    else Mkdir(d, i, q)
  }

  /** Copies the directories above `p` from the index, from the top down. */
  function CopyDirs(w: World, d: Disk, i: Image, p: Path): (bool, Disk)
    requires p != []
    decreases |p|
  {
    if |p| == 1 then (true, d)
    else
      var (ok, d') := CopyDirs(w, d, i, Parent(p));
      if ok then CopyOne(w, d', i, Parent(p)) else (false, d')
  }

  /** A failing link is only logged. */
  function TryLink(d: Disk, i: Image, p: Path, cid: string): Disk
    requires p != []
  {
    if cid !in d.pub then d
    else
      match PutNode(d, i, p, Hard(d.pub[cid]))
      case Some(d') => d'
      case None => d
  }

  /** Directories first, then the link. False: the path is not in the index and its
      directories could not be copied, so that the request panics. */
  function CopyThenLink(w: World, d: Disk, i: Image, p: Path, cid: string): (bool, Disk)
    requires p != []
  {
    var (ok, d') := CopyDirs(w, d, i, p);
    if ok then (true, TryLink(d', i, p, cid))
    else if InIndex(w, d', i, p) then (true, TryLink(MkdirAll(d', i, Parent(p)).1, i, p, cid))
    else (false, d')
  }

  /** Link one recorded file. A panic is caught by the server, which goes on. */
  function LinkRecorded(w: World, d: Disk, i: Image, entry: (Path, string)): (bool, Disk) {
    var (p, cid) := entry;
    if p == [] || InWork(d, i, p) then (true, d)
    else if |p| == 1 || InWork(d, i, Parent(p)) then (true, TryLink(d, i, p, cid))
    else CopyThenLink(w, d, i, p, cid)
  }

  function LinkTemplate(w: World, d: Disk, i: Image, template: Template): (bool, Disk) {
    if template == [] then (true, d)
    else
      var (ok, d') := LinkTemplate(w, d, i, template[..|template| - 1]);
      if ok then LinkRecorded(w, d', i, template[|template| - 1]) else (false, d')
  }

  function Prefetch(w: World, d: Disk, i: Image, hashes: seq<string>, template: Template): (bool, Disk) {
    LinkTemplate(w, Unpacked(w, d, i, hashes), i, template)
  }

  /** The disk after the transfer. */
  function Unpacked(w: World, d: Disk, i: Image, hashes: seq<string>): Disk {
    Unpack(w, d, i, Archive(d.storage, Missing(d, hashes)))
  }

  // ----- only nodes are added -----

  lemma CopyOneAdds(w: World, d: Disk, i: Image, q: Path)
    requires WorkClosed(d.work) && q != []
    ensures Adds(d, CopyOne(w, d, i, q).1)
  {
    MkdirAdds(d, i, q);
  }

  lemma {:induction false} CopyDirsAdds(w: World, d: Disk, i: Image, p: Path)
    requires WorkClosed(d.work) && p != []
    ensures Adds(d, CopyDirs(w, d, i, p).1)
    decreases |p|
  {
    if |p| > 1 {
      CopyDirsAdds(w, d, i, Parent(p));
      var (ok, d') := CopyDirs(w, d, i, Parent(p));
      if ok {
        CopyOneAdds(w, d', i, Parent(p));
        AddsTwice(d, d', CopyOne(w, d', i, Parent(p)).1);
      }
    }
  }

  lemma TryLinkAdds(d: Disk, i: Image, p: Path, cid: string)
    requires WorkClosed(d.work) && p != []
    ensures Adds(d, TryLink(d, i, p, cid))
  {
    if cid in d.pub {
      PutNodeAdds(d, i, p, Hard(d.pub[cid]));
    }
  }

  lemma AddsThenLinks(d: Disk, d': Disk, i: Image, p: Path, cid: string)
    requires Adds(d, d') && p != []
    ensures Adds(d, TryLink(d', i, p, cid))
  {
    TryLinkAdds(d', i, p, cid);
    AddsTwice(d, d', TryLink(d', i, p, cid));
  }

  lemma CopyThenLinkAdds(w: World, d: Disk, i: Image, p: Path, cid: string)
    requires WorkClosed(d.work) && p != []
    ensures Adds(d, CopyThenLink(w, d, i, p, cid).1)
  {
    CopyDirsAdds(w, d, i, p);
    var (ok, d') := CopyDirs(w, d, i, p);
    if ok {
      AddsThenLinks(d, d', i, p, cid);
    } else if InIndex(w, d', i, p) {
      MkdirAllAdds(d', i, Parent(p));
      AddsTwice(d, d', MkdirAll(d', i, Parent(p)).1);
      AddsThenLinks(d, MkdirAll(d', i, Parent(p)).1, i, p, cid);
    }
  }

  /** Linking a recorded entry only adds nodes, and gear-work stays a tree even
      when the entry is a wrong one. */
  lemma LinkRecordedAdds(w: World, d: Disk, i: Image, entry: (Path, string))
    requires WorkClosed(d.work)
    ensures Adds(d, LinkRecorded(w, d, i, entry).1)
  {
    AddsNothing(d);
    if entry.0 != [] {
      TryLinkAdds(d, i, entry.0, entry.1);
      CopyThenLinkAdds(w, d, i, entry.0, entry.1);
    }
  }

  lemma {:induction false} LinkTemplateAdds(w: World, d: Disk, i: Image, template: Template)
    requires WorkClosed(d.work)
    ensures Adds(d, LinkTemplate(w, d, i, template).1)
  {
    if template != [] {
      var front := template[..|template| - 1];
      LinkTemplateAdds(w, d, i, front);
      var d' := LinkTemplate(w, d, i, front).1;
      LinkRecordedAdds(w, d', i, template[|template| - 1]);
      AddsTwice(d, d', LinkRecorded(w, d', i, template[|template| - 1]).1);
    }
  }

  // ----- right entries -----

  /** The recorded entry belongs to this image. */
  ghost predicate FromIndex(w: World, i: Image, entry: (Path, string)) {
    (i, entry.0) in w.index && w.index[(i, entry.0)] == Content(entry.1)
  }

  ghost predicate ParentsKnown(w: World, i: Image, p: Path) {
    forall q :: q in Ancestors(p) ==> IsSubDir(w, i, q)
  }

  /** What is linked at place `r` of gear-work does no harm: no directory is made
      where the index has something else, and the content is the file's own, if
      it comes to a link at all. */
  ghost predicate HarmlessAt(w: World, d: Disk, i: Image, r: Path, cid: string) {
    && (forall q :: q in Ancestors(r) && (i, q) in w.index ==> IsSubDir(w, i, q))
    && (ParentsKnown(w, i, r) && cid in d.pub ==> FromIndex(w, i, (r, cid)))
  }

  /** An entry is harmless when its name is there already, or it does no harm at
      the place where it lands: below a symlink of gear-work that is somewhere
      else than its path says. */
  ghost predicate Harmless(w: World, d: Disk, i: Image, entry: (Path, string)) {
    entry.0 == [] || InWork(d, i, entry.0) ||
    match PathWalk.Lands(WorkKinds(d.work, i), entry.0)
    case Inside(r, _) => HarmlessAt(w, d, i, r, entry.1)
    case _ => true
  }

  lemma IndexAt(w: World, i: Image, p: Path)
    ensures p in IndexKinds(w, i) <==> (i, p) in w.index
    ensures (i, p) in w.index ==> IndexKinds(w, i)[p] == StubKind(w.index[(i, p)])
  {
    if (i, p) in w.index {
      var k := (i, p);
      assert k.1 == p;
    }
  }

  /** Right gear-work is a part of the index. */
  lemma WorkInIndex(w: World, d: Disk, i: Image)
    requires Inv(w, d)
    ensures PathWalk.Extends(WorkKinds(d.work, i), IndexKinds(w, i))
  {
    forall p | p in WorkKinds(d.work, i)
      ensures p in IndexKinds(w, i) && IndexKinds(w, i)[p] == WorkKinds(d.work, i)[p]
    {
      KindsAt(d.work, i, p);
      IndexAt(w, i, p);
      assert NodeOk(w, d, (i, p), d.work[(i, p)]);
    }
  }

  lemma KnownDirsAbove(w: World, i: Image, r: Path)
    requires ParentsKnown(w, i, r)
    ensures PathWalk.DirsAbove(IndexKinds(w, i), r)
  {
    forall m | 0 < m < |r|
      ensures PathWalk.DirAt(IndexKinds(w, i), r[..m])
    {
      assert r[..m] in Ancestors(r);
      IndexAt(w, i, r[..m]);
    }
  }

  /** Below known directories the index has a name where gear-work would. */
  lemma IndexPlace(w: World, d: Disk, i: Image, p: Path)
    requires Inv(w, d) && p != [] && PathWalk.ProperPath(p)
    requires PathWalk.Lands(WorkKinds(d.work, i), p).Inside?
    requires ParentsKnown(w, i, PathWalk.Lands(WorkKinds(d.work, i), p).path)
    ensures PathWalk.PlaceOf(IndexKinds(w, i), p) == PathWalk.Lands(WorkKinds(d.work, i), p)
  {
    WorkInIndex(w, d, i);
    KnownDirsAbove(w, i, PathWalk.Lands(WorkKinds(d.work, i), p).path);
    PathWalk.LandsIsPlace(WorkKinds(d.work, i), IndexKinds(w, i), p);
  }

  lemma ProperParent(p: Path)
    requires p != [] && PathWalk.ProperPath(p)
    ensures PathWalk.ProperPath(Parent(p)) && PathWalk.Proper(PathWalk.Last(p))
  {
  }

  /** A name that can be reached has all its directories. */
  lemma {:induction false} NothingToCopy(w: World, d: Disk, i: Image, p: Path)
    requires p != [] && PathWalk.ProperPath(p) && PathWalk.Follow(WorkKinds(d.work, i), Parent(p)).Inside?
    ensures CopyDirs(w, d, i, p) == (true, d)
    decreases |p|
  {
    if |p| > 1 {
      var t, up := WorkKinds(d.work, i), Parent(p);
      ProperParent(p);
      ProperParent(up);
      PathWalk.FollowedAbove(t, up);
      NothingToCopy(w, d, i, up);
      PathWalk.FollowHas(t, up);
      KindsAt(d.work, i, PathWalk.PlaceOf(t, up).path);
    }
  }

  // ----- missing directories that the index knows -----

  lemma ParentsOfParent(w: World, i: Image, r: Path)
    requires r != [] && ParentsKnown(w, i, r)
    ensures ParentsKnown(w, i, Parent(r))
    ensures Parent(r) != [] ==> IsSubDir(w, i, Parent(r))
  {
    forall q | q in Ancestors(Parent(r))
      ensures IsSubDir(w, i, q)
    {
      var n :| 0 < n < |r| - 1 && q == Parent(r)[..n];
      assert q == r[..n];
      assert q in Ancestors(r);
    }
    if Parent(r) != [] {
      assert Parent(r) == r[..|r| - 1] && Parent(r) in Ancestors(r);
    }
  }

  /** Making a directory that the index has, at the place of its name. */
  lemma MkdirKnown(w: World, d: Disk, i: Image, q: Path)
    requires Inv(w, d) && q != [] && PathWalk.Proper(PathWalk.Last(q)) && WorkPlace(d, i, q).Inside?
    requires (i, WorkPlace(d, i, q).path) !in d.work && IsSubDir(w, i, WorkPlace(d, i, q).path)
    ensures var (ok, d') := Mkdir(d, i, q); var r := WorkPlace(d, i, q);
            && ok && Kept(w, d, d') && Adds(d, d') && d' == AddNode(d, i, r.path, Folder)
            && PathWalk.Follow(WorkKinds(d'.work, i), q) == r
  {
    var r := WorkPlace(d, i, q).path;
    PlaceIsBelow(d, i, q);
    AddNodeKeeps(w, d, (i, r), Folder);
    AddNodeAdds(d, i, r, Folder);
    var d' := AddNode(d, i, r, Folder);
    GrownKinds(d, d', i);
    KindsAt(d'.work, i, r);
    PathWalk.MadeFollows(WorkKinds(d.work, i), WorkKinds(d'.work, i), q);
  }

  lemma GrownKinds(d: Disk, d': Disk, i: Image)
    requires Adds(d, d')
    ensures PathWalk.Extends(WorkKinds(d.work, i), WorkKinds(d'.work, i))
  {
    forall p | p in WorkKinds(d.work, i)
      ensures p in WorkKinds(d'.work, i) && WorkKinds(d'.work, i)[p] == WorkKinds(d.work, i)[p]
    {
      KindsAt(d.work, i, p);
      KindsAt(d'.work, i, p);
    }
  }

  /** The copy has made what was missing above `p`, and nothing else: `r` is
      where `p` lands. */
  ghost predicate CopiedTo(w: World, d: Disk, d': Disk, i: Image, p: Path, r: PathWalk.Place)
    requires p != [] && r.Inside?
  {
    && Kept(w, d, d') && Adds(d, d') && WorkPlace(d', i, p) == r
    && forall k :: k in d'.work ==> k in d.work || |k.1| < |r.path|
  }

  lemma CopiedNone(w: World, d: Disk, i: Image, p: Path, r: PathWalk.Place)
    requires Inv(w, d) && p != [] && r.Inside? && WorkPlace(d, i, p) == r
    ensures CopiedTo(w, d, d, i, p, r)
  {
  }

  lemma {:induction false} CopyKnown(w: World, d: Disk, i: Image, p: Path)
    requires Inv(w, d) && p != [] && PathWalk.ProperPath(p)
    requires PathWalk.Lands(WorkKinds(d.work, i), p).Inside?
    requires ParentsKnown(w, i, PathWalk.Lands(WorkKinds(d.work, i), p).path)
    ensures CopyDirs(w, d, i, p).0
    ensures CopiedTo(w, d, CopyDirs(w, d, i, p).1, i, p, PathWalk.Lands(WorkKinds(d.work, i), p))
    decreases |p|
  {
    var t, up := WorkKinds(d.work, i), Parent(p);
    var r := PathWalk.Lands(t, p);
    if PathWalk.Follow(t, up).Inside? {
      NothingToCopy(w, d, i, p);
      CopiedNone(w, d, i, p, r);
    } else {
      PathWalk.LandsBelow(t, p);
      ParentsOfParent(w, i, r.path);
      ProperParent(p);
      CopyKnown(w, d, i, up);
      CopyLast(w, d, CopyDirs(w, d, i, up).1, i, p);
    }
  }

  lemma MissingInWork(d: Disk, i: Image, p: Path)
    requires WorkClosed(d.work) && p != [] && !PathWalk.Has(WorkKinds(d.work, i), p)
    requires PathWalk.Lands(WorkKinds(d.work, i), p).Inside?
    ensures (i, PathWalk.Lands(WorkKinds(d.work, i), p).path) !in d.work
  {
    KindsClosed(d.work, i);
    PathWalk.LandsMissing(WorkKinds(d.work, i), p);
    KindsAt(d.work, i, PathWalk.Lands(WorkKinds(d.work, i), p).path);
  }

  lemma CopyLast(w: World, d: Disk, d1: Disk, i: Image, p: Path)
    requires Inv(w, d) && |p| > 1 && PathWalk.ProperPath(p)
    requires var t := WorkKinds(d.work, i);
             && !PathWalk.Follow(t, Parent(p)).Inside? && PathWalk.Lands(t, p).Inside?
             && ParentsKnown(w, i, PathWalk.Lands(t, p).path)
             && PathWalk.Lands(t, Parent(p)).Inside?
             && CopiedTo(w, d, d1, i, Parent(p), PathWalk.Lands(t, Parent(p)))
    ensures CopyOne(w, d1, i, Parent(p)).0
    ensures CopiedTo(w, d, CopyOne(w, d1, i, Parent(p)).1, i, p, PathWalk.Lands(WorkKinds(d.work, i), p))
  {
    var t, up := WorkKinds(d.work, i), Parent(p);
    var r, r' := PathWalk.Lands(t, p), PathWalk.Lands(t, up);
    PathWalk.LandsBelow(t, p);
    ParentsOfParent(w, i, r.path);
    ProperParent(p);
    ProperParent(up);
    MissingInWork(d, i, up);
    IndexPlace(w, d, i, up);
    MkdirKnown(w, d1, i, up);
    var d2 := Mkdir(d1, i, up).1;
    AddsTwice(d, d1, d2);
    KeptTwice(w, d, d1, d2);
  }

  // ----- names that land nowhere in gear-work -----

  lemma {:induction false} CopiesNothing(w: World, d: Disk, i: Image, p: Path)
    requires p != [] && PathWalk.ProperPath(p) && !PathWalk.Lands(WorkKinds(d.work, i), p).Inside?
    ensures CopyDirs(w, d, i, p).1 == d
    decreases |p|
  {
    var t, up := WorkKinds(d.work, i), Parent(p);
    assert PathWalk.Follow(t, []).Inside?;
    ProperParent(p);
    if PathWalk.Lands(t, up).Inside? {
      PathWalk.NoPlace(t, p);
      NothingToCopy(w, d, i, up);
      KindsAt(d.work, i, PathWalk.PlaceOf(t, up).path);
    } else {
      CopiesNothing(w, d, i, up);
    }
  }

  lemma {:induction false} MakesNothing(d: Disk, i: Image, p: Path)
    requires p != [] && PathWalk.ProperPath(p) && !PathWalk.Lands(WorkKinds(d.work, i), p).Inside?
    ensures MkdirAll(d, i, Parent(p)).1 == d
    decreases |p|
  {
    var t, up := WorkKinds(d.work, i), Parent(p);
    assert PathWalk.Follow(t, []).Inside?;
    ProperParent(p);
    if PathWalk.Lands(t, up).Inside? {
      PathWalk.NoPlace(t, p);
      KindsAt(d.work, i, PathWalk.PlaceOf(t, up).path);
    } else {
      MakesNothing(d, i, up);
    }
  }

  lemma LinksNowhere(d: Disk, i: Image, p: Path, cid: string)
    requires p != [] && !PathWalk.Lands(WorkKinds(d.work, i), p).Inside?
    ensures TryLink(d, i, p, cid) == d && !WorkPlace(d, i, p).Inside?
  {
  }

  lemma LinksNothing(w: World, d: Disk, i: Image, entry: (Path, string))
    requires entry.0 != [] && PathWalk.ProperPath(entry.0)
    requires !PathWalk.Lands(WorkKinds(d.work, i), entry.0).Inside?
    ensures LinkRecorded(w, d, i, entry).1 == d
  {
    CopiesNothing(w, d, i, entry.0);
    MakesNothing(d, i, entry.0);
    LinksNowhere(d, i, entry.0, entry.1);
  }

  // ----- names that land in gear-work -----

  lemma OneMoreKnown(w: World, i: Image, r: Path)
    requires r != [] && ParentsKnown(w, i, Parent(r))
    ensures Parent(r) == [] || IsSubDir(w, i, Parent(r)) ==> ParentsKnown(w, i, r)
  {
    forall n | 0 < n < |r| - 1
      ensures IsSubDir(w, i, r[..n])
    {
      assert Parent(r)[..n] == r[..n] && Parent(r)[..n] in Ancestors(Parent(r));
    }
  }

  lemma {:induction false} FirstUnknown(w: World, i: Image, r: Path) returns (m: nat)
    requires r != [] && !ParentsKnown(w, i, r)
    ensures 0 < m < |r| && !IsSubDir(w, i, r[..m]) && ParentsKnown(w, i, r[..m])
    decreases |r|
  {
    var up := Parent(r);
    if ParentsKnown(w, i, up) {
      m := |r| - 1;
      OneMoreKnown(w, i, r);
    } else {
      m := FirstUnknown(w, i, up);
      assert up[..m] == r[..m];
    }
  }

  /** A copy begins with the copy for a shorter path, and ends there if it fails. */
  lemma {:induction false} CopyPrefix(w: World, d: Disk, i: Image, p: Path, n: nat)
    requires WorkClosed(d.work) && 0 < n <= |p|
    ensures Adds(CopyDirs(w, d, i, p[..n]).1, CopyDirs(w, d, i, p).1)
    ensures !CopyDirs(w, d, i, p[..n]).0 ==> CopyDirs(w, d, i, p) == CopyDirs(w, d, i, p[..n])
    decreases |p|
  {
    CopyDirsAdds(w, d, i, p[..n]);
    if n == |p| {
      assert p[..n] == p;
    } else {
      var up := Parent(p);
      assert up[..n] == p[..n];
      CopyPrefix(w, d, i, up, n);
      CopyDirsAdds(w, d, i, up);
      var (ok, d') := CopyDirs(w, d, i, up);
      CopyOneAdds(w, d', i, up);
      AddsTwice(CopyDirs(w, d, i, p[..n]).1, d', CopyOne(w, d', i, up).1);
    }
  }

  lemma LinkIsCopyThenLink(w: World, d: Disk, i: Image, p: Path, cid: string)
    requires p != [] && PathWalk.ProperPath(p) && !InWork(d, i, p)
    requires PathWalk.Lands(WorkKinds(d.work, i), p).Inside?
    ensures LinkRecorded(w, d, i, (p, cid)) == CopyThenLink(w, d, i, p, cid)
  {
    if |p| > 1 && InWork(d, i, Parent(p)) {
      var t := WorkKinds(d.work, i);
      PathWalk.FollowNext(t, Parent(p));
      KindsAt(d.work, i, PathWalk.PlaceOf(t, Parent(p)).path);
      NothingToCopy(w, d, i, p);
    }
  }

  /** All directories are known: the link is made, and is right exactly when the
      content is the file's own. */
  lemma KnownEntry(w: World, d: Disk, i: Image, p: Path, cid: string)
    requires Inv(w, d) && p != [] && PathWalk.ProperPath(p) && !InWork(d, i, p)
    requires PathWalk.Lands(WorkKinds(d.work, i), p).Inside?
    requires ParentsKnown(w, i, PathWalk.Lands(WorkKinds(d.work, i), p).path)
    ensures var r, (ok, d') := PathWalk.Lands(WorkKinds(d.work, i), p).path, LinkRecorded(w, d, i, (p, cid));
            && ok && (Inv(w, d') <==> (cid in d.pub ==> FromIndex(w, i, (r, cid))))
            && (cid in d.pub ==> (i, r) in d'.work && d'.work[(i, r)] == Hard(d.pub[cid]))
  {
    LinkIsCopyThenLink(w, d, i, p, cid);
    CopyKnown(w, d, i, p);
    var r := PathWalk.Lands(WorkKinds(d.work, i), p).path;
    PlaceMissing(d, i, p);
    LinkAtPlace(w, CopyDirs(w, d, i, p).1, i, p, cid, r);
  }

  lemma PlaceMissing(d: Disk, i: Image, p: Path)
    requires WorkClosed(d.work) && p != [] && !InWork(d, i, p)
    requires PathWalk.Lands(WorkKinds(d.work, i), p).Inside?
    ensures (i, PathWalk.Lands(WorkKinds(d.work, i), p).path) !in d.work
    ensures !PathWalk.Has(WorkKinds(d.work, i), p)
  {
    if WorkPlace(d, i, p).Inside? {
      KindsAt(d.work, i, WorkPlace(d, i, p).path);
    }
    MissingInWork(d, i, p);
  }

  lemma LinkAtPlace(w: World, d: Disk, i: Image, p: Path, cid: string, r: Path)
    requires Inv(w, d) && p != [] && WorkPlace(d, i, p).Inside? && WorkPlace(d, i, p).path == r && (i, r) !in d.work
    ensures var d' := TryLink(d, i, p, cid);
            && (Inv(w, d') <==> (cid in d.pub ==> FromIndex(w, i, (r, cid))))
            && (cid in d.pub ==> (i, r) in d'.work && d'.work[(i, r)] == Hard(d.pub[cid]))
  {
    if cid in d.pub {
      PlaceIsBelow(d, i, p);
      if FromIndex(w, i, (r, cid)) {
        AddNodeKeeps(w, d, (i, r), Hard(d.pub[cid]));
      } else {
        BadNode(w, AddNode(d, i, r, Hard(d.pub[cid])), (i, r));
      }
    }
  }

  /** A node that differs from the index breaks the invariant. */
  lemma BadNode(w: World, d: Disk, k: (Image, Path))
    requires k in d.work && !NodeOk(w, d, k, d.work[k])
    ensures !Inv(w, d)
  {
  }

  /** A directory is unknown, the first one at place `a`: the copy stops there if
      the index has nothing at `a`, and makes a wrong directory otherwise. */
  lemma UnknownStep(w: World, d: Disk, i: Image, p: Path)
    requires Inv(w, d) && p != [] && PathWalk.ProperPath(p) && !PathWalk.Has(WorkKinds(d.work, i), p)
    requires PathWalk.Lands(WorkKinds(d.work, i), p).Inside?
    requires ParentsKnown(w, i, PathWalk.Lands(WorkKinds(d.work, i), p).path)
    requires !IsSubDir(w, i, PathWalk.Lands(WorkKinds(d.work, i), p).path)
    ensures var a, d1 := PathWalk.Lands(WorkKinds(d.work, i), p).path, CopyDirs(w, d, i, p).1;
            var (ok, d2) := CopyOne(w, d1, i, p);
            && (ok <==> (i, a) in w.index)
            && (!ok ==> d2 == d1 && Inv(w, d1))
            && (ok ==> (i, a) in d2.work && !NodeOk(w, d2, (i, a), d2.work[(i, a)]))
  {
    CopyKnown(w, d, i, p);
    MissingInWork(d, i, p);
    IndexPlace(w, d, i, p);
  }

  lemma NotInIndexBelow(w: World, d: Disk, i: Image, p: Path, k: nat)
    requires 0 < k < |p| && PathWalk.ProperPath(p)
    requires PathWalk.PlaceOf(IndexKinds(w, i), p[..k]).Inside?
    requires (i, PathWalk.PlaceOf(IndexKinds(w, i), p[..k]).path) !in w.index
    ensures !InIndex(w, d, i, p)
  {
    var t, q := IndexKinds(w, i), p[..k];
    IndexAt(w, i, PathWalk.PlaceOf(t, q).path);
    PathWalk.FollowNext(t, q);
    assert PathWalk.Last(q) in p;
    PathWalk.EnterPlain(t, PathWalk.Follow(t, Parent(q)).path, PathWalk.Last(q), PathWalk.Follow(t, Parent(q)).links);
    PathWalk.FollowStops(t, p, k, |p| - 1);
  }

  /** The first unknown directory above the place, and the path that names it. */
  lemma UnknownName(w: World, d: Disk, i: Image, p: Path) returns (k: nat)
    requires Inv(w, d) && p != [] && PathWalk.ProperPath(p) && PathWalk.Lands(WorkKinds(d.work, i), p).Inside?
    requires !ParentsKnown(w, i, PathWalk.Lands(WorkKinds(d.work, i), p).path)
    ensures 0 < k < |p| && !PathWalk.Has(WorkKinds(d.work, i), p[..k])
    ensures PathWalk.Lands(WorkKinds(d.work, i), p[..k]).Inside?
    ensures var r, a := PathWalk.Lands(WorkKinds(d.work, i), p).path, PathWalk.Lands(WorkKinds(d.work, i), p[..k]).path;
            a in Ancestors(r) && ParentsKnown(w, i, a) && !IsSubDir(w, i, a)
  {
    var t := WorkKinds(d.work, i);
    var r := PathWalk.Lands(t, p).path;
    PlaceNotEmpty(t, p);
    var m := FirstUnknown(w, i, r);
    KindsClosed(d.work, i);
    ThereIsKnown(w, d, i, p, m);
    KindsAt(d.work, i, r[..m]);
    k := PathWalk.LandsPrefix(t, p, m);
  }

  lemma ThereIsKnown(w: World, d: Disk, i: Image, p: Path, m: nat)
    requires Inv(w, d) && p != [] && PathWalk.Lands(WorkKinds(d.work, i), p).Inside?
    requires 0 < m < |PathWalk.Lands(WorkKinds(d.work, i), p).path|
    ensures var a := PathWalk.Lands(WorkKinds(d.work, i), p).path[..m]; (i, a) in d.work ==> IsSubDir(w, i, a)
  {
    var t := WorkKinds(d.work, i);
    var a := PathWalk.Lands(t, p).path[..m];
    KindsClosed(d.work, i);
    PathWalk.LandsAbove(t, p, m);
    KindsAt(d.work, i, a);
    if (i, a) in d.work {
      assert NodeOk(w, d, (i, a), d.work[(i, a)]);
    }
  }

  lemma PlaceNotEmpty(t: PathWalk.Tree, p: Path)
    requires p != [] && PathWalk.Lands(t, p).Inside?
    ensures PathWalk.Lands(t, p).path != []
  {
  }

  /** Above an unknown place nothing below it is in the index. */
  lemma UnknownBelow(w: World, i: Image, r: Path, a: Path)
    requires ValidIndex(w) && a in Ancestors(r) && ParentsKnown(w, i, a) && (i, a) !in w.index
    ensures forall q :: q in Ancestors(r) && (i, q) in w.index ==> IsSubDir(w, i, q)
  {
    var m :| 0 < m < |r| && a == r[..m];
    forall q | q in Ancestors(r) && (i, q) in w.index
      ensures IsSubDir(w, i, q)
    {
      var n :| 0 < n < |r| && q == r[..n];
      assert if n < m then q == a[..n] else q[..m] == a;
      if n < m {
        assert q in Ancestors(a);
      } else if n > m {
        AncestorsIndexed(w, i, q, m);
      }
    }
  }

  /** `q` names the first unknown directory above the place of `p`. */
  ghost predicate FirstMissing(w: World, d: Disk, i: Image, p: Path, k: nat) {
    && 0 < k < |p| && PathWalk.ProperPath(p)
    && !PathWalk.Has(WorkKinds(d.work, i), p[..k]) && PathWalk.Lands(WorkKinds(d.work, i), p[..k]).Inside?
    && ParentsKnown(w, i, PathWalk.Lands(WorkKinds(d.work, i), p[..k]).path)
    && !IsSubDir(w, i, PathWalk.Lands(WorkKinds(d.work, i), p[..k]).path)
  }

  lemma CopyToMissing(w: World, d: Disk, i: Image, p: Path, k: nat)
    requires Inv(w, d) && FirstMissing(w, d, i, p, k)
    ensures CopyDirs(w, d, i, p[..k + 1]) == CopyOne(w, CopyDirs(w, d, i, p[..k]).1, i, p[..k])
  {
    assert Parent(p[..k + 1]) == p[..k];
    ProperPrefix(p, k);
    CopyKnown(w, d, i, p[..k]);
  }

  /** The index has something else there: a wrong directory is made. */
  lemma MadeWrong(w: World, d: Disk, i: Image, p: Path, cid: string, k: nat)
    requires Inv(w, d) && FirstMissing(w, d, i, p, k)
    requires (i, PathWalk.Lands(WorkKinds(d.work, i), p[..k]).path) in w.index
    ensures !Inv(w, CopyThenLink(w, d, i, p, cid).1)
  {
    ProperPrefix(p, k);
    UnknownStep(w, d, i, p[..k]);
    CopyToMissing(w, d, i, p, k);
    CopyPrefix(w, d, i, p, k + 1);
    CopyDirsAdds(w, d, i, p[..k + 1]);
    var a := PathWalk.Lands(WorkKinds(d.work, i), p[..k]).path;
    StaysWrong(w, d, i, p, cid, CopyDirs(w, d, i, p[..k + 1]).1, (i, a));
  }

  /** The index has nothing there: the copy stops and the request panics. */
  lemma MadeNothingWrong(w: World, d: Disk, i: Image, p: Path, cid: string, k: nat)
    requires Inv(w, d) && FirstMissing(w, d, i, p, k)
    requires (i, PathWalk.Lands(WorkKinds(d.work, i), p[..k]).path) !in w.index
    ensures !CopyThenLink(w, d, i, p, cid).0 && Inv(w, CopyThenLink(w, d, i, p, cid).1)
  {
    ProperPrefix(p, k);
    UnknownStep(w, d, i, p[..k]);
    CopyToMissing(w, d, i, p, k);
    CopyPrefix(w, d, i, p, k + 1);
    IndexPlace(w, d, i, p[..k]);
    NotInIndexBelow(w, CopyDirs(w, d, i, p).1, i, p, k);
  }

  /** A directory is unknown: nothing wrong is made exactly when the index has
      nothing at the place of the first one, and then the request panics. */
  lemma UnknownEntry(w: World, d: Disk, i: Image, p: Path, cid: string)
    requires Inv(w, d) && p != [] && PathWalk.ProperPath(p) && !InWork(d, i, p)
    requires PathWalk.Lands(WorkKinds(d.work, i), p).Inside?
    requires !ParentsKnown(w, i, PathWalk.Lands(WorkKinds(d.work, i), p).path)
    ensures Inv(w, LinkRecorded(w, d, i, (p, cid)).1)
            <==> HarmlessAt(w, d, i, PathWalk.Lands(WorkKinds(d.work, i), p).path, cid)
    ensures Inv(w, LinkRecorded(w, d, i, (p, cid)).1) ==> !LinkRecorded(w, d, i, (p, cid)).0
  {
    var k := UnknownName(w, d, i, p);
    var a := PathWalk.Lands(WorkKinds(d.work, i), p[..k]).path;
    LinkIsCopyThenLink(w, d, i, p, cid);
    if (i, a) in w.index {
      MadeWrong(w, d, i, p, cid, k);
    } else {
      MadeNothingWrong(w, d, i, p, cid, k);
      UnknownBelow(w, i, PathWalk.Lands(WorkKinds(d.work, i), p).path, a);
    }
  }

  lemma ProperPrefix(p: Path, k: nat)
    requires PathWalk.ProperPath(p) && k <= |p|
    ensures PathWalk.ProperPath(p[..k])
  {
  }

  /** A wrong directory that the copy has made is still there in the end. */
  lemma StaysWrong(w: World, d: Disk, i: Image, p: Path, cid: string, d1: Disk, k: (Image, Path))
    requires WorkClosed(d.work) && p != [] && Adds(d, d1) && Adds(d1, CopyDirs(w, d, i, p).1)
    requires k in d1.work && !NodeOk(w, d1, k, d1.work[k])
    ensures !Inv(w, CopyThenLink(w, d, i, p, cid).1)
  {
    var d2 := CopyDirs(w, d, i, p).1;
    TryLinkAdds(d2, i, p, cid);
    MkdirAllAdds(d2, i, Parent(p));
    TryLinkAdds(MkdirAll(d2, i, Parent(p)).1, i, p, cid);
    BadNode(w, CopyThenLink(w, d, i, p, cid).1, k);
  }

  /** Linking a recorded entry keeps every cache right exactly when the entry is
      harmless, which can be told before linking. The channel that carries the
      records is shared by all mounts, so a template can name files of another
      image: those are the entries that are not. */
  lemma LinkRecordedIff(w: World, d: Disk, i: Image, entry: (Path, string))
    requires Inv(w, d) && PathWalk.ProperPath(entry.0)
    ensures Inv(w, LinkRecorded(w, d, i, entry).1) <==> Harmless(w, d, i, entry)
  {
    var (p, cid) := entry;
    if p != [] && !InWork(d, i, p) {
      var place := PathWalk.Lands(WorkKinds(d.work, i), p);
      if !place.Inside? {
        LinksNothing(w, d, i, entry);
      } else if ParentsKnown(w, i, place.path) {
        KnownEntry(w, d, i, p, cid);
      } else {
        UnknownEntry(w, d, i, p, cid);
      }
    }
  }

  /** When a harmless entry makes the request panic. */
  lemma PanicsIff(w: World, d: Disk, i: Image, p: Path, cid: string)
    requires Inv(w, d) && p != [] && PathWalk.ProperPath(p) && Harmless(w, d, i, (p, cid))
    requires PathWalk.Lands(WorkKinds(d.work, i), p).Inside?
    ensures !LinkRecorded(w, d, i, (p, cid)).0
            <==> !InWork(d, i, p) && !ParentsKnown(w, i, PathWalk.Lands(WorkKinds(d.work, i), p).path)
  {
    if !InWork(d, i, p) {
      if ParentsKnown(w, i, PathWalk.Lands(WorkKinds(d.work, i), p).path) {
        KnownEntry(w, d, i, p, cid);
      } else {
        UnknownEntry(w, d, i, p, cid);
      }
    }
  }

  /** A directory beyond gear-work that is there, or that the index knows and
      that can be made. */
  predicate ThereBeyond(w: World, d: Disk, i: Image, q: Path)
    requires q != []
  {
    InWork(d, i, q) || (InIndex(w, d, i, q) && WorkPlace(d, i, q).Outside? && (i, q) in d.host.makes)
  }

  lemma ReachedAbove(d: Disk, i: Image, q: Path, n: nat)
    requires 0 < n < |q| && PathWalk.ProperPath(q) && PathWalk.Follow(WorkKinds(d.work, i), Parent(q)).Inside?
    ensures InWork(d, i, q[..n])
  {
    var t := WorkKinds(d.work, i);
    assert Parent(q) == q[..|q| - 1];
    if !PathWalk.Follow(t, q[..n]).Inside? {
      PathWalk.FollowStops(t, q, n, |q| - 1);
    }
    ProperPrefix(q, n);
    ProperParent(q[..n]);
    PathWalk.FollowHas(t, q[..n]);
    KindsAt(d.work, i, PathWalk.PlaceOf(t, q[..n]).path);
  }

  ghost predicate AllBeyond(w: World, d: Disk, i: Image, p: Path) {
    forall n :: 0 < n < |p| ==> ThereBeyond(w, d, i, p[..n])
  }

  lemma OneMoreBeyond(w: World, d: Disk, i: Image, p: Path)
    requires |p| > 1
    ensures AllBeyond(w, d, i, p) <==> AllBeyond(w, d, i, Parent(p)) && ThereBeyond(w, d, i, Parent(p))
  {
    assert Parent(p) == p[..|p| - 1];
    assert forall n :: 0 < n < |p| - 1 ==> Parent(p)[..n] == p[..n];
  }

  /** The directory above `p` is there, but does not lead anywhere. */
  lemma StopsAtParent(w: World, d: Disk, i: Image, p: Path)
    requires p != [] && PathWalk.ProperPath(p)
    requires !PathWalk.Lands(WorkKinds(d.work, i), p).Inside?
    requires PathWalk.Lands(WorkKinds(d.work, i), Parent(p)).Inside?
    ensures |p| > 1 && CopyDirs(w, d, i, p) == (true, d) && AllBeyond(w, d, i, p)
  {
    var t, up := WorkKinds(d.work, i), Parent(p);
    ProperParent(p);
    PathWalk.NoPlace(t, p);
    NothingToCopy(w, d, i, up);
    KindsAt(d.work, i, PathWalk.PlaceOf(t, up).path);
    forall n | 0 < n < |up|
      ensures ThereBeyond(w, d, i, up[..n])
    {
      ReachedAbove(d, i, up, n);
    }
    OneMoreBeyond(w, d, i, p);
  }

  lemma {:induction false} CopiesBeyond(w: World, d: Disk, i: Image, p: Path)
    requires p != [] && PathWalk.ProperPath(p) && !PathWalk.Lands(WorkKinds(d.work, i), p).Inside?
    ensures CopyDirs(w, d, i, p).0 <==> AllBeyond(w, d, i, p)
    decreases |p|
  {
    var t, up := WorkKinds(d.work, i), Parent(p);
    assert PathWalk.Follow(t, []).Inside?;
    ProperParent(p);
    if PathWalk.Lands(t, up).Inside? {
      StopsAtParent(w, d, i, p);
    } else {
      CopiesNothing(w, d, i, up);
      CopiesBeyond(w, d, i, up);
      OneMoreBeyond(w, d, i, p);
      LastBeyond(w, d, i, up);
    }
  }

  lemma LastBeyond(w: World, d: Disk, i: Image, q: Path)
    requires q != [] && !PathWalk.Lands(WorkKinds(d.work, i), q).Inside?
    ensures CopyOne(w, d, i, q).0 <==> ThereBeyond(w, d, i, q)
  {
  }

  /** When a name that lands nowhere makes the request panic: behind a symlink
      that is broken, unless its directory or the index's own file is found. */
  lemma NowherePanicsIff(w: World, d: Disk, i: Image, p: Path, cid: string)
    requires p != [] && PathWalk.ProperPath(p) && !InWork(d, i, p)
    requires !PathWalk.Lands(WorkKinds(d.work, i), p).Inside?
    ensures LinkRecorded(w, d, i, (p, cid)).0 <==>
            || InWork(d, i, Parent(p)) || InIndex(w, d, i, p)
            || forall n :: 0 < n < |p| ==> ThereBeyond(w, d, i, p[..n])
  {
    CopiesNothing(w, d, i, p);
    CopiesBeyond(w, d, i, p);
  }

  // ----- what is beyond, and what the fallback makes -----

  /** Below a link that leads out of gear-work the host decides what is there and
      what can be made, and nothing in gear-work changes. */
  lemma WorkLinkedOut(d: Disk, i: Image, name: string, target: string, file: string, cid: string)
    requires WorkClosed(d.work) && PathWalk.Proper(name)
    requires (i, [name]) in d.work && d.work[(i, [name])] == Soft("/" + target)
    ensures var p := [name, file];
            && (InWork(d, i, p) <==> (i, p) in d.host.names)
            && MkdirAll(d, i, p) == ((i, p) in d.host.names, d)
            && Mkdir(d, i, p) == ((i, p) in d.host.makes, d)
            && (cid in d.pub ==>
                  LinkWork(d, i, p, cid) ==
                  if (i, p) in d.host.names || (i, p) in d.host.makes then Some(d) else None)
  {
    var t := WorkKinds(d.work, i);
    KindsAt(d.work, i, [name]);
    KindsClosed(d.work, i);
    assert [] + [name] == [name] && Parent([name, file]) == [name] && Parent([name]) == [];
    PathWalk.AbsoluteLink(t, [], name, target);
    PathWalk.FollowNext(t, [name, file]);
    assert PathWalk.Follow(t, []) == PathWalk.Inside([], PathWalk.MAX_LINKS);
    assert PathWalk.PlaceOf(t, [name]) == PathWalk.Inside([name], PathWalk.MAX_LINKS);
  }

  /** Where a file is in the way no directory is made, there or below. */
  lemma FileInTheWay(d: Disk, i: Image, name: string, below: string, inode: nat)
    requires WorkClosed(d.work) && PathWalk.Proper(name)
    requires (i, [name]) in d.work && d.work[(i, [name])] == Hard(inode)
    ensures Mkdir(d, i, [name]) == (false, d) && MkdirAll(d, i, [name]) == (false, d)
    ensures MkdirAll(d, i, [name, below]) == (false, d)
  {
    var t := WorkKinds(d.work, i);
    KindsAt(d.work, i, [name]);
    assert [] + [name] == [name] && Parent([name, below]) == [name] && Parent([name]) == [];
    assert PathWalk.Follow(t, []) == PathWalk.Inside([], PathWalk.MAX_LINKS);
    PathWalk.FollowNext(t, [name]);
    PathWalk.EnterPlain(t, [], name, PathWalk.MAX_LINKS);
    PathWalk.FollowNext(t, [name, below]);
  }

  /** Likewise in the index. */
  lemma IndexLinkedOut(w: World, d: Disk, i: Image, name: string, target: string, file: string)
    requires ValidIndex(w) && PathWalk.Proper(name)
    requires (i, [name]) in w.index && w.index[(i, [name])] == Link("/" + target)
    ensures InIndex(w, d, i, [name, file]) <==> (i, [name, file]) in d.host.sources
  {
    var t := IndexKinds(w, i);
    IndexAt(w, i, [name]);
    forall p | p in t
      ensures PathWalk.HasParent(t, p)
    {
      IndexAt(w, i, p);
      assert BelowDir(w, i, p);
      IndexAt(w, i, Parent(p));
    }
    assert [] + [name] == [name] && Parent([name, file]) == [name];
    PathWalk.AbsoluteLink(t, [], name, target);
  }

  ghost predicate OnlyDirs(t: PathWalk.Tree, p: Path) {
    forall n :: 0 < n <= |p| ==> PathWalk.OnlyDirAt(t, p[..n])
  }

  lemma ReachedOrBroken(t: PathWalk.Tree, p: Path)
    requires PathWalk.ProperPath(p) && OnlyDirs(t, p)
    ensures PathWalk.Follow(t, p) == PathWalk.Inside(p, PathWalk.MAX_LINKS) || PathWalk.Follow(t, p).Broken?
  {
    if !PathWalk.Follow(t, p).Broken? {
      PathWalk.LiteralOrLink(t, p);
      forall n | 0 < n <= |p|
        ensures !PathWalk.LinkAt(t, p, n)
      {
        assert PathWalk.OnlyDirAt(t, p[..n]);
      }
    }
  }

  /** `d'` has the directories down to `p`, and no other new names. */
  ghost predicate HasDirs(d: Disk, d': Disk, i: Image, p: Path) {
    && Adds(d, d') && PathWalk.Follow(WorkKinds(d'.work, i), p) == PathWalk.Inside(p, PathWalk.MAX_LINKS)
    && forall k :: k in d'.work && k !in d.work ==> k.0 == i && |k.1| <= |p| && d'.work[k] == Folder
  }

  lemma MissingHere(d: Disk, d1: Disk, i: Image, p: Path)
    requires WorkClosed(d.work) && p != [] && PathWalk.ProperPath(p) && OnlyDirs(WorkKinds(d.work, i), p)
    requires PathWalk.Follow(WorkKinds(d.work, i), p).Broken? && HasDirs(d, d1, i, Parent(p))
    ensures WorkPlace(d1, i, p) == PathWalk.Inside(p, PathWalk.MAX_LINKS) && (i, p) !in d1.work
  {
    assert Parent(p) + [PathWalk.Last(p)] == p && p[..|p|] == p;
    KindsAt(d.work, i, p);
    KindsClosed(d.work, i);
    if (i, p) in d.work {
      assert PathWalk.OnlyDirAt(WorkKinds(d.work, i), p[..|p|]);
      PathWalk.DirFollows(WorkKinds(d.work, i), p);
    }
  }

  /** Where only directories are in the way all missing ones are made, with right
      caches or without. */
  lemma {:induction false} MkdirAllMakes(d: Disk, i: Image, p: Path)
    requires WorkClosed(d.work) && PathWalk.ProperPath(p) && OnlyDirs(WorkKinds(d.work, i), p)
    ensures MkdirAll(d, i, p).0 && HasDirs(d, MkdirAll(d, i, p).1, i, p)
    decreases |p|
  {
    var t := WorkKinds(d.work, i);
    ReachedOrBroken(t, p);
    if p == [] || !PathWalk.Follow(t, p).Broken? {
      AddsNothing(d);
    } else {
      var up := Parent(p);
      forall n | 0 < n <= |up|
        ensures PathWalk.OnlyDirAt(t, up[..n])
      {
        assert up[..n] == p[..n];
      }
      ProperParent(p);
      MkdirAllMakes(d, i, up);
      MkdirLast(d, MkdirAll(d, i, up).1, i, p);
    }
  }

  lemma MkdirLast(d: Disk, d1: Disk, i: Image, p: Path)
    requires WorkClosed(d.work) && p != [] && PathWalk.ProperPath(p) && OnlyDirs(WorkKinds(d.work, i), p)
    requires PathWalk.Follow(WorkKinds(d.work, i), p).Broken? && HasDirs(d, d1, i, Parent(p))
    ensures Mkdir(d1, i, p).0 && HasDirs(d, Mkdir(d1, i, p).1, i, p)
  {
    MissingHere(d, d1, i, p);
    MkdirAdds(d1, i, p);
    var d2 := Mkdir(d1, i, p).1;
    AddsTwice(d, d1, d2);
    GrownKinds(d1, d2, i);
    KindsAt(d2.work, i, p);
    ProperParent(p);
    PathWalk.MadeFollows(WorkKinds(d1.work, i), WorkKinds(d2.work, i), p);
  }

  lemma LinkIntoMade(d: Disk, made: Disk, i: Image, p: Path, cid: string)
    requires p != [] && cid in d.pub && (i, p) !in d.work && HasDirs(d, made, i, Parent(p))
    ensures var d' := TryLink(made, i, p, cid);
            && (i, p) in d'.work && d'.work[(i, p)] == Hard(d.pub[cid])
            && PathWalk.Follow(WorkKinds(d'.work, i), Parent(p)) == PathWalk.Inside(Parent(p), PathWalk.MAX_LINKS)
  {
    assert Parent(p) + [PathWalk.Last(p)] == p;
    TryLinkAdds(made, i, p, cid);
    GrownKinds(made, TryLink(made, i, p, cid), i);
    PathWalk.FollowGrows(WorkKinds(made.work, i), WorkKinds(TryLink(made, i, p, cid).work, i), Parent(p));
  }

  /** When the copy has failed but the file itself is found in the index, every
      directory is made without the index, and the file is linked all the same. */
  lemma FallbackLinks(w: World, d: Disk, i: Image, p: Path, cid: string)
    requires WorkClosed(d.work) && |p| > 1 && PathWalk.ProperPath(p) && cid in d.pub
    requires !InWork(d, i, p) && !InWork(d, i, Parent(p)) && !CopyDirs(w, d, i, p).0
    requires var copied := CopyDirs(w, d, i, p).1;
             && InIndex(w, copied, i, p) && (i, p) !in copied.work
             && OnlyDirs(WorkKinds(copied.work, i), Parent(p))
    ensures var (ok, d') := LinkRecorded(w, d, i, (p, cid));
            && ok && (i, p) in d'.work && d'.work[(i, p)] == Hard(d.pub[cid])
            && PathWalk.Follow(WorkKinds(d'.work, i), Parent(p)) == PathWalk.Inside(Parent(p), PathWalk.MAX_LINKS)
  {
    var copied := CopyDirs(w, d, i, p).1;
    CopyDirsAdds(w, d, i, p);
    ProperParent(p);
    MkdirAllMakes(copied, i, Parent(p));
    LinkIntoMade(copied, MkdirAll(copied, i, Parent(p)).1, i, p, cid);
  }

  // ----- whole templates -----

  /** Each entry is harmless when its turn comes; none comes after a panic. */
  ghost predicate HarmlessInTurn(w: World, d: Disk, i: Image, template: Template) {
    template == [] ||
      var front, last := template[..|template| - 1], template[|template| - 1];
      && HarmlessInTurn(w, d, i, front)
      && (LinkTemplate(w, d, i, front).0 ==> Harmless(w, LinkTemplate(w, d, i, front).1, i, last))
  }

  ghost predicate AllNames(template: Template) {
    forall e :: e in template ==> PathWalk.ProperPath(e.0)
  }

  /** All that a host keeps right whatever templates it is given. */
  ghost predicate Sound(w: World, d: Disk) {
    && ValidIndex(w) && PublicOk(w, d) && PrivateOk(d) && WorkClosed(d.work)
    && forall k {:trigger PublicAt(d, d.work, k)} :: k in d.work ==> PublicAt(d, d.work, k)
  }

  lemma InvIsSound(w: World, d: Disk)
    requires Inv(w, d)
    ensures Sound(w, d)
  {
    forall k | k in d.work
      ensures PublicAt(d, d.work, k)
    {
      assert NodeOk(w, d, k, d.work[k]);
    }
  }

  lemma AddsKeepSound(w: World, d: Disk, d': Disk)
    requires Sound(w, d) && Adds(d, d')
    ensures Sound(w, d')
  {
    SamePublic(w, d, d');
    forall k | k in d'.work
      ensures PublicAt(d', d'.work, k)
    {
      if k in d.work {
        assert PublicAt(d, d.work, k);
      } else {
        assert PublicAt(d, d'.work, k);
      }
    }
  }

  /** A wrong node is never repaired by links that follow it. */
  lemma WrongNodeStays(w: World, d: Disk, d': Disk)
    requires Sound(w, d) && !Inv(w, d)
    requires Sound(w, d') && Grows(d, d')
    ensures !Inv(w, d')
  {
    var k :| k in d.work && !NodeOk(w, d, k, d.work[k]);
    WrongGrown(w, d, d', k);
    BadNode(w, d', k);
  }

  lemma WrongGrown(w: World, d: Disk, d': Disk, k: (Image, Path))
    requires Sound(w, d) && Sound(w, d') && Grows(d, d') && k in d.work
    ensures NodeOk(w, d', k, d'.work[k]) ==> NodeOk(w, d, k, d.work[k])
  {
    assert PublicAt(d, d.work, k);
  }

  lemma LastDecides(w: World, d: Disk, i: Image, last: (Path, string))
    requires Sound(w, d) && PathWalk.ProperPath(last.0)
    ensures Inv(w, LinkRecorded(w, d, i, last).1) <==> Inv(w, d) && Harmless(w, d, i, last)
  {
    if Inv(w, d) {
      LinkRecordedIff(w, d, i, last);
    } else {
      var d' := LinkRecorded(w, d, i, last).1;
      LinkRecordedAdds(w, d, i, last);
      AddsKeepSound(w, d, d');
      WrongNodeStays(w, d, d');
    }
  }

  /** A whole template leaves every cache right exactly when each of its entries
      is harmless in its turn: one wrong entry is never made good again. */
  lemma {:induction false} LinkTemplateIff(w: World, d: Disk, i: Image, template: Template)
    requires Inv(w, d) && AllNames(template)
    ensures Inv(w, LinkTemplate(w, d, i, template).1) <==> HarmlessInTurn(w, d, i, template)
  {
    if template != [] {
      var front, last := template[..|template| - 1], template[|template| - 1];
      assert last in template;
      LinkTemplateIff(w, d, i, front);
      var (ok, d') := LinkTemplate(w, d, i, front);
      LinkTemplateAdds(w, d, i, front);
      InvIsSound(w, d);
      AddsKeepSound(w, d, d');
      if ok {
        LastDecides(w, d', i, last);
      }
    }
  }

  /** The same for the prefetch as a whole, whatever template was recorded. */
  lemma PrefetchIff(w: World, d: Disk, i: Image, hashes: seq<string>, template: Template)
    requires Inv(w, d) && AllNames(template)
    ensures Inv(w, Prefetch(w, d, i, hashes, template).1) <==>
            HarmlessInTurn(w, Unpacked(w, d, i, hashes), i, template)
  {
    PrefetchTransfer(w, d, i, hashes);
    LinkTemplateIff(w, Unpacked(w, d, i, hashes), i, template);
  }

  // ----- the image's own entries -----

  lemma IndexedHasParents(w: World, i: Image, p: Path)
    requires ValidIndex(w) && (i, p) in w.index
    ensures ParentsKnown(w, i, p)
  {
    forall q | q in Ancestors(p)
      ensures IsSubDir(w, i, q)
    {
      var n :| 0 < n < |p| && q == p[..n];
      AncestorsIndexed(w, i, p, n);
    }
  }

  /** An indexed path lands where it says. */
  lemma OwnPlace(w: World, d: Disk, i: Image, p: Path)
    requires Inv(w, d) && (i, p) in w.index && p != []
    ensures PathWalk.ProperPath(p) && ParentsKnown(w, i, p)
    ensures PathWalk.Lands(WorkKinds(d.work, i), p) == PathWalk.Inside(p, PathWalk.MAX_LINKS)
    ensures InWork(d, i, p) <==> (i, p) in d.work
  {
    var t := WorkKinds(d.work, i);
    KindsClosed(d.work, i);
    IndexedIsProper(w, i, p);
    IndexedHasParents(w, i, p);
    Literal(w, d, i, p);
    forall n | 0 < n < |p|
      ensures PathWalk.OnlyDirAt(t, p[..n])
    {
      AncestorsIndexed(w, i, p, n);
      KindsAt(d.work, i, p[..n]);
      if (i, p[..n]) in d.work {
        assert NodeOk(w, d, (i, p[..n]), d.work[(i, p[..n])]);
      }
    }
    PathWalk.LandsPlain(t, p);
  }

  /** An entry of the image itself is linked without a panic and keeps all. */
  lemma LinkOwnKeeps(w: World, d: Disk, i: Image, entry: (Path, string))
    requires Inv(w, d) && FromIndex(w, i, entry) && entry.0 != []
    ensures var (ok, d') := LinkRecorded(w, d, i, entry);
            && ok && Inv(w, d') && Adds(d, d')
            && (entry.1 in d.pub ==> (i, entry.0) in d'.work)
  {
    OwnPlace(w, d, i, entry.0);
    LinkRecordedAdds(w, d, i, entry);
    if (i, entry.0) !in d.work {
      KnownEntry(w, d, i, entry.0, entry.1);
    }
  }

  lemma AddsIsKept(w: World, d: Disk, d': Disk)
    requires Adds(d, d') && Inv(w, d')
    ensures Kept(w, d, d')
  {
  }

  ghost predicate AllOwn(w: World, i: Image, template: Template) {
    forall e :: e in template ==> FromIndex(w, i, e)
  }

  /** A template of the image itself never panics, keeps everything right, and
      leaves every recorded file whose content is public in gear-work. */
  lemma {:induction false} LinkTemplateKeeps(w: World, d: Disk, i: Image, template: Template)
    requires Inv(w, d) && AllOwn(w, i, template)
    ensures var (ok, d') := LinkTemplate(w, d, i, template);
            && ok && Inv(w, d') && Adds(d, d')
            && forall e :: e in template && e.1 in d.pub ==> (i, e.0) in d'.work
  {
    AddsNothing(d);
    if template != [] {
      var front, last := template[..|template| - 1], template[|template| - 1];
      assert template == front + [last];
      assert last in template && FromIndex(w, i, last);
      assert BelowDir(w, i, last.0);
      LinkTemplateKeeps(w, d, i, front);
      var d' := LinkTemplate(w, d, i, front).1;
      LinkOwnKeeps(w, d', i, last);
      AddsTwice(d, d', LinkRecorded(w, d', i, last).1);
    }
  }

  lemma PrefetchKeeps(w: World, d: Disk, i: Image, hashes: seq<string>, template: Template)
    requires Inv(w, d) && AllOwn(w, i, template)
    ensures Prefetch(w, d, i, hashes, template).0 && Kept(w, d, Prefetch(w, d, i, hashes, template).1)
  {
    var u := Unpacked(w, d, i, hashes);
    PrefetchTransfer(w, d, i, hashes);
    LinkTemplateKeeps(w, u, i, template);
    AddsIsKept(w, u, Prefetch(w, d, i, hashes, template).1);
    KeptTwice(w, d, u, Prefetch(w, d, i, hashes, template).1);
  }

  /** So such a template is harmless in every turn. */
  lemma OwnIsHarmless(w: World, d: Disk, i: Image, template: Template)
    requires Inv(w, d) && AllOwn(w, i, template)
    ensures AllNames(template) && HarmlessInTurn(w, d, i, template)
  {
    forall e | e in template
      ensures PathWalk.ProperPath(e.0)
    {
      assert FromIndex(w, i, e);
      IndexedIsProper(w, i, e.0);
    }
    LinkTemplateKeeps(w, d, i, template);
    LinkTemplateIff(w, d, i, template);
  }

  // ----- wrong entries -----

  /** An entry that was recorded for another image's file of the same path: the
      link succeeds, and from then on gear-work holds the other content. */
  lemma ForeignEntry(w: World, d: Disk, i: Image, p: Path, cid: string)
    requires Inv(w, d) && p != [] && (i, p) in w.index && w.index[(i, p)].Content? && w.index[(i, p)].cid != cid
    requires cid in d.pub && (i, p) !in d.work
    ensures var (ok, d') := LinkRecorded(w, d, i, (p, cid));
            && ok && !Inv(w, d')
            && (i, p) in d'.work && d'.work[(i, p)] == Hard(d.pub[cid])
            && d.pub[cid] in d'.data && d'.data[d.pub[cid]] == w.dec(d.storage[cid])
  {
    OwnPlace(w, d, i, p);
    KnownEntry(w, d, i, p, cid);
    LinkRecordedAdds(w, d, i, (p, cid));
    assert CachedOk(w, d, cid);
  }

  /** A path below a symlink of gear-work, recorded for an image that has a real
      directory there: the link lands in the directory behind the symlink, and
      a file that nobody named gets the other content. */
  lemma ForeignThroughLink(w: World, d: Disk, i: Image, name: string, target: string, file: string, cid: string)
    requires Inv(w, d) && PathWalk.Proper(name) && PathWalk.Proper(target) && PathWalk.Proper(file) && '/' !in target
    requires (i, [name]) in d.work && d.work[(i, [name])] == Soft(target)
    requires (i, [target]) in d.work && d.work[(i, [target])] == Folder
    requires (i, [target, file]) !in d.work && cid in d.pub
    requires !FromIndex(w, i, ([target, file], cid))
    ensures var (ok, d') := LinkRecorded(w, d, i, ([name, file], cid));
            && ok && !Inv(w, d')
            && (i, [target, file]) in d'.work && d'.work[(i, [target, file])] == Hard(d.pub[cid])
  {
    var t, p := WorkKinds(d.work, i), [name, file];
    KindsAt(d.work, i, [name]);
    KindsAt(d.work, i, [target]);
    PathWalk.FollowLink(t, name, target);
    assert Parent(p) == [name] && PathWalk.Last(p) == file && [target] + [file] == [target, file];
    assert PathWalk.Lands(t, p) == PathWalk.Inside([target, file], PathWalk.MAX_LINKS - 1);
    assert NodeOk(w, d, (i, [target]), Folder);
    assert Parent([target, file]) == [target];
    OneMoreKnown(w, i, [target, file]);
    KnownEntry(w, d, i, p, cid);
  }
}
