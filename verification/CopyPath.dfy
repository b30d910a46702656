/** Copying the ancestor directories of a path from one tree to another. */
module CopyPath {
  import opened Text
  import opened PathWalk

  datatype Meta = Meta(kind: Kind, mode: nat, uid: nat, gid: nat)

  /** Entries below a base directory, which itself is no entry. */
  type Files = map<Path, Meta>

  /** What the file system adds: the process's file mode mask, the owner of new
      directories, the calls that fail although nothing speaks against them, and
      what names find that leave a tree through a symlink. */
  datatype Env = Env(
    mask: nat -> nat, uid: nat, gid: nat,
    mkdirFails: set<Path>, chownFails: set<Path>,
    targetNames: set<Path>,             // names that are there beyond the target
    targetMakes: set<Path>,             // directories that can be made beyond it
    sourceNames: map<Path, Meta>)       // what is there beyond the source

  /** Everything up to and with the last '/'. */
  function DirPart(relativePath: string): string {
    if relativePath == "" || relativePath[|relativePath| - 1] == '/' then relativePath
    else DirPart(relativePath[..|relativePath| - 1])
  }

  /** Joining drops empty components. */
  function Extend(tmpPath: Path, dir: string): Path {
    if dir == "" then tmpPath else tmpPath + [dir]
  }

  function Extended(dirs: seq<string>): Path {
    if dirs == [] then [] else Extend(Extended(dirs[..|dirs| - 1]), dirs[|dirs| - 1])
  }

  function Kinds(t: Files): Tree {
    map p | p in t :: t[p].kind
  }

  /** `os.Lstat` finds the name in the target. */
  predicate InTarget(env: Env, t: Files, p: Path) {
    p == [] ||
    match PlaceOf(Kinds(t), p)
    case Inside(r, _) => r in t
    case Outside => p in env.targetNames
    case Broken => false
  }

  /** What `os.Lstat` finds in the source. */
  function SourceAt(env: Env, src: Files, p: Path): Option<Meta>
    requires p != []
  {
    match PlaceOf(Kinds(src), p)
    case Inside(r, _) => if r in src then Some(src[r]) else None
    case Outside => if p in env.sourceNames then Some(env.sourceNames[p]) else None
    case Broken => None
  }

  function Made(env: Env, m: Meta): Meta {
    Meta(IsDir, env.mask(m.mode), env.uid, env.gid)
  }

  function Owned(env: Env, m: Meta): Meta {
    Meta(IsDir, env.mask(m.mode), m.uid, m.gid)
  }

  /** One directory of the chain. */
  function VisitOne(env: Env, src: Files, t: Files, p: Path): (bool, Files) {
    if InTarget(env, t, p) then (true, t)
    else if SourceAt(env, src, p).None? || p in env.mkdirFails then (false, t)
    else
      match PlaceOf(Kinds(t), p)
      case Broken => (false, t)
      case Outside => (p in env.targetMakes && p !in env.chownFails, t)
      case Inside(r, _) =>
        if p in env.chownFails then (false, t[r := Made(env, SourceAt(env, src, p).value)])
        else (true, t[r := Owned(env, SourceAt(env, src, p).value)])
  }

  /** All components in turn, as long as each step succeeds. */
  function VisitAll(env: Env, src: Files, t: Files, dirs: seq<string>): (bool, Files) {
    if dirs == [] then (true, t)
    else
      var (ok, t') := VisitAll(env, src, t, dirs[..|dirs| - 1]);
      if ok then VisitOne(env, src, t', Extended(dirs)) else (false, t')
  }

  method Copy(env: Env, src: Files, target: Files, relativePath: string) returns (ok: bool, result: Files)
    ensures (ok, result) == VisitAll(env, src, target, Split(DirPart(relativePath), '/'))
  {
    var dirArray := Split(DirPart(relativePath), '/');
    var tmpPath: Path := [];
    result := target;
    for k := 0 to |dirArray|
      invariant tmpPath == Extended(dirArray[..k])
      invariant (true, result) == VisitAll(env, src, target, dirArray[..k])
    {
      NextDir(env, src, target, dirArray, k);
      tmpPath := Extend(tmpPath, dirArray[k]);
      ok, result := CopyDir(env, src, result, tmpPath);
      if !ok {
        StopsAt(env, src, target, dirArray, k + 1);
        return;
      }
    }
    assert dirArray[..|dirArray|] == dirArray;
    ok := true;
  }

  lemma NextDir(env: Env, src: Files, t: Files, dirs: seq<string>, k: nat)
    requires k < |dirs|
    ensures Extended(dirs[..k + 1]) == Extend(Extended(dirs[..k]), dirs[k])
    ensures var (ok, t') := VisitAll(env, src, t, dirs[..k]);
            ok ==> VisitAll(env, src, t, dirs[..k + 1]) == VisitOne(env, src, t', Extended(dirs[..k + 1]))
  {
    assert dirs[..k + 1][..k] == dirs[..k];
  }

  /** One turn of the loop. */
  method CopyDir(env: Env, src: Files, t: Files, tmpPath: Path) returns (ok: bool, result: Files)
    ensures (ok, result) == VisitOne(env, src, t, tmpPath)
  {
    ok, result := true, t;
    if !InTarget(env, t, tmpPath) {
      var fi := SourceAt(env, src, tmpPath);
      ok := fi.Some?;
      if ok {
        ok, result := MakeAndOwn(env, t, tmpPath, fi.value);
      }
    }
  }

  /** `os.Mkdir` with the source's mode, then `os.Chown`. */
  method MakeAndOwn(env: Env, t: Files, p: Path, fi: Meta) returns (ok: bool, result: Files)
    requires p != []
    ensures (ok, result) ==
            if p in env.mkdirFails then (false, t)
            else
              match PlaceOf(Kinds(t), p)
              case Broken => (false, t)
              case Outside => (p in env.targetMakes && p !in env.chownFails, t)
              case Inside(r, _) => (p !in env.chownFails,
                                    t[r := if p in env.chownFails then Made(env, fi) else Owned(env, fi)])
  {
    result := t;
    if p in env.mkdirFails {
      return false, t;
    }
    match PlaceOf(Kinds(t), p)
    case Broken => ok := false;
    case Outside => ok := p in env.targetMakes && p !in env.chownFails;
    case Inside(r, _) =>
      result := result[r := Made(env, fi)];
      ok := p !in env.chownFails;
      if ok {
        result := result[r := result[r].(uid := fi.uid, gid := fi.gid)];
        assert result == t[r := Owned(env, fi)];
      }
  }

  lemma {:induction false} StopsAt(env: Env, src: Files, t: Files, dirs: seq<string>, k: nat)
    requires k <= |dirs| && !VisitAll(env, src, t, dirs[..k]).0
    ensures VisitAll(env, src, t, dirs) == VisitAll(env, src, t, dirs[..k])
  {
    if k == |dirs| {
      assert dirs[..k] == dirs;
    } else {
      var front := dirs[..|dirs| - 1];
      assert front[..k] == dirs[..k];
      StopsAt(env, src, t, front, k);
    }
  }

  lemma VisitInside(env: Env, src: Files, t: Files, p: Path)
    requires p != [] && !InTarget(env, t, p) && SourceAt(env, src, p).Some? && PlaceOf(Kinds(t), p).Inside?
    requires p !in env.mkdirFails && p !in env.chownFails
    ensures VisitOne(env, src, t, p) == (true, t[PlaceOf(Kinds(t), p).path := Owned(env, SourceAt(env, src, p).value)])
  {
  }

  lemma VisitElsewhere(env: Env, src: Files, t: Files, p: Path)
    requires p != [] && !InTarget(env, t, p) && SourceAt(env, src, p).Some? && !PlaceOf(Kinds(t), p).Inside?
    requires p !in env.mkdirFails && p !in env.chownFails
    ensures VisitOne(env, src, t, p) == (PlaceOf(Kinds(t), p).Outside? && p in env.targetMakes, t)
  {
  }

  // ----- the loop as a walk down one path -----

  /** The directories of a path, from the top down. */
  function VisitPath(env: Env, src: Files, t: Files, d: Path): (bool, Files)
    decreases |d|
  {
    if d == [] then (true, t)
    else
      var (ok, t') := VisitPath(env, src, t, Parent(d));
      if ok then VisitOne(env, src, t', d) else (false, t')
  }

  lemma MadeIsThere(env: Env, t: Files, p: Path, m: Meta)
    requires p != [] && PlaceOf(Kinds(t), p).Inside? && PlaceOf(Kinds(t), p).path !in t
    ensures var t' := t[PlaceOf(Kinds(t), p).path := m];
            Extends(Kinds(t), Kinds(t')) && InTarget(env, t', p) && PlaceOf(Kinds(t'), p) == PlaceOf(Kinds(t), p)
  {
    FollowGrows(Kinds(t), Kinds(t[PlaceOf(Kinds(t), p).path := m]), Parent(p));
  }

  /** Looking at a directory again changes nothing. */
  lemma VisitTwice(env: Env, src: Files, t: Files, p: Path)
    requires VisitOne(env, src, t, p).0
    ensures VisitOne(env, src, VisitOne(env, src, t, p).1, p) == VisitOne(env, src, t, p)
  {
    if !InTarget(env, t, p) && PlaceOf(Kinds(t), p).Inside? {
      MadeIsThere(env, t, p, Owned(env, SourceAt(env, src, p).value));
    }
  }

  /** Empty components only look again at what has been visited. */
  lemma {:induction false} VisitAllIsPath(env: Env, src: Files, t: Files, dirs: seq<string>)
    ensures VisitAll(env, src, t, dirs) == VisitPath(env, src, t, Extended(dirs))
  {
    if dirs != [] {
      var front, d := dirs[..|dirs| - 1], Extended(dirs);
      VisitAllIsPath(env, src, t, front);
      if dirs[|dirs| - 1] == "" {
        if d == [] {
        } else if VisitPath(env, src, t, d).0 {
          VisitTwice(env, src, VisitPath(env, src, t, Parent(d)).1, d);
        }
      } else {
        assert Parent(d) == Extended(front);
      }
    }
  }

  // ----- what is there, and what can be made -----

  lemma KindsAt(t: Files, p: Path)
    ensures p in Kinds(t) <==> p in t
    ensures p in t ==> Kinds(t)[p] == t[p].kind
  {
  }

  /** Where no link lies above a name, both lookups are the literal ones. */
  lemma PlainLookup(env: Env, files: Files, p: Path)
    requires Closed(Kinds(files)) && p != [] && ProperPath(p) && NoLinkAbove(Kinds(files), p)
    ensures InTarget(env, files, p) <==> p in files
    ensures SourceAt(env, files, p) == if p in files then Some(files[p]) else None
  {
    PlacePlain(Kinds(files), p);
    if p in Kinds(files) {
      assert HasParent(Kinds(files), p);
    }
    LookupAt(env, files, p);
  }

  lemma LookupAt(env: Env, files: Files, p: Path)
    requires p != []
    requires PlaceOf(Kinds(files), p) == Inside(p, MAX_LINKS) || (PlaceOf(Kinds(files), p) == Broken && p !in files)
    ensures InTarget(env, files, p) <==> p in files
    ensures SourceAt(env, files, p) == if p in files then Some(files[p]) else None
  {
  }

  /** Below a link that leads out, what is beyond decides, on either side. */
  lemma LinkedOutLookup(env: Env, files: Files, q: Path, name: string, target: string, file: string)
    requires Closed(Kinds(files)) && ProperPath(q) && DirAt(Kinds(files), q) && Proper(name)
    requires q + [name] in files && files[q + [name]].kind == IsLink("/" + target)
    ensures var p := q + [name] + [file];
            && (InTarget(env, files, p) <==> p in env.targetNames)
            && SourceAt(env, files, p) ==
               if p in env.sourceNames then Some(env.sourceNames[p]) else None
  {
    AbsoluteLink(Kinds(files), q, name, target);
    assert Parent(q + [name] + [file]) == q + [name];
  }

  /** Where a name can be reached, everything above it is there. */
  lemma {:induction false} NothingToVisit(env: Env, src: Files, t: Files, d: Path)
    requires ProperPath(d) && d != [] && Follow(Kinds(t), Parent(d)).Inside?
    ensures VisitPath(env, src, t, Parent(d)) == (true, t)
    decreases |d|
  {
    var up := Parent(d);
    if up != [] {
      assert Last(up) in d;
      FollowedAbove(Kinds(t), up);
      FollowHas(Kinds(t), up);
      NothingToVisit(env, src, t, up);
    }
  }

  /** The three fates of a name: it is there, it has no place, or it can be made. */
  ghost predicate ToMake(t: Files, d: Path) {
    d != [] && !Has(Kinds(t), d) && Lands(Kinds(t), d).Inside?
  }

  lemma {:induction false} NothingMade(env: Env, src: Files, t: Files, d: Path)
    requires ProperPath(d) && !ToMake(t, d)
    ensures VisitPath(env, src, t, d).1 == t
    decreases |d|
  {
    if d != [] {
      var up := Parent(d);
      assert forall c :: c in up ==> c in d;
      if Follow(Kinds(t), up).Inside? {
        NothingToVisit(env, src, t, d);
      } else {
        if Lands(Kinds(t), up).Inside? && !Lands(Kinds(t), d).Inside? {
          NoPlace(Kinds(t), d);
        }
        NothingMade(env, src, t, up);
      }
    }
  }

  /** A directory that was added has the source's mode and, unless changing the
      owner failed, the source's owner. */
  ghost predicate AddedRight(env: Env, src: Files, p: Path, m: Meta) {
    && p != [] && SourceAt(env, src, p).Some?
    && var fi := SourceAt(env, src, p).value;
       && m.kind == IsDir && m.mode == env.mask(fi.mode)
       && m.uid == (if p in env.chownFails then env.uid else fi.uid)
       && m.gid == (if p in env.chownFails then env.gid else fi.gid)
  }

  /** What can be told before the call about one directory of the chain. */
  ghost predicate Copyable(env: Env, src: Files, t: Files, p: Path) {
    InTarget(env, t, p)
    || (&& p != [] && SourceAt(env, src, p).Some? && p !in env.mkdirFails && p !in env.chownFails
        && match Lands(Kinds(t), p)
           case Inside(_, _) => true
           case Outside => p in env.targetMakes
           case Broken => false)
  }

  ghost predicate AllCopyable(env: Env, src: Files, t: Files, d: Path) {
    forall n :: 0 < n <= |d| ==> Copyable(env, src, t, d[..n])
  }

  /** `q` is the place of the missing name `d[..n]`. */
  ghost predicate PlaceFor(t: Files, d: Path, n: nat, q: Path)
    requires n <= |d|
  {
    ToMake(t, d[..n]) && Lands(Kinds(t), d[..n]).path == q
  }

  /** The part of a copy that needs no success: what was there is untouched, the
      tree stays one, and what is new stands at the place of a name that was
      missing and is right. */
  ghost predicate Grown(env: Env, src: Files, t: Files, d: Path, r: Files) {
    && Closed(Kinds(r)) && (forall q :: q in t ==> q in r && r[q] == t[q])
    && (forall q :: q in r && q !in t ==> NewEntry(env, src, t, d, q, r[q]))
  }

  ghost predicate NewEntry(env: Env, src: Files, t: Files, d: Path, q: Path, m: Meta) {
    exists n :: 0 < n <= |d| && PlaceFor(t, d, n, q) && AddedRight(env, src, d[..n], m)
  }

  lemma GrownNone(env: Env, src: Files, t: Files, d: Path)
    requires Closed(Kinds(t))
    ensures Grown(env, src, t, d, t)
  {
  }

  lemma GrownFurther(env: Env, src: Files, t: Files, d: Path, r: Files)
    requires d != [] && Grown(env, src, t, Parent(d), r)
    ensures Grown(env, src, t, d, r)
  {
    forall q | q in r && q !in t
      ensures NewEntry(env, src, t, d, q, r[q])
    {
      var n :| 0 < n <= |Parent(d)| && PlaceFor(t, Parent(d), n, q) && AddedRight(env, src, Parent(d)[..n], r[q]);
      assert Parent(d)[..n] == d[..n];
      assert PlaceFor(t, d, n, q);
    }
  }

  ghost predicate NoDeeper(t: Files, r: Files, n: nat) {
    forall q :: q in r && q !in t ==> |q| <= n
  }

  /** Before the last directory is visited its place is that of its name. */
  lemma NextPlace(t: Files, t1: Files, d: Path)
    requires Closed(Kinds(t)) && ProperPath(d) && Extends(Kinds(t), Kinds(t1)) && ToMake(t, d)
    requires ToMake(t, Parent(d)) ==> Follow(Kinds(t1), Parent(d)) == Lands(Kinds(t), Parent(d))
    requires ToMake(t, Parent(d)) ==> NoDeeper(t, t1, |Lands(Kinds(t), Parent(d)).path|)
    requires !ToMake(t, Parent(d)) ==> t1 == t
    ensures PlaceOf(Kinds(t1), d) == Lands(Kinds(t), d) && PlaceOf(Kinds(t1), d).path !in t1
  {
    LandsMissing(Kinds(t), d);
    if !Follow(Kinds(t), Parent(d)).Inside? {
      LandsBelow(Kinds(t), d);
    } else if Parent(d) != [] {
      assert Last(Parent(d)) in d;
      FollowHas(Kinds(t), Parent(d));
    }
  }

  /** What a visit does at a free place. */
  lemma VisitFree(env: Env, src: Files, t: Files, d: Path) returns (m: Meta)
    requires d != [] && PlaceOf(Kinds(t), d).Inside? && PlaceOf(Kinds(t), d).path !in t
    ensures var (ok, r) := VisitOne(env, src, t, d);
            && (ok <==> SourceAt(env, src, d).Some? && d !in env.mkdirFails && d !in env.chownFails)
            && (SourceAt(env, src, d).Some? && d !in env.mkdirFails ==>
                  r == t[PlaceOf(Kinds(t), d).path := m] && AddedRight(env, src, d, m))
            && (SourceAt(env, src, d).None? || d in env.mkdirFails ==> r == t)
  {
    if SourceAt(env, src, d).Some? {
      m := if d in env.chownFails then Made(env, SourceAt(env, src, d).value)
           else Owned(env, SourceAt(env, src, d).value);
    } else {
      m := Meta(IsDir, 0, 0, 0);
    }
  }

  lemma GrownAdded(env: Env, src: Files, t: Files, d: Path, t1: Files, q: Path, m: Meta)
    requires d != [] && Grown(env, src, t, d, t1) && q !in t1 && HasParent(Kinds(t1), q)
    requires PlaceFor(t, d, |d|, q) && AddedRight(env, src, d, m)
    ensures Grown(env, src, t, d, t1[q := m])
  {
    var r := t1[q := m];
    AddedClosed(t1, q, m);
    forall x | x in r && x !in t
      ensures NewEntry(env, src, t, d, x, r[x])
    {
      if x == q {
        assert d[..|d|] == d && PlaceFor(t, d, |d|, x);
      } else {
        assert NewEntry(env, src, t, d, x, t1[x]);
      }
    }
  }

  /** One visit of a missing name whose place is known. */
  lemma VisitGrows(env: Env, src: Files, t: Files, t1: Files, d: Path)
    requires ProperPath(d) && ToMake(t, d) && Grown(env, src, t, d, t1)
    requires PlaceOf(Kinds(t1), d) == Lands(Kinds(t), d) && PlaceOf(Kinds(t1), d).path !in t1
    ensures Grown(env, src, t, d, VisitOne(env, src, t1, d).1)
    ensures VisitOne(env, src, t1, d).0 ==> Follow(Kinds(VisitOne(env, src, t1, d).1), d) == Lands(Kinds(t), d)
    ensures forall q :: q in VisitOne(env, src, t1, d).1 ==> q in t1 || q == Lands(Kinds(t), d).path
  {
    var q := PlaceOf(Kinds(t1), d).path;
    var m := VisitFree(env, src, t1, d);
    if SourceAt(env, src, d).Some? && d !in env.mkdirFails {
      PlaceHasParent(Kinds(t1), d);
      assert d[..|d|] == d;
      GrownAdded(env, src, t, d, t1, q, m);
      var r := t1[q := m];
      assert Extends(Kinds(t1), Kinds(r));
      MadeFollows(Kinds(t1), Kinds(r), d);
    }
  }

  lemma AddedClosed(t: Files, q: Path, m: Meta)
    requires Closed(Kinds(t)) && q !in t && HasParent(Kinds(t), q) && m.kind == IsDir
    ensures Closed(Kinds(t[q := m]))
  {
    var t' := t[q := m];
    forall p | p in Kinds(t')
      ensures HasParent(Kinds(t'), p)
    {
      assert p != q ==> HasParent(Kinds(t), p);
    }
  }

  /** The whole copy, by its three fates. */
  lemma {:induction false} PathGrows(env: Env, src: Files, t: Files, d: Path)
    requires Closed(Kinds(t)) && ProperPath(d)
    ensures var (ok, r) := VisitPath(env, src, t, d);
            && Grown(env, src, t, d, r)
            && (ToMake(t, d) ==> NoDeeper(t, r, |Lands(Kinds(t), d).path|))
            && (ok && ToMake(t, d) ==> Follow(Kinds(r), d) == Lands(Kinds(t), d))
    decreases |d|
  {
    if !ToMake(t, d) {
      NothingMade(env, src, t, d);
      GrownNone(env, src, t, d);
    } else {
      var up := Parent(d);
      var (ok, t1) := VisitPath(env, src, t, up);
      assert forall c :: c in up ==> c in d;
      PathGrows(env, src, t, up);
      GrownFurther(env, src, t, d, t1);
      if ToMake(t, up) {
        OneDeeper(t, d);
      } else {
        NothingMade(env, src, t, up);
      }
      if ok {
        NextPlace(t, t1, d);
        VisitGrows(env, src, t, t1, d);
      }
    }
  }

  lemma OneDeeper(t: Files, d: Path)
    requires ProperPath(d) && ToMake(t, d) && ToMake(t, Parent(d))
    ensures |Lands(Kinds(t), d).path| == |Lands(Kinds(t), Parent(d)).path| + 1
  {
    if Follow(Kinds(t), Parent(d)).Inside? {
      assert Last(Parent(d)) in d;
      FollowHas(Kinds(t), Parent(d));
    } else {
      LandsBelow(Kinds(t), d);
    }
  }

  // ----- what a copy leaves -----

  /** The name is there, or leads out of the tree. */
  ghost predicate Stands(t: Files, p: Path)
    requires p != []
  {
    Has(Kinds(t), p) || PlaceOf(Kinds(t), p).Outside?
  }

  /** The name leads to a directory, or out of the tree. */
  ghost predicate Leads(t: Files, p: Path) {
    !Follow(Kinds(t), p).Broken?
  }

  lemma VisitStands(env: Env, src: Files, t: Files, p: Path)
    requires p != []
    ensures Extends(Kinds(t), Kinds(VisitOne(env, src, t, p).1))
    ensures VisitOne(env, src, t, p).0 ==> Stands(VisitOne(env, src, t, p).1, p)
  {
    if !InTarget(env, t, p) && PlaceOf(Kinds(t), p).Inside? {
      var m := VisitFree(env, src, t, p);
      MadeIsThere(env, t, p, m);
    }
  }

  lemma StandsGrows(t: Files, t': Files, p: Path)
    requires p != [] && Extends(Kinds(t), Kinds(t')) && Stands(t, p)
    ensures Stands(t', p)
  {
    FollowGrows(Kinds(t), Kinds(t'), Parent(p));
  }

  lemma {:induction false} PathStands(env: Env, src: Files, t: Files, d: Path, n: nat)
    requires VisitPath(env, src, t, d).0 && 0 < n <= |d|
    ensures Stands(VisitPath(env, src, t, d).1, d[..n])
    decreases |d|
  {
    var t1 := VisitPath(env, src, t, Parent(d)).1;
    VisitStands(env, src, t1, d);
    if n == |d| {
      assert d[..n] == d;
    } else {
      assert Parent(d)[..n] == d[..n];
      PathStands(env, src, t, Parent(d), n);
      StandsGrows(t1, VisitPath(env, src, t, d).1, d[..n]);
    }
  }

  /** What is missing stays missing further down. */
  lemma ToMakeBelow(t: Files, d: Path)
    requires d != [] && ProperPath(d) && ToMake(t, Parent(d))
    ensures ToMake(t, d)
  {
    var up := Parent(d);
    assert Last(up) in d;
    FollowNext(Kinds(t), up);
    if Follow(Kinds(t), Parent(up)).Inside? {
      EnterPlain(Kinds(t), Follow(Kinds(t), Parent(up)).path, Last(up), Follow(Kinds(t), Parent(up)).links);
    }
  }

  lemma {:induction false} LandsOutside(t: Tree, d: Path)
    requires d != [] && Lands(t, d).Outside?
    ensures Follow(t, Parent(d)).Outside?
    decreases |d|
  {
    if Follow(t, Parent(d)).Broken? {
      assert Follow(t, []) == Inside([], MAX_LINKS);
      LandsOutside(t, Parent(d));
      FollowNext(t, Parent(d));
    }
  }

  /** One step, told from the tree at the start. */
  lemma StepIff(env: Env, src: Files, t: Files, d: Path)
    requires Closed(Kinds(t)) && d != [] && ProperPath(d) && VisitPath(env, src, t, Parent(d)).0
    ensures VisitPath(env, src, t, d).0 <==> Copyable(env, src, t, d)
  {
    var up := Parent(d);
    var t1 := VisitPath(env, src, t, up).1;
    assert forall c :: c in up ==> c in d;
    if ToMake(t, d) {
      PathGrows(env, src, t, up);
      if !ToMake(t, up) {
        NothingMade(env, src, t, up);
      }
      NextPlace(t, t1, d);
      var m := VisitFree(env, src, t1, d);
    } else {
      if ToMake(t, up) {
        ToMakeBelow(t, d);
      }
      NothingMade(env, src, t, up);
      if Lands(Kinds(t), d).Outside? {
        LandsOutside(Kinds(t), d);
      }
    }
  }

  lemma {:induction false} PathSucceedsIff(env: Env, src: Files, t: Files, d: Path)
    requires Closed(Kinds(t)) && ProperPath(d)
    ensures VisitPath(env, src, t, d).0 <==> AllCopyable(env, src, t, d)
    decreases |d|
  {
    if d != [] {
      var up := Parent(d);
      assert forall c :: c in up ==> c in d;
      PathSucceedsIff(env, src, t, up);
      assert forall n :: 0 < n < |d| ==> up[..n] == d[..n];
      assert d[..|d|] == d;
      if VisitPath(env, src, t, up).0 {
        StepIff(env, src, t, d);
      }
    }
  }

  // ----- the copy of a relative path -----

  /** The source's own mode, and its owner where the change of owner goes through. */
  ghost predicate FromSource(env: Env, src: Files, t: Files, d: Path, ok: bool, q: Path, m: Meta) {
    exists n :: 0 < n <= |d| && PlaceFor(t, d, n, q) && SourceAt(env, src, d[..n]).Some? &&
      var fi := SourceAt(env, src, d[..n]).value;
      && m.kind == IsDir && m.mode == env.mask(fi.mode)
      && (ok || d[..n] !in env.chownFails ==> m.uid == fi.uid && m.gid == fi.gid)
      && (!ok && d[..n] in env.chownFails ==> m.uid == env.uid && m.gid == env.gid)
  }

  lemma NewFromSource(env: Env, src: Files, t: Files, d: Path, q: Path)
    requires Closed(Kinds(t)) && ProperPath(d) && q in VisitPath(env, src, t, d).1 && q !in t
    ensures FromSource(env, src, t, d, VisitPath(env, src, t, d).0, q, VisitPath(env, src, t, d).1[q])
  {
    var (ok, r) := VisitPath(env, src, t, d);
    PathGrows(env, src, t, d);
    assert NewEntry(env, src, t, d, q, r[q]);
    var n :| 0 < n <= |d| && PlaceFor(t, d, n, q) && AddedRight(env, src, d[..n], r[q]);
    if ok {
      PathSucceedsIff(env, src, t, d);
      assert Copyable(env, src, t, d[..n]);
    }
  }

  /** At every step: what was there is untouched, the tree stays one, and what is
      new stands where a missing name of the chain leads, as a directory with
      the source's mode and owner; only a change of owner that fails leaves the
      process's own, and then the copy fails. On success the whole chain is
      there. */
  lemma CopyKeeps(env: Env, src: Files, t: Files, dirs: seq<string>)
    requires Closed(Kinds(t)) && ProperPath(Extended(dirs))
    ensures var (ok, r) := VisitAll(env, src, t, dirs);
            && Closed(Kinds(r)) && (forall q :: q in t ==> q in r && r[q] == t[q])
            && (forall q :: q in r && q !in t ==> FromSource(env, src, t, Extended(dirs), ok, q, r[q]))
            && (ok ==> forall n :: 0 < n <= |Extended(dirs)| ==> Stands(r, Extended(dirs)[..n]))
  {
    var d := Extended(dirs);
    VisitAllIsPath(env, src, t, dirs);
    PathGrows(env, src, t, d);
    var (ok, r) := VisitPath(env, src, t, d);
    forall q | q in r && q !in t
      ensures FromSource(env, src, t, d, ok, q, r[q])
    {
      NewFromSource(env, src, t, d, q);
    }
    if ok {
      forall n | 0 < n <= |d|
        ensures Stands(r, d[..n])
      {
        PathStands(env, src, t, d, n);
      }
    }
  }

  /** On success every ancestor leads to a directory, except that the deepest one
      leads where the target's own entry led, if it had one. */
  lemma CopiedAncestors(env: Env, src: Files, t: Files, dirs: seq<string>, n: nat)
    requires Closed(Kinds(t)) && ProperPath(Extended(dirs)) && VisitAll(env, src, t, dirs).0
    requires 0 < n <= |Extended(dirs)|
    ensures var r, d := VisitAll(env, src, t, dirs).1, Extended(dirs);
            && Stands(r, d[..n])
            && (Leads(r, d[..n]) <==> n < |d| || !InTarget(env, t, d) || Leads(t, d))
  {
    var d := Extended(dirs);
    VisitAllIsPath(env, src, t, dirs);
    PathStands(env, src, t, d, n);
    if n < |d| {
      PathStands(env, src, t, d, n + 1);
      assert Parent(d[..n + 1]) == d[..n];
    } else {
      assert d[..n] == d;
      DeepestLeads(env, src, t, d);
    }
  }

  lemma DeepestLeads(env: Env, src: Files, t: Files, d: Path)
    requires Closed(Kinds(t)) && d != [] && ProperPath(d) && VisitPath(env, src, t, d).0
    ensures Leads(VisitPath(env, src, t, d).1, d) <==> !InTarget(env, t, d) || Leads(t, d)
  {
    if ToMake(t, d) {
      PathGrows(env, src, t, d);
    } else {
      assert forall c :: c in Parent(d) ==> c in d;
      if ToMake(t, Parent(d)) {
        ToMakeBelow(t, d);
      }
      NothingMade(env, src, t, d);
      NothingMade(env, src, t, Parent(d));
      FollowNext(Kinds(t), d);
    }
  }

  /** `q` is the place of a missing name among the first `n` of the chain. */
  ghost predicate PlacedUpTo(t: Files, d: Path, n: nat, q: Path)
    requires n <= |d|
  {
    exists m :: 0 < m <= n && PlaceFor(t, d, m, q)
  }

  lemma {:induction false} NonePlaced(t: Files, d: Path, n: nat, q: Path)
    requires ProperPath(d) && !ToMake(t, d) && n <= |d|
    ensures !PlacedUpTo(t, d, n, q)
    decreases |d|
  {
    if d != [] {
      var up := Parent(d);
      assert forall c :: c in up ==> c in d;
      if ToMake(t, up) {
        ToMakeBelow(t, d);
      }
      NonePlaced(t, up, if n < |d| then n else |up|, q);
      assert forall m :: 0 < m < |d| ==> up[..m] == d[..m];
      assert d[..|d|] == d;
      forall m | 0 < m <= n
        ensures !PlaceFor(t, d, m, q)
      {
        assert m < |d| ==> !PlaceFor(t, up, m, q);
      }
    }
  }

  lemma SameUpTo(t: Files, d: Path, n: nat, q: Path)
    requires d != [] && n < |d|
    ensures PlacedUpTo(t, d, n, q) <==> PlacedUpTo(t, Parent(d), n, q)
  {
    forall m | 0 < m <= n
      ensures PlaceFor(t, d, m, q) <==> PlaceFor(t, Parent(d), m, q)
    {
      assert Parent(d)[..m] == d[..m];
    }
  }

  lemma OneMoreUpTo(t: Files, d: Path, q: Path)
    requires d != []
    ensures PlacedUpTo(t, d, |d|, q) <==> PlacedUpTo(t, Parent(d), |d| - 1, q) || PlaceFor(t, d, |d|, q)
  {
    SameUpTo(t, d, |d| - 1, q);
    if m :| 0 < m <= |d| && PlaceFor(t, d, m, q) {
      assert m < |d| ==> PlacedUpTo(t, d, |d| - 1, q);
    }
  }

  /** What was added is the missing part of a first piece of the chain, and of
      the whole chain on success. */
  lemma {:induction false} KeysExact(env: Env, src: Files, t: Files, d: Path) returns (n: nat)
    requires Closed(Kinds(t)) && ProperPath(d)
    ensures n <= |d| && (VisitPath(env, src, t, d).0 ==> n == |d|)
    ensures forall q :: q in VisitPath(env, src, t, d).1 <==> q in t || PlacedUpTo(t, d, n, q)
    decreases |d|
  {
    if !ToMake(t, d) {
      NothingMade(env, src, t, d);
      n := |d|;
      forall q {
        NonePlaced(t, d, n, q);
      }
    } else {
      var up := Parent(d);
      assert forall c :: c in up ==> c in d;
      var n0 := KeysExact(env, src, t, up);
      var (ok, t1) := VisitPath(env, src, t, up);
      n := n0;
      if ok {
        n := LastKey(env, src, t, t1, d);
      } else {
        forall q {
          SameUpTo(t, d, n, q);
        }
      }
    }
  }

  lemma LastKey(env: Env, src: Files, t: Files, t1: Files, d: Path) returns (n: nat)
    requires Closed(Kinds(t)) && ProperPath(d) && ToMake(t, d) && VisitPath(env, src, t, Parent(d)) == (true, t1)
    requires forall q :: q in t1 <==> q in t || PlacedUpTo(t, Parent(d), |d| - 1, q)
    ensures n <= |d| && (VisitOne(env, src, t1, d).0 ==> n == |d|)
    ensures forall q :: q in VisitOne(env, src, t1, d).1 <==> q in t || PlacedUpTo(t, d, n, q)
  {
    var up := Parent(d);
    assert forall c :: c in up ==> c in d;
    PathGrows(env, src, t, up);
    if !ToMake(t, up) {
      NothingMade(env, src, t, up);
    }
    NextPlace(t, t1, d);
    var m := VisitFree(env, src, t1, d);
    n := if SourceAt(env, src, d).Some? && d !in env.mkdirFails then |d| else |d| - 1;
    assert d[..|d|] == d;
    forall q
      ensures q in VisitOne(env, src, t1, d).1 <==> q in t || PlacedUpTo(t, d, n, q)
    {
      SameUpTo(t, d, |d| - 1, q);
      OneMoreUpTo(t, d, q);
    }
  }

  /** On failure what was added is the missing part of a first piece of the chain. */
  lemma FailedCopy(env: Env, src: Files, t: Files, dirs: seq<string>) returns (n: nat)
    requires Closed(Kinds(t)) && ProperPath(Extended(dirs)) && !VisitAll(env, src, t, dirs).0
    ensures n <= |Extended(dirs)|
    ensures forall q :: q in VisitAll(env, src, t, dirs).1 <==> q in t || PlacedUpTo(t, Extended(dirs), n, q)
  {
    VisitAllIsPath(env, src, t, dirs);
    n := KeysExact(env, src, t, Extended(dirs));
  }

  /** Copying succeeds exactly when every directory of the chain is copyable. */
  lemma CopySucceedsIff(env: Env, src: Files, t: Files, dirs: seq<string>)
    requires Closed(Kinds(t)) && ProperPath(Extended(dirs))
    ensures VisitAll(env, src, t, dirs).0 <==> AllCopyable(env, src, t, Extended(dirs))
  {
    VisitAllIsPath(env, src, t, dirs);
    PathSucceedsIff(env, src, t, Extended(dirs));
  }
}
