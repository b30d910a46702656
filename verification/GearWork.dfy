/** The gear-work directory of one image as a directory tree: the path copy that
    a prefetch runs there is the loop of `CopyPath`. */
module GearWork {
  import opened Text
  import opened LazyCache
  import opened TemplateLinks
  import CopyPath
  import Overlay
  import PathWalk

  /** Components of a path text; empty ones are dropped, as joining paths does. */
  function PathOf(relativePath: string): Overlay.Path {
    CopyPath.Extended(Split(relativePath, '/'))
  }

  lemma {:induction false} ExtendedConcat(a: seq<string>, b: seq<string>)
    ensures CopyPath.Extended(a + b) == CopyPath.Extended(a) + CopyPath.Extended(b)
  {
    if b == [] {
      assert a + b == a;
    } else {
      var front := b[..|b| - 1];
      ExtendedConcat(a, front);
      assert (a + b)[..|a + b| - 1] == a + front;
    }
  }

  lemma {:induction false} DirAndBase(relativePath: string) returns (base: string)
    ensures relativePath == CopyPath.DirPart(relativePath) + base && '/' !in base
    ensures var dir := CopyPath.DirPart(relativePath); dir == "" || dir[|dir| - 1] == '/'
    ensures relativePath != "" && relativePath[|relativePath| - 1] != '/' ==> base != ""
  {
    if relativePath == "" || relativePath[|relativePath| - 1] == '/' {
      base := "";
    } else {
      var n := |relativePath| - 1;
      var front := DirAndBase(relativePath[..n]);
      base := front + [relativePath[n]];
      assert relativePath == relativePath[..n] + [relativePath[n]];
    }
  }

  lemma ExtendedOne(s: string)
    ensures CopyPath.Extended([s]) == if s == "" then [] else [s]
  {
    assert [s][..0] == [];
    assert [] + [s] == [s];
  }

  /** The parts of a text behind a last separator. */
  lemma LastPart(x: string, base: string)
    requires '/' !in base
    ensures CopyPath.Extended(Split(x + ['/'] + base, '/')) ==
            CopyPath.Extended(Split(x, '/')) + (if base == "" then [] else [base])
  {
    SplitAppend(x, '/', base);
    ExtendedConcat(Split(x, '/'), [base]);
    ExtendedOne(base);
  }

  lemma DropLast(q: Overlay.Path, s: string)
    ensures Parent(q + [s]) == q
  {
  }

  lemma NoSlash(s: string)
    requires '/' !in s
    ensures CopyPath.Extended(Split(s, '/')) == if s == "" then [] else [s]
  {
    ExtendedOne(s);
  }

  lemma BehindSlash(x: string, base: string)
    requires '/' !in base && base != ""
    ensures PathOf(x + ['/'] + base) != []
    ensures CopyPath.Extended(Split(x + ['/'], '/')) == Parent(PathOf(x + ['/'] + base))
  {
    assert x + ['/'] + "" == x + ['/'];
    LastPart(x, "");
    LastPart(x, base);
    DropLast(CopyPath.Extended(Split(x, '/')), base);
  }

  lemma SplitAtSlash(whole: string, dir: string, base: string)
    requires whole == dir + base && '/' !in base && base != ""
    requires dir == "" || dir[|dir| - 1] == '/'
    ensures PathOf(whole) != []
    ensures CopyPath.Extended(Split(dir, '/')) == Parent(PathOf(whole))
  {
    if |dir| == 0 {
      assert whole == base;
      NoSlash(base);
      NoSlash(dir);
    } else {
      var m := |dir| - 1;
      var x := dir[..m];
      assert dir == x + ['/'];
      BehindSlash(x, base);
    }
  }

  /** The chain ends in the parent directory of the path. */
  lemma ChainEndsInParent(relativePath: string)
    requires relativePath != "" && relativePath[|relativePath| - 1] != '/'
    ensures PathOf(relativePath) != []
    ensures CopyPath.Extended(Split(CopyPath.DirPart(relativePath), '/')) == Parent(PathOf(relativePath))
  {
    var base := DirAndBase(relativePath);
    SplitAtSlash(relativePath, CopyPath.DirPart(relativePath), base);
  }

  ghost predicate Component(name: string) {
    name != "" && Free(name, '/')
  }

  lemma {:induction false} ExtendedAll(p: Overlay.Path)
    requires forall c :: c in p ==> Component(c)
    ensures CopyPath.Extended(p) == p
  {
    if p != [] {
      ExtendedAll(p[..|p| - 1]);
      assert p == p[..|p| - 1] + [p[|p| - 1]] && p[|p| - 1] in p;
    }
  }

  ghost predicate Components(p: Overlay.Path) {
    forall c :: c in p ==> Component(c)
  }

  lemma TextOf(p: Overlay.Path)
    requires p != [] && Components(p)
    ensures Split(Join(p, '/'), '/') == p && CopyPath.Extended(p) == p
  {
    forall part | part in p
      ensures Free(part, '/')
    {
      assert Component(part);
    }
    SplitJoin(p, '/');
    ExtendedAll(p);
  }

  lemma BehindLeading(p: Overlay.Path)
    requires p != [] && Components(p)
    ensures CopyPath.Extended(Split("/" + Join(p, '/'), '/')) == p
  {
    TextOf(p);
    SplitAtFirst("", '/', Join(p, '/'));
    assert "" + ['/'] + Join(p, '/') == "/" + Join(p, '/');
    ExtendedOne("");
    ExtendedConcat([""], p);
  }

  /** The text of a path, with or without a leading separator, stands for the
      path itself; so does one in which a separator is doubled. */
  lemma PathText(a: Overlay.Path, b: Overlay.Path)
    requires a != [] && b != [] && Components(a) && Components(b)
    ensures PathOf(Join(b, '/')) == b && PathOf("/" + Join(b, '/')) == b
    ensures PathOf(Join(a, '/') + "/" + Join(b, '/')) == a + b
    ensures PathOf(Join(a, '/') + "/" + ("/" + Join(b, '/'))) == a + b
  {
    TextOf(a);
    TextOf(b);
    BehindLeading(b);
    var x, y := Join(a, '/'), Join(b, '/');
    SplitAppend(x, '/', y);
    ExtendedConcat(a, b);
    SplitAppend(x, '/', "/" + y);
    ExtendedConcat(a, Split("/" + y, '/'));
  }

  // ----- both sides of the copy as trees -----

  function Plain(kind: PathWalk.Kind): CopyPath.Meta {
    CopyPath.Meta(kind, 0, 0, 0)
  }

  function WorkFiles(d: Disk, i: Image): CopyPath.Files {
    map k | k in d.work && k.0 == i :: k.1 := Plain(NodeKind(d.work[k]))
  }

  function IndexFiles(w: World, i: Image): CopyPath.Files {
    map k | k in w.index && k.0 == i :: k.1 := Plain(StubKind(w.index[k]))
  }

  /** No call fails of itself; modes and owners are left out. */
  function EnvOf(d: Disk, i: Image): CopyPath.Env {
    CopyPath.Env(m => m, 0, 0, {}, {},
                 set k | k in d.host.names && k.0 == i :: k.1,
                 set k | k in d.host.makes && k.0 == i :: k.1,
                 map k | k in d.host.sources && k.0 == i :: k.1 := Plain(PathWalk.IsDir))
  }

  lemma InWorkFiles(d: Disk, i: Image, q: Overlay.Path)
    ensures q in WorkFiles(d, i) <==> (i, q) in d.work
    ensures (i, q) in d.work ==> WorkFiles(d, i)[q] == Plain(NodeKind(d.work[(i, q)]))
  {
    if (i, q) in d.work {
      var k := (i, q);
      assert k.1 == q;
    }
  }

  lemma InIndexFiles(w: World, i: Image, q: Overlay.Path)
    ensures q in IndexFiles(w, i) <==> (i, q) in w.index
    ensures (i, q) in w.index ==> IndexFiles(w, i)[q] == Plain(StubKind(w.index[(i, q)]))
  {
    if (i, q) in w.index {
      var k := (i, q);
      assert k.1 == q;
    }
  }

  lemma InEnv(d: Disk, i: Image, q: Overlay.Path)
    ensures q in EnvOf(d, i).targetNames <==> (i, q) in d.host.names
    ensures q in EnvOf(d, i).targetMakes <==> (i, q) in d.host.makes
    ensures q in EnvOf(d, i).sourceNames <==> (i, q) in d.host.sources
    ensures q in EnvOf(d, i).sourceNames ==> EnvOf(d, i).sourceNames[q] == Plain(PathWalk.IsDir)
  {
    var k := (i, q);
    assert k.1 == q;
  }

  lemma SameWorkKinds(d: Disk, i: Image)
    ensures CopyPath.Kinds(WorkFiles(d, i)) == WorkKinds(d.work, i)
  {
    forall q
      ensures q in CopyPath.Kinds(WorkFiles(d, i)) <==> q in WorkKinds(d.work, i)
      ensures q in WorkKinds(d.work, i) ==> CopyPath.Kinds(WorkFiles(d, i))[q] == WorkKinds(d.work, i)[q]
    {
      InWorkFiles(d, i, q);
      KindsAt(d.work, i, q);
    }
  }

  lemma SameIndexKinds(w: World, i: Image)
    ensures CopyPath.Kinds(IndexFiles(w, i)) == IndexKinds(w, i)
  {
    forall q
      ensures q in CopyPath.Kinds(IndexFiles(w, i)) <==> q in IndexKinds(w, i)
      ensures q in IndexKinds(w, i) ==> CopyPath.Kinds(IndexFiles(w, i))[q] == IndexKinds(w, i)[q]
    {
      InIndexFiles(w, i, q);
      IndexAt(w, i, q);
    }
  }

  lemma FolderAdded(d: Disk, i: Image, r: Overlay.Path)
    ensures WorkFiles(AddNode(d, i, r, Folder), i) == WorkFiles(d, i)[r := Plain(PathWalk.IsDir)]
  {
    var d' := AddNode(d, i, r, Folder);
    forall q
      ensures q in WorkFiles(d', i) <==> q in WorkFiles(d, i) || q == r
      ensures q in WorkFiles(d', i) ==>
                WorkFiles(d', i)[q] == if q == r then Plain(PathWalk.IsDir) else WorkFiles(d, i)[q]
    {
      InWorkFiles(d, i, q);
      InWorkFiles(d', i, q);
    }
  }

  lemma SameTarget(d: Disk, i: Image, q: Overlay.Path)
    requires q != []
    ensures CopyPath.InTarget(EnvOf(d, i), WorkFiles(d, i), q) <==> InWork(d, i, q)
  {
    SameWorkKinds(d, i);
    InEnv(d, i, q);
    if WorkPlace(d, i, q).Inside? {
      InWorkFiles(d, i, WorkPlace(d, i, q).path);
    }
  }

  lemma SameSource(w: World, d: Disk, i: Image, q: Overlay.Path)
    requires q != []
    ensures var fi := CopyPath.SourceAt(EnvOf(d, i), IndexFiles(w, i), q);
            (fi.Some? <==> InIndex(w, d, i, q)) && (fi.Some? ==> fi.value == Plain(fi.value.kind))
  {
    SameIndexKinds(w, i);
    InEnv(d, i, q);
    var place := PathWalk.PlaceOf(IndexKinds(w, i), q);
    if place.Inside? {
      InIndexFiles(w, i, place.path);
    }
  }

  lemma NoFaults(d: Disk, i: Image, fi: CopyPath.Meta)
    requires fi == Plain(fi.kind)
    ensures EnvOf(d, i).mkdirFails == {} && EnvOf(d, i).chownFails == {}
    ensures CopyPath.Owned(EnvOf(d, i), fi) == Plain(PathWalk.IsDir)
  {
  }

  lemma SameMkdir(w: World, d: Disk, i: Image, q: Overlay.Path)
    requires q != [] && !InWork(d, i, q) && InIndex(w, d, i, q)
    ensures var (ok, d') := Mkdir(d, i, q);
            CopyPath.VisitOne(EnvOf(d, i), IndexFiles(w, i), WorkFiles(d, i), q) == (ok, WorkFiles(d', i))
  {
    SameTarget(d, i, q);
    SameSource(w, d, i, q);
    var env, src, t := EnvOf(d, i), IndexFiles(w, i), WorkFiles(d, i);
    var fi := CopyPath.SourceAt(env, src, q).value;
    NoFaults(d, i, fi);
    SameWorkKinds(d, i);
    var place := WorkPlace(d, i, q);
    if place.Inside? {
      CopyPath.VisitInside(env, src, t, q);
      FolderAdded(d, i, place.path);
    } else {
      InEnv(d, i, q);
      CopyPath.VisitElsewhere(env, src, t, q);
    }
  }

  /** One directory of the chain, in both models. */
  lemma SameVisit(w: World, d: Disk, i: Image, q: Overlay.Path)
    requires q != []
    ensures var (ok, d') := CopyOne(w, d, i, q);
            CopyPath.VisitOne(EnvOf(d, i), IndexFiles(w, i), WorkFiles(d, i), q) == (ok, WorkFiles(d', i))
  {
    SameTarget(d, i, q);
    SameSource(w, d, i, q);
    if !InWork(d, i, q) && InIndex(w, d, i, q) {
      SameMkdir(w, d, i, q);
    }
  }

  lemma SameHost(w: World, d: Disk, i: Image, p: Overlay.Path)
    requires p != []
    ensures CopyDirs(w, d, i, p).1.host == d.host
    decreases |p|
  {
    if |p| > 1 {
      SameHost(w, d, i, Parent(p));
    }
  }

  lemma {:induction false} SamePath(w: World, d: Disk, i: Image, p: Overlay.Path)
    requires p != []
    ensures var (ok, d') := CopyDirs(w, d, i, p);
            CopyPath.VisitPath(EnvOf(d, i), IndexFiles(w, i), WorkFiles(d, i), Parent(p)) == (ok, WorkFiles(d', i))
    decreases |p|
  {
    if |p| > 1 {
      var (ok, d') := CopyDirs(w, d, i, Parent(p));
      SamePath(w, d, i, Parent(p));
      SameHost(w, d, i, Parent(p));
      if ok {
        SameVisit(w, d', i, Parent(p));
      }
    }
  }

  /** The loop over the components of a path's text, from the index to gear-work,
      ends as the cache model's copy does and leaves the same directories. */
  lemma PathCopyIsModelled(w: World, d: Disk, i: Image, relativePath: string)
    requires relativePath != "" && relativePath[|relativePath| - 1] != '/'
    ensures PathOf(relativePath) != []
    ensures var (ok, d') := CopyDirs(w, d, i, PathOf(relativePath));
            CopyPath.VisitAll(EnvOf(d, i), IndexFiles(w, i), WorkFiles(d, i),
                              Split(CopyPath.DirPart(relativePath), '/'))
            == (ok, WorkFiles(d', i))
  {
    ChainEndsInParent(relativePath);
    CopyPath.VisitAllIsPath(EnvOf(d, i), IndexFiles(w, i), WorkFiles(d, i),
                            Split(CopyPath.DirPart(relativePath), '/'));
    SamePath(w, d, i, PathOf(relativePath));
  }
}
