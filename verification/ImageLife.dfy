/** A file's way from a built or committed tree through the store and the
    caches back to a reader. */
module ImageLife {
  import opened Text
  import opened ContentTree
  import CacheRuns
  import ContainerView
  import LazyCache
  import LowerList
  import Overlay
  import Push

  // ----- building an image: the index goes to an archive, the tree stays -----

  /** Compressed content, stored once per hash; the first one stays. */
  function BuildOne(hash: Bytes -> Bytes, enc: Bytes -> Bytes, t: Tree, files: map<Bytes, Bytes>, p: Path):
    map<Bytes, Bytes>
  {
    if p in t.nodes && t.nodes[p].Regular? && t.nodes[p].inode in t.data && hash(ContentOf(t, p)) !in files
    then files[hash(ContentOf(t, p)) := enc(ContentOf(t, p))]
    else files
  }

  function BuildFiles(hash: Bytes -> Bytes, enc: Bytes -> Bytes, t: Tree, order: seq<Path>): map<Bytes, Bytes> {
    if order == [] then map[]
    else BuildOne(hash, enc, t, BuildFiles(hash, enc, t, order[..|order| - 1]), order[|order| - 1])
  }

  function StubOf(hash: Bytes -> Bytes, t: Tree, p: Path): LazyCache.Stub
    requires p in t.nodes
  {
    match t.nodes[p]
    case Regular(_) => LazyCache.Content(hash(ContentOf(t, p)))
    case Directory => LazyCache.SubDir
    case Symlink(target) => LazyCache.Link(target)
    case Device => LazyCache.Other
  }

  /** The members of the archive, in the order of the walk. */
  function Stubs(hash: Bytes -> Bytes, t: Tree, order: seq<Path>): seq<(Path, LazyCache.Stub)>
    requires forall p :: p in order ==> p in t.nodes
  {
    if order == [] then []
    else
      var p := order[|order| - 1];
      Stubs(hash, t, order[..|order| - 1]) + [(p, StubOf(hash, t, p))]
  }

  /** One walk over the merged tree: stubs go to the archive, contents to files. */
  method TarAndCopy(hash: Bytes -> Bytes, enc: Bytes -> Bytes, t: Tree, order: seq<Path>)
    returns (archive: seq<(Path, LazyCache.Stub)>, files: map<Bytes, Bytes>)
    requires Valid(t) && Walks(order, t)
    ensures archive == Stubs(hash, t, order)
    ensures files == BuildFiles(hash, enc, t, order)
  {
    archive, files := [], map[];
    for k := 0 to |order|
      invariant archive == Stubs(hash, t, order[..k])
      invariant files == BuildFiles(hash, enc, t, order[..k])
    {
      assert order[..k + 1][..k] == order[..k];
      var path := order[k];
      assert path in order;
      if t.nodes[path].Regular? {
        var content := t.data[t.nodes[path].inode];
        var hashValue := hash(content);
        if hashValue !in files {
          files := files[hashValue := enc(content)];
        }
      }
      archive := archive + [(path, StubOf(hash, t, path))];
    }
    assert order[..|order|] == order;
  }

  /** The archive lists every path with its stub, and nothing else. */
  lemma {:induction false} StubsList(hash: Bytes -> Bytes, t: Tree, order: seq<Path>, p: Path, s: LazyCache.Stub)
    requires forall q :: q in order ==> q in t.nodes
    ensures (p, s) in Stubs(hash, t, order) <==> p in order && s == StubOf(hash, t, p)
  {
    if order != [] {
      var front := order[..|order| - 1];
      assert order == front + [order[|order| - 1]];
      StubsList(hash, t, front, p, s);
    }
  }

  /** The index of image `i` is the stub tree that was archived. */
  ghost predicate IndexIs(w: LazyCache.World, i: LazyCache.Image, hash: Bytes -> Bytes, t: Tree) {
    forall p :: ((i, p) in w.index <==> p in t.nodes) && (p in t.nodes ==> w.index[(i, p)] == StubOf(hash, t, p))
  }

  lemma {:induction false} BuiltFiles(hash: Bytes -> Bytes, enc: Bytes -> Bytes, t: Tree, order: seq<Path>)
    requires Valid(t)
    ensures forall p :: p in order && IsRegular(t, p) ==> hash(ContentOf(t, p)) in BuildFiles(hash, enc, t, order)
    ensures forall h :: h in BuildFiles(hash, enc, t, order) ==>
              Built(hash, enc, t, h, BuildFiles(hash, enc, t, order)[h])
  {
    if order != [] {
      var front, p := order[..|order| - 1], order[|order| - 1];
      BuiltFiles(hash, enc, t, front);
      assert order == front + [p];
      var files := BuildFiles(hash, enc, t, order);
      forall h | h in files
        ensures Built(hash, enc, t, h, files[h])
      {
        if h !in BuildFiles(hash, enc, t, front) {
          assert IsRegular(t, p) && h == hash(ContentOf(t, p));
        }
      }
    }
  }

  ghost predicate Built(hash: Bytes -> Bytes, enc: Bytes -> Bytes, t: Tree, h: Bytes, packed: Bytes) {
    exists p :: IsRegular(t, p) && h == hash(ContentOf(t, p)) && packed == enc(ContentOf(t, p))
  }

  /** What a pull of each stub unpacks to is the file's content. */
  ghost predicate Readable(hash: Bytes -> Bytes, dec: Bytes -> Bytes, t: Tree, storage: map<Bytes, Bytes>) {
    forall p :: IsRegular(t, p) ==> Unpacks(hash, dec, t, storage, p)
  }

  ghost predicate Unpacks(hash: Bytes -> Bytes, dec: Bytes -> Bytes, t: Tree, storage: map<Bytes, Bytes>, p: Path) {
    hash(ContentOf(t, p)) in storage && dec(storage[hash(ContentOf(t, p))]) == ContentOf(t, p)
  }

  /** Entries the store already had under the tree's hashes hold its contents. */
  ghost predicate StoreAgrees(hash: Bytes -> Bytes, dec: Bytes -> Bytes, t: Tree, storage: map<Bytes, Bytes>) {
    forall p :: IsRegular(t, p) && hash(ContentOf(t, p)) in storage ==>
      dec(storage[hash(ContentOf(t, p))]) == ContentOf(t, p)
  }

  /** After build and push every stub unpacks to its content exactly when the
      contents do not collide and the store agreed before. Shared inodes do no
      harm here, unlike in the extraction of a commit. */
  lemma BuildReadableIff(hash: Bytes -> Bytes, enc: Bytes -> Bytes, dec: Bytes -> Bytes, t: Tree, order: seq<Path>,
                         storage: map<Bytes, Bytes>)
    requires Valid(t) && Walks(order, t) && forall b :: dec(enc(b)) == b
    ensures Readable(hash, dec, t, BuildFiles(hash, enc, t, order) + storage)
            <==> CollisionFree(hash, t) && StoreAgrees(hash, dec, t, storage)
  {
    var files := BuildFiles(hash, enc, t, order);
    var after := files + storage;
    BuiltFiles(hash, enc, t, order);
    if CollisionFree(hash, t) && StoreAgrees(hash, dec, t, storage) {
      forall p | IsRegular(t, p)
        ensures Unpacks(hash, dec, t, after, p)
      {
        var h := hash(ContentOf(t, p));
        assert p in order;
        if h !in storage {
          assert Built(hash, enc, t, h, files[h]);
        }
      }
    }
    if Readable(hash, dec, t, after) {
      forall p, q | IsRegular(t, p) && IsRegular(t, q) && hash(ContentOf(t, p)) == hash(ContentOf(t, q))
        ensures ContentOf(t, p) == ContentOf(t, q)
      {
        assert Unpacks(hash, dec, t, after, p) && Unpacks(hash, dec, t, after, q);
      }
      forall p | IsRegular(t, p) && hash(ContentOf(t, p)) in storage
        ensures dec(storage[hash(ContentOf(t, p))]) == ContentOf(t, p)
      {
        assert Unpacks(hash, dec, t, after, p);
      }
    }
  }

  /** A built and pushed image reads back as the tree it was made from, through
      any reachable state of the caches. */
  lemma BuildPushRead(hash: Bytes -> Bytes, enc: Bytes -> Bytes, t: Tree, order: seq<Path>, storage: map<Bytes, Bytes>,
                      w: LazyCache.World, d: LazyCache.Disk, f: LazyCache.FileNode)
    requires Valid(t) && Walks(order, t) && forall b :: w.dec(enc(b)) == b
    requires CollisionFree(hash, t) && StoreAgrees(hash, w.dec, t, storage)
    requires IndexIs(w, f.image, hash, t) && IsRegular(t, f.path)
    requires Push.Extends(BuildFiles(hash, enc, t, order) + storage, d.storage)
    requires LazyCache.Inv(w, d) && LazyCache.FileOk(w, d, f) && !LazyCache.InUpper(d, f.image, f.path)
    ensures var content := ContentOf(t, f.path);
            var a := LazyCache.Attr(w, d, f);
            a.Done? && a.reply == LazyCache.Size(|content|) && LazyCache.Indexed(w, a.file) &&
            var o := LazyCache.Open(w, a.disk, a.file);
            o.Done? && LazyCache.ReadAll(o.disk, o.reply) == Some(content)
  {
    BuildReadableIff(hash, enc, w.dec, t, order, storage);
    assert Unpacks(hash, w.dec, t, BuildFiles(hash, enc, t, order) + storage, f.path);
    assert w.index[(f.image, f.path)] == StubOf(hash, t, f.path);
    LazyCache.ReadAgreement(w, d, f, ContentOf(t, f.path));
  }

  /** What a reader may be told of a path of the tree, in the tree's own terms. */
  ghost predicate ToldOf(t: Tree, p: Path, a: LazyCache.Attrs)
    requires p in t.nodes
  {
    match t.nodes[p]
    case Regular(_) => a == LazyCache.Size(|ContentOf(t, p)|)
    case Directory => false
    case Symlink(target) => a == LazyCache.IndexAttrs(LazyCache.Link(target))
    case Device => a == LazyCache.IndexAttrs(LazyCache.Other)
  }

  /** The same for all that is no directory: `Attr` tells the kind of the original
      tree's node, a regular file with its length and a symlink as the one it
      is; and `Readlink` answers the original target, which is then the target
      that gear-work holds. */
  lemma BuildPushAnswers(hash: Bytes -> Bytes, enc: Bytes -> Bytes, t: Tree, order: seq<Path>,
                         storage: map<Bytes, Bytes>, w: LazyCache.World, d: LazyCache.Disk, f: LazyCache.FileNode)
    requires Valid(t) && Walks(order, t) && forall b :: w.dec(enc(b)) == b
    requires CollisionFree(hash, t) && StoreAgrees(hash, w.dec, t, storage)
    requires IndexIs(w, f.image, hash, t) && f.path in t.nodes && !t.nodes[f.path].Directory?
    requires Push.Extends(BuildFiles(hash, enc, t, order) + storage, d.storage)
    requires LazyCache.Inv(w, d) && LazyCache.FileOk(w, d, f) && !LazyCache.InUpper(d, f.image, f.path)
    ensures LazyCache.Attr(w, d, f).Done? && ToldOf(t, f.path, LazyCache.Attr(w, d, f).reply)
    ensures t.nodes[f.path].Symlink? ==>
              var r, k := LazyCache.Readlink(w, d, f), (f.image, f.path);
              && LazyCache.TargetOf(w.index[k]) == t.nodes[f.path].target
              && r.Some? && k in r.value.work && r.value.work[k] == LazyCache.Soft(t.nodes[f.path].target)
  {
    assert w.index[(f.image, f.path)] == StubOf(hash, t, f.path);
    if t.nodes[f.path].Regular? {
      BuildPushRead(hash, enc, t, order, storage, w, d, f);
    } else if t.nodes[f.path].Symlink? {
      LazyCache.ReadlinkAgrees(w, d, f);
    }
  }

  // ----- the mounted image as a whole -----

  /** The original tree as a layer of an overlay. */
  function LayerOf(t: Tree): Overlay.Layer {
    map p | p in t.nodes :: EntryOf(t, p)
  }

  function EntryOf(t: Tree, p: Path): Overlay.Entry
    requires p in t.nodes
  {
    match t.nodes[p]
    case Regular(_) => Overlay.File(ContentOf(t, p))
    case Directory => Overlay.Dir(false)
    case Symlink(target) => Overlay.Symlink(target)
    case Device => Overlay.Special
  }

  /** A copy of a tree's file in the mount's writable layer shows the original. */
  ghost predicate CopyIsOriginal(w: LazyCache.World, d: LazyCache.Disk, i: LazyCache.Image, t: Tree, p: Path) {
    p in t.nodes && !t.nodes[p].Directory? && (i, p) in w.index && LazyCache.InUpper(d, i, p) ==>
      ContainerView.ThroughMount(LazyCache.UpperAt(d, i, p).value, w.index[(i, p)]) == EntryOf(t, p)
  }

  /** What decides one path of the mount: a copy of a file, if there is one, and
      otherwise what the stub unpacks to. Copies of directories do not matter. */
  ghost predicate ShownRight(hash: Bytes -> Bytes, t: Tree, w: LazyCache.World, d: LazyCache.Disk, i: LazyCache.Image,
                             p: Path)
  {
    && CopyIsOriginal(w, d, i, t, p)
    && (IsRegular(t, p) && !LazyCache.InUpper(d, i, p) ==> Unpacks(hash, w.dec, t, d.storage, p))
  }

  lemma EntryAt(hash: Bytes -> Bytes, t: Tree, w: LazyCache.World, d: LazyCache.Disk, i: LazyCache.Image, p: Path)
    requires IndexIs(w, i, hash, t)
    ensures Overlay.SameAt(ContainerView.FuseLayer(w, d, i), LayerOf(t), p) <==> ShownRight(hash, t, w, d, i, p)
  {
    var k := (i, p);
    assert k in w.index <==> p in t.nodes;
    if p in t.nodes {
      assert w.index[k] == StubOf(hash, t, p);
      assert k.1 == p && p in ContainerView.FuseLayer(w, d, i);
    }
  }

  /** The mount shows the original tree, path by path, exactly when every path
      is shown right. */
  lemma MountShowsTreeIff(hash: Bytes -> Bytes, t: Tree, w: LazyCache.World, d: LazyCache.Disk, i: LazyCache.Image)
    requires IndexIs(w, i, hash, t)
    ensures ContainerView.FuseLayer(w, d, i) == LayerOf(t) <==> forall p :: ShownRight(hash, t, w, d, i, p)
  {
    var mounted, tree := ContainerView.FuseLayer(w, d, i), LayerOf(t);
    forall p
      ensures Overlay.SameAt(mounted, tree, p) <==> ShownRight(hash, t, w, d, i, p)
    {
      EntryAt(hash, t, w, d, i, p);
    }
    if forall p :: ShownRight(hash, t, w, d, i, p) {
      forall p
        ensures Overlay.SameAt(mounted, tree, p)
      {
        assert ShownRight(hash, t, w, d, i, p);
      }
      SameLayers(mounted, tree);
    }
  }

  lemma SameLayers(a: Overlay.Layer, b: Overlay.Layer)
    requires forall p :: Overlay.SameAt(a, b, p)
    ensures a == b
  {
    forall p
      ensures (p in a <==> p in b) && (p in a ==> a[p] == b[p])
    {
      assert Overlay.SameAt(a, b, p);
    }
  }

  /** A symlink in place of a symlink of the tree shows the original whatever its
      target; in place of a regular or special file it never does. */
  lemma CopiedSymlinkIff(hash: Bytes -> Bytes, t: Tree, w: LazyCache.World, d: LazyCache.Disk, i: LazyCache.Image,
                         p: Path, anything: string)
    requires IndexIs(w, i, hash, t) && p in t.nodes && !t.nodes[p].Directory?
    requires LazyCache.UpperAt(d, i, p) == Some(Overlay.Symlink(anything))
    ensures CopyIsOriginal(w, d, i, t, p) <==> t.nodes[p].Symlink?
  {
    assert w.index[(i, p)] == StubOf(hash, t, p);
  }

  /** Every copy that does not show the original is hidden from the container by
      its own top layer. */
  ghost predicate ChangesHidden(w: LazyCache.World, d: LazyCache.Disk, i: LazyCache.Image, t: Tree, top: Overlay.Layer)
  {
    forall q :: CopyIsOriginal(w, d, i, t, q) || Overlay.Shut(top, q)
  }

  /** The container that mounted the image hides its own changes. */
  lemma OwnMountHides(hash: Bytes -> Bytes, t: Tree, w: LazyCache.World, d: LazyCache.Disk, i: LazyCache.Image,
                      top: Overlay.Layer)
    requires IndexIs(w, i, hash, t) && ContainerView.OwnMount(w, d, i, top)
    ensures ChangesHidden(w, d, i, t, top)
  {
    forall q | !CopyIsOriginal(w, d, i, t, q)
      ensures Overlay.Shut(top, q)
    {
      assert w.index[(i, q)] == StubOf(hash, t, q);
    }
  }

  /** gear-work holds originals: a copy that shows one agrees with it. */
  lemma OriginalAgrees(hash: Bytes -> Bytes, t: Tree, w: LazyCache.World, d: LazyCache.Disk, i: LazyCache.Image,
                       q: Path)
    requires LazyCache.Inv(w, d) && IndexIs(w, i, hash, t) && Readable(hash, w.dec, t, d.storage)
    requires CopyIsOriginal(w, d, i, t, q)
    ensures ContainerView.CopyAgrees(w, d, i, q)
  {
    var k := (i, q);
    assert k in w.index <==> q in t.nodes;
    if k in d.work && k in w.index && !w.index[k].SubDir? {
      assert w.index[k] == StubOf(hash, t, q);
      assert LazyCache.NodeOk(w, d, k, d.work[k]);
      if d.work[k].Hard? {
        assert Unpacks(hash, w.dec, t, d.storage, q);
        assert LazyCache.CachedOk(w, d, w.index[k].cid);
      }
    }
  }

  lemma MountTwinsTree(hash: Bytes -> Bytes, t: Tree, w: LazyCache.World, d: LazyCache.Disk, i: LazyCache.Image,
                       top: Overlay.Layer)
    requires IndexIs(w, i, hash, t) && Readable(hash, w.dec, t, d.storage) && ChangesHidden(w, d, i, t, top)
    ensures Overlay.Twins(ContainerView.FuseLayer(w, d, i), LayerOf(t), top)
  {
    forall q
      ensures Overlay.SameAt(ContainerView.FuseLayer(w, d, i), LayerOf(t), q) || Overlay.Shut(top, q)
    {
      EntryAt(hash, t, w, d, i, q);
      assert IsRegular(t, q) ==> Unpacks(hash, w.dec, t, d.storage, q);
    }
  }

  lemma {:induction false} LayersTwins(layers: map<string, Overlay.Layer>, name: string, other: Overlay.Layer,
                                       names: seq<string>, top: Overlay.Layer)
    requires Overlay.Twins(ContainerView.LayerNamed(layers, name), other, top)
    ensures Overlay.AllTwins(ContainerView.LayersOf(layers, names),
                             ContainerView.LayersOf(layers[name := other], names), top)
  {
    if names != [] {
      LayersTwins(layers, name, other, names[1..], top);
      SelfTwins(ContainerView.LayerNamed(layers, names[0]), top);
    }
  }

  lemma SelfTwins(a: Overlay.Layer, top: Overlay.Layer)
    ensures Overlay.Twins(a, a, top)
  {
  }

  /** A container of a built and pushed image, down any chain of layers and
      after any run of the caches: with gear-work in its list it sees, at every
      path, what docker's own list would show it if the image's layer were the
      original tree. */
  lemma ContainerSeesTree(hash: Bytes -> Bytes, t: Tree, w: LazyCache.World, d: LazyCache.Disk, i: LazyCache.Image,
                          top: Overlay.Layer, layers: map<string, Overlay.Layer>, links: seq<string>, base: string,
                          gearLink: string, gearWork: string, p: Overlay.Path)
    requires LazyCache.Inv(w, d) && IndexIs(w, i, hash, t) && Readable(hash, w.dec, t, d.storage)
    requires Overlay.Closed(top) && ChangesHidden(w, d, i, t, top)
    requires ContainerView.Fits(w, d, i, layers, links, base, gearLink, gearWork)
    ensures Overlay.View(ContainerView.Stack(top, layers, LowerList.Chain(links, base, gearLink, gearWork)), p)
            == Overlay.View(ContainerView.Stack(top, layers[gearLink := LayerOf(t)], LowerList.Plain(links, base)), p)
  {
    forall q
      ensures ContainerView.CopyAgrees(w, d, i, q) || Overlay.Shut(top, q)
    {
      if CopyIsOriginal(w, d, i, t, q) {
        OriginalAgrees(hash, t, w, d, i, q);
      }
    }
    ContainerView.ChainIsTransparent(w, d, i, top, layers, links, base, gearLink, gearWork, p);
    MountTwinsTree(hash, t, w, d, i, top);
    TreeForMount(t, top, layers, LowerList.Plain(links, base), gearLink, p);
  }

  lemma TreeForMount(t: Tree, top: Overlay.Layer, layers: map<string, Overlay.Layer>, lower: string, gearLink: string,
                     p: Overlay.Path)
    requires Overlay.Closed(top) && Overlay.Twins(ContainerView.LayerNamed(layers, gearLink), LayerOf(t), top)
    ensures Overlay.View(ContainerView.Stack(top, layers, lower), p)
            == Overlay.View(ContainerView.Stack(top, layers[gearLink := LayerOf(t)], lower), p)
  {
    var names := Split(lower, ':');
    LayersTwins(layers, gearLink, LayerOf(t), names, top);
    SelfTwins(top, top);
    Overlay.ReplaceIsTransparent(ContainerView.Stack(top, layers, lower),
                                 ContainerView.Stack(top, layers[gearLink := LayerOf(t)], lower), p);
  }

  lemma StaysReadable(hash: Bytes -> Bytes, dec: Bytes -> Bytes, t: Tree, before: map<Bytes, Bytes>,
                      after: map<Bytes, Bytes>)
    requires Readable(hash, dec, t, before) && forall c :: c in before ==> c in after && after[c] == before[c]
    ensures Readable(hash, dec, t, after)
  {
    forall p | IsRegular(t, p)
      ensures Unpacks(hash, dec, t, after, p)
    {
      assert Unpacks(hash, dec, t, before, p);
    }
  }

  /** `top` is the layer of the container that mounted the image. */
  ghost predicate Mounter(w: LazyCache.World, d: LazyCache.Disk, i: LazyCache.Image, top: Overlay.Layer) {
    i in d.upper && d.upper[i] == top && ContainerView.OpaqueOver(w, i, top)
  }

  /** The whole way: build an image, push it, and run containers of any images
      with empty caches at the start. At any time the container that mounted
      the image sees through its edited list what the original tree shows. */
  lemma BuiltImageInContainer(hash: Bytes -> Bytes, enc: Bytes -> Bytes, t: Tree, order: seq<Path>,
                              storage: map<Bytes, Bytes>, w: LazyCache.World, events: seq<CacheRuns.Event>,
                              i: LazyCache.Image, top: Overlay.Layer, layers: map<string, Overlay.Layer>,
                              links: seq<string>, base: string, gearLink: string, gearWork: string, p: Overlay.Path)
    requires Valid(t) && Walks(order, t) && forall b :: w.dec(enc(b)) == b
    requires CollisionFree(hash, t) && StoreAgrees(hash, w.dec, t, storage)
    requires LazyCache.ValidIndex(w) && IndexIs(w, i, hash, t) && Overlay.Closed(top)
    requires CacheRuns.GoodRun(w, CacheRuns.Start(BuildFiles(hash, enc, t, order) + storage), events)
    ensures var r := CacheRuns.Run(w, CacheRuns.Start(BuildFiles(hash, enc, t, order) + storage), events);
            r.Some? &&
            var d := r.value.disk;
            (Mounter(w, d, i, top) && ContainerView.Fits(w, d, i, layers, links, base, gearLink, gearWork) ==>
               Overlay.View(ContainerView.Stack(top, layers, LowerList.Chain(links, base, gearLink, gearWork)), p)
               == Overlay.View(ContainerView.Stack(top, layers[gearLink := LayerOf(t)], LowerList.Plain(links, base)),
                               p))
  {
    var pushed := BuildFiles(hash, enc, t, order) + storage;
    CacheRuns.EmptySafe(w, pushed);
    CacheRuns.RunSafe(w, CacheRuns.Start(pushed), events);
    var d := CacheRuns.Run(w, CacheRuns.Start(pushed), events).value.disk;
    BuildReadableIff(hash, enc, w.dec, t, order, storage);
    StaysReadable(hash, w.dec, t, pushed, d.storage);
    if Mounter(w, d, i, top) && ContainerView.Fits(w, d, i, layers, links, base, gearLink, gearWork) {
      ContainerView.OwnMountHolds(w, d, i, top);
      OwnMountHides(hash, t, w, d, i, top);
      ContainerSeesTree(hash, t, w, d, i, top, layers, links, base, gearLink, gearWork, p);
    }
  }

  // ----- committing a layer: raw contents go to the store -----

  /** What the pull of a committed stub gives back: the manager's older entry, or
      else what the last visit put there. */
  function Pulled(hash: Bytes -> Bytes, dec: Bytes -> Bytes, t: Tree, order: seq<Path>, storage: map<Bytes, Bytes>,
                  stub: Bytes): Option<Bytes>
  {
    if stub in storage then Some(dec(storage[stub]))
    else
      match StoredUnder(hash, t, order, stub)
      case Some(raw) => Some(dec(raw))
      case None => None
  }

  /** Every stub that the extraction leaves unpacks to the content that is wanted
      at its path. */
  ghost predicate StubsUnpack(dec: Bytes -> Bytes, e: Extracted, storage: map<Bytes, Bytes>, wanted: Tree) {
    forall p :: IsRegular(wanted, p) ==> StubUnpacks(dec, e, storage, p, ContentOf(wanted, p))
  }

  ghost predicate StubUnpacks(dec: Bytes -> Bytes, e: Extracted, storage: map<Bytes, Bytes>, p: Path, content: Bytes) {
    var stub := ContentOf(e.tree, p);
    stub in e.store + storage && dec((e.store + storage)[stub]) == content
  }

  /** The stub of a path: its content, hashed once for each name of its file. */
  function StubAt(hash: Bytes -> Bytes, t: Tree, order: seq<Path>, p: Path): Bytes
    requires IsRegular(t, p)
  {
    Iterate(hash, Visits(t, t.nodes[p].inode, order), ContentOf(t, p))
  }

  lemma PulledStub(hash: Bytes -> Bytes, dec: Bytes -> Bytes, t: Tree, order: seq<Path>, storage: map<Bytes, Bytes>,
                   p: Path, content: Bytes)
    requires Valid(t) && IsRegular(t, p)
    ensures StubUnpacks(dec, Extract(hash, t, order), storage, p, content)
            <==> Pulled(hash, dec, t, order, storage, StubAt(hash, t, order, p)) == Some(content)
  {
    SameShape(hash, t, order);
    FinalStub(hash, t, order, t.nodes[p].inode);
    StoreIsLast(hash, t, order, StubAt(hash, t, order, p));
  }

  /** The commit path stores contents as they are while a pull unpacks. A layer,
      with whatever links and collisions, is readable once it is pushed exactly
      when the pull of each stub gives the content back. `storage` is the store
      before the push. */
  lemma CommitReadableIff(hash: Bytes -> Bytes, dec: Bytes -> Bytes, t: Tree, order: seq<Path>,
                          storage: map<Bytes, Bytes>)
    requires Valid(t)
    ensures StubsUnpack(dec, Extract(hash, t, order), storage, t)
            <==> forall p :: IsRegular(t, p) ==>
                   Pulled(hash, dec, t, order, storage, StubAt(hash, t, order, p)) == Some(ContentOf(t, p))
  {
    forall p | IsRegular(t, p)
      ensures StubUnpacks(dec, Extract(hash, t, order), storage, p, ContentOf(t, p))
              <==> Pulled(hash, dec, t, order, storage, StubAt(hash, t, order, p)) == Some(ContentOf(t, p))
    {
      PulledStub(hash, dec, t, order, storage, p, ContentOf(t, p));
    }
    if StubsUnpack(dec, Extract(hash, t, order), storage, t) {
      forall p | IsRegular(t, p)
        ensures Pulled(hash, dec, t, order, storage, StubAt(hash, t, order, p)) == Some(ContentOf(t, p))
      {
        assert StubUnpacks(dec, Extract(hash, t, order), storage, p, ContentOf(t, p));
      }
    }
  }

  /** What a pull of a file without further names gives back. */
  ghost predicate CommitUnpacks(hash: Bytes -> Bytes, dec: Bytes -> Bytes, storage: map<Bytes, Bytes>, content: Bytes) {
    dec(if hash(content) in storage then storage[hash(content)] else content) == content
  }

  /** For a layer that extraction keeps the pull is simple to tell. */
  lemma KeptPull(hash: Bytes -> Bytes, dec: Bytes -> Bytes, t: Tree, order: seq<Path>, storage: map<Bytes, Bytes>,
                 p: Path)
    requires Valid(t) && Walks(order, t) && NoSharedFiles(t) && CollisionFree(hash, t) && IsRegular(t, p)
    ensures StubAt(hash, t, order, p) == hash(ContentOf(t, p))
    ensures Pulled(hash, dec, t, order, storage, hash(ContentOf(t, p))) == Some(ContentOf(t, p))
            <==> CommitUnpacks(hash, dec, storage, ContentOf(t, p))
  {
    var content := ContentOf(t, p);
    StubIsHash(hash, t, order, p);
    FinalStub(hash, t, order, t.nodes[p].inode);
    SameShape(hash, t, order);
    StoreIsExact(hash, t, order, hash(content), content);
    StoreIsLast(hash, t, order, hash(content));
  }

  /** A content that unpacking changes: the same commit cannot be read from a
      manager with an empty store, and can be read from one that has had an
      image of the same contents built and pushed. */
  lemma CommitDependsOnStore(hash: Bytes -> Bytes, enc: Bytes -> Bytes, dec: Bytes -> Bytes, t: Tree, order: seq<Path>,
                             p: Path)
    requires Valid(t) && Walks(order, t) && NoSharedFiles(t) && CollisionFree(hash, t)
    requires (forall b :: dec(enc(b)) == b) && IsRegular(t, p) && dec(ContentOf(t, p)) != ContentOf(t, p)
    ensures !StubsUnpack(dec, Extract(hash, t, order), map[], t)
    ensures StubsUnpack(dec, Extract(hash, t, order), BuildFiles(hash, enc, t, order), t)
  {
    var built := BuildFiles(hash, enc, t, order);
    CommitReadableIff(hash, dec, t, order, map[]);
    KeptPull(hash, dec, t, order, map[], p);
    CommitReadableIff(hash, dec, t, order, built);
    BuiltFiles(hash, enc, t, order);
    forall q | IsRegular(t, q)
      ensures Pulled(hash, dec, t, order, built, StubAt(hash, t, order, q)) == Some(ContentOf(t, q))
    {
      assert q in order;
      KeptPull(hash, dec, t, order, built, q);
      assert Built(hash, enc, t, hash(ContentOf(t, q)), built[hash(ContentOf(t, q))]);
    }
  }

  // ----- committing the same container again -----

  lemma StubsStayValid(hash: Bytes -> Bytes, t: Tree, order: seq<Path>)
    requires Valid(t)
    ensures Valid(Extract(hash, t, order).tree)
    ensures forall p :: IsRegular(Extract(hash, t, order).tree, p) <==> IsRegular(t, p)
  {
    SameShape(hash, t, order);
  }

  /** The extraction rewrites the container's own directory, so a second commit
      hashes the stubs of the first. It still resolves to the original contents
      exactly when the pull of each second stub gives them back: from what the
      manager held after the first commit, or else from the first stub itself. */
  lemma SecondCommitIff(hash: Bytes -> Bytes, dec: Bytes -> Bytes, t: Tree, order: seq<Path>, order2: seq<Path>,
                        storage: map<Bytes, Bytes>)
    requires Valid(t)
    ensures var first := Extract(hash, t, order);
            var held := first.store + storage;
            && Valid(first.tree)
            && (StubsUnpack(dec, Extract(hash, first.tree, order2), held, t)
                <==> forall p :: IsRegular(t, p) ==>
                       IsRegular(first.tree, p) &&
                       Pulled(hash, dec, first.tree, order2, held, StubAt(hash, first.tree, order2, p))
                       == Some(ContentOf(t, p)))
  {
    var first := Extract(hash, t, order);
    var held, second := first.store + storage, Extract(hash, first.tree, order2);
    StubsStayValid(hash, t, order);
    forall p | IsRegular(t, p)
      ensures IsRegular(first.tree, p)
      ensures StubUnpacks(dec, second, held, p, ContentOf(t, p))
              <==> Pulled(hash, dec, first.tree, order2, held, StubAt(hash, first.tree, order2, p))
                   == Some(ContentOf(t, p))
    {
      PulledStub(hash, dec, first.tree, order2, held, p, ContentOf(t, p));
    }
    if StubsUnpack(dec, second, held, t) {
      forall p | IsRegular(t, p)
        ensures StubUnpacks(dec, second, held, p, ContentOf(t, p))
      {
      }
    }
  }

  /** A file with one name, committed twice to a store without its second stub:
      what comes back is the first stub, unpacked. */
  lemma SecondCommitPull(hash: Bytes -> Bytes, dec: Bytes -> Bytes, t: Tree, order: seq<Path>, order2: seq<Path>,
                         storage: map<Bytes, Bytes>, p: Path)
    requires Valid(t) && Walks(order, t) && Walks(order2, t) && NoSharedFiles(t) && IsRegular(t, p)
    requires CollisionFree(hash, Extract(hash, t, order).tree)
    requires hash(hash(ContentOf(t, p))) !in Extract(hash, t, order).store + storage
    ensures var first := Extract(hash, t, order);
            StubUnpacks(dec, Extract(hash, first.tree, order2), first.store + storage, p, ContentOf(t, p))
            <==> dec(hash(ContentOf(t, p))) == ContentOf(t, p)
  {
    var first := Extract(hash, t, order);
    var held, stub := first.store + storage, hash(ContentOf(t, p));
    SameShape(hash, t, order);
    StubsStayValid(hash, t, order);
    StubIsHash(hash, t, order, p);
    StubIsHash(hash, first.tree, order2, p);
    StoreIsExact(hash, first.tree, order2, hash(stub), stub);
  }
}
