/** What a container sees through its layers while the caches run. */
module ContainerView {
  import opened Text
  import opened Overlay
  import opened LazyCache
  import opened TemplateLinks
  import opened CacheRuns
  import LowerList
  import PathWalk

  // ----- layers -----

  /** The FUSE mount of an image, as the layer it is in a container's stack. */
  function FuseLayer(w: World, d: Disk, i: Image): Layer {
    map k | k in w.index && k.0 == i :: k.1 := FuseEntry(w, d, k)
  }

  function FuseEntry(w: World, d: Disk, k: (Image, Path)): Entry
    requires k in w.index
  {
    if w.index[k].SubDir? then Dir(false)
    else if InUpper(d, k.0, k.1) then ThroughMount(UpperAt(d, k.0, k.1).value, w.index[k])
    else
      match w.index[k]
      case Content(cid) => if cid in d.storage then File(w.dec(d.storage[cid])) else Special
      case Link(t) => Symlink(t)
      case _ => Special
  }

  /** The mount shows a copy in its writable layer with the copy's kind and
      content, but reads the target of a symlink from the index. */
  function ThroughMount(copy: Entry, stub: Stub): Entry {
    match copy
    case Dir(_) => Dir(false)
    case Symlink(_) => if stub.Link? then Symlink(stub.target) else DeadLink
    case DeadLink => if stub.Link? then Symlink(stub.target) else DeadLink
    case other => other
  }

  function WorkLayer(d: Disk, i: Image): Layer {
    map k | k in d.work && k.0 == i :: k.1 := WorkEntry(d, k)
  }

  function WorkEntry(d: Disk, k: (Image, Path)): Entry
    requires k in d.work
  {
    match d.work[k]
    case Hard(n) => if n in d.data then File(d.data[n]) else Special
    case Folder => Dir(false)
    case Soft(t) => Symlink(t)
  }

  /** A copy of a gear-work file or symlink in the mount's writable layer shows
      what gear-work holds. */
  ghost predicate CopyAgrees(w: World, d: Disk, i: Image, p: Path) {
    (i, p) in d.work && (i, p) in w.index && !w.index[(i, p)].SubDir? && InUpper(d, i, p) ==>
      ThroughMount(UpperAt(d, i, p).value, w.index[(i, p)]) == WorkEntry(d, (i, p))
  }

  /** With right caches gear-work holds at a path what the mount shows there,
      exactly when no differing copy lies in the mount's writable layer. */
  lemma WorkRepeatsFuseIff(w: World, d: Disk, i: Image, p: Path)
    requires Inv(w, d)
    ensures Repeats(WorkLayer(d, i), FuseLayer(w, d, i), p) <==> CopyAgrees(w, d, i, p)
  {
    var k := (i, p);
    if p in WorkLayer(d, i) {
      assert k in d.work && NodeOk(w, d, k, d.work[k]);
      assert p in FuseLayer(w, d, i);
      if d.work[k].Hard? {
        assert CachedOk(w, d, w.index[k].cid);
      }
    }
  }

  // ----- the mount as the file operations answer it -----

  datatype Mode = FileMode | DirMode | LinkMode | OtherMode | WhiteoutMode

  function ModeOf(e: Entry): Mode {
    match e
    case File(_) => FileMode
    case Dir(_) => DirMode
    case Symlink(_) => LinkMode
    case DeadLink => LinkMode
    case Special => OtherMode
    case Whiteout => WhiteoutMode
  }

  /** The kind that an answer of `Attr` tells. */
  function KindTold(a: Attrs): Mode {
    match a
    case Size(_) => FileMode
    case UpperAttrs(copy) => ModeOf(copy)
    case IndexAttrs(Content(_)) => FileMode
    case IndexAttrs(SubDir) => DirMode
    case IndexAttrs(Link(_)) => LinkMode
    case IndexAttrs(Other) => OtherMode
  }

  /** The size that an answer of `Attr` tells, of a file. */
  function SizeTold(a: Attrs): nat {
    match a
    case Size(bytes) => bytes
    case UpperAttrs(File(content)) => |content|
    case _ => 0
  }

  /** For every file of the image, with or without a copy, the mount as a layer is
      what the operations answer: the kind is that of `Attr`, a file's bytes are
      those of `Open` and `ReadAll` and as many as `Attr` says, and a link has the target that `Readlink`
      answers, or none if the index has no link. What `Attr` fails on cannot be
      read at all. */
  lemma MountAnswers(w: World, d: Disk, f: FileNode)
    requires Inv(w, d) && FileOk(w, d, f)
    ensures var k := (f.image, f.path);
            var e, a, o := FuseEntry(w, d, k), Attr(w, d, f), Open(w, d, f);
            && !a.Died?
            && (a.Failed? ==> e == Special)
            && (a.Done? ==> ModeOf(e) == KindTold(a.reply))
            && (e.File? ==> a.Done? && SizeTold(a.reply) == |e.content|)
            && (o.Done? <==> a.Done?)
            && (o.Done? ==> ReadAll(o.disk, o.reply) == if e.File? then Some(e.content) else None)
            && (e.Dir? ==> !e.opaqueDir)
            && (a.Done? && KindTold(a.reply) == LinkMode ==>
                  e == if w.index[k].Link? then Symlink(TargetOf(w.index[k])) else DeadLink)
  {
    AttrKeeps(w, d, f);
    if !InUpper(d, f.image, f.path) && f.regular {
      OneInode(w, d, f);
      if CidOf(w, f) in d.storage {
        OpenReads(w, d, f, w.dec(d.storage[CidOf(w, f)]));
        AttrSize(w, d, f, w.dec(d.storage[CidOf(w, f)]));
      }
    }
  }

  /** A symlink of the image, replaced in the mount's writable layer by a symlink
      to anything, still shows as the image's own and never differs. */
  lemma CopiedLinkAgrees(w: World, d: Disk, i: Image, p: Path, anything: string)
    requires Inv(w, d) && (i, p) in w.index && w.index[(i, p)].Link?
    requires UpperAt(d, i, p) == Some(Symlink(anything))
    ensures FuseEntry(w, d, (i, p)) == Symlink(w.index[(i, p)].target)
    ensures CopyAgrees(w, d, i, p)
  {
    if (i, p) in d.work {
      assert NodeOk(w, d, (i, p), d.work[(i, p)]);
    }
  }

  /** A regular or special file, replaced by a symlink, always shows as something
      else than without the copy, and differs from gear-work if that has it. */
  lemma LinkOverFileDiffers(w: World, d: Disk, i: Image, p: Path, anything: string)
    requires Inv(w, d) && (i, p) in w.index && (w.index[(i, p)].Content? || w.index[(i, p)].Other?)
    requires UpperAt(d, i, p) == Some(Symlink(anything))
    ensures FuseEntry(w, d, (i, p)) != FuseEntry(w, d.(upper := d.upper - {i}), (i, p))
    ensures (i, p) in d.work ==> !CopyAgrees(w, d, i, p)
  {
  }

  function LayerNamed(layers: map<string, Layer>, name: string): Layer {
    if name in layers then layers[name] else map[]
  }

  function LayersOf(layers: map<string, Layer>, names: seq<string>): (r: seq<Layer>)
    ensures |r| == |names|
  {
    if names == [] then [] else [LayerNamed(layers, names[0])] + LayersOf(layers, names[1..])
  }

  lemma {:induction false} LayersConcat(layers: map<string, Layer>, a: seq<string>, b: seq<string>)
    ensures LayersOf(layers, a + b) == LayersOf(layers, a) + LayersOf(layers, b)
  {
    if a == [] {
      assert a + b == b;
    } else {
      LayersConcat(layers, a[1..], b);
      assert (a + b)[1..] == a[1..] + b;
    }
  }

  /** A container's stack: its own writable layer, then its lower list. */
  function Stack(top: Layer, layers: map<string, Layer>, lower: string): seq<Layer> {
    [top] + LayersOf(layers, Split(lower, ':'))
  }

  /** A name in front of the list is the layer right below the container's own. */
  lemma StackOrder(top: Layer, layers: map<string, Layer>, name: string, lower: string)
    requires Free(name, ':') && name in layers
    ensures Stack(top, layers, name) == [top] + [layers[name]]
    ensures Stack(top, layers, name + ":" + lower) == [top] + ([layers[name]] + Stack(top, layers, lower)[1..])
  {
    SplitAtFirst(name, ':', lower);
    assert LayersOf(layers, [name]) == [layers[name]];
    LayersConcat(layers, [name], Split(lower, ':'));
  }

  lemma InsertBehindFront<T>(x: T, a: seq<T>, y: T, b: seq<T>)
    requires |b| >= 1
    ensures var s := [x] + (a + b);
            s[|a| + 1] == b[0] && [x] + (a + [y] + b) == s[..|a| + 1] + [y] + s[|a| + 1..]
  {
    var s := [x] + (a + b);
    assert s[..|a| + 1] == [x] + a && s[|a| + 1..] == b;
  }

  lemma LayersInserted(layers: map<string, Layer>, a: seq<string>, x: string, b: seq<string>)
    ensures LayersOf(layers, a + [x] + b) == LayersOf(layers, a) + [LayerNamed(layers, x)] + LayersOf(layers, b)
  {
    LayersConcat(layers, a + [x], b);
    LayersConcat(layers, a, [x]);
    assert [x][1..] == [];
  }

  lemma StackOfInserted(top: Layer, layers: map<string, Layer>, list: seq<string>, k: nat, x: string)
    requires k < |list|
    ensures var s := [top] + LayersOf(layers, list);
            && s[k + 1] == LayerNamed(layers, list[k])
            && [top] + LayersOf(layers, list[..k] + [x] + list[k..])
               == s[..k + 1] + [LayerNamed(layers, x)] + s[k + 1..]
  {
    var a, b := list[..k], list[k..];
    assert LayersOf(layers, list) == LayersOf(layers, a) + LayersOf(layers, b) by {
      assert a + b == list;
      LayersConcat(layers, a, b);
    }
    LayersInserted(layers, a, x, b);
    InsertBehindFront(top, LayersOf(layers, a), LayerNamed(layers, x), LayersOf(layers, b));
  }

  /** An edit that inserts does so in front of the image's own entry. */
  lemma EditedStack(top: Layer, layers: map<string, Layer>, lower: string, gearLink: string, gearWork: string)
    returns (k: nat)
    requires Free(gearWork, ':') && gearLink in Split(lower, ':') && gearWork !in Split(lower, ':')
    ensures var stack := Stack(top, layers, lower);
            && 0 < k < |stack| && stack[k] == LayerNamed(layers, gearLink)
            && Stack(top, layers, LowerList.Edit(lower, gearLink, gearWork))
                 == stack[..k] + [LayerNamed(layers, gearWork)] + stack[k..]
  {
    var list := Split(lower, ':');
    LowerList.EditPlaces(lower, gearLink, gearWork);
    var list' := Split(LowerList.Edit(lower, gearLink, gearWork), ':');
    var j :| 0 <= j <= |list| && list' == list[..j] + [gearWork] + list[j..]
             && gearLink !in list[..j] && (j < |list| ==> list[j] == gearLink);
    assert list[..|list|] == list;
    assert j < |list|;
    StackOfInserted(top, layers, list, j, gearWork);
    k := j + 1;
  }

  // ----- when gear-work in the list changes nothing -----

  /** Every differing copy of the mount's writable layer is hidden from the
      container by its own top layer. */
  ghost predicate DifferencesShut(w: World, d: Disk, i: Image, top: Layer) {
    forall q :: CopyAgrees(w, d, i, q) || Shut(top, q)
  }

  lemma EditIsTransparent(w: World, d: Disk, i: Image, top: Layer, layers: map<string, Layer>,
                          lower: string, gearLink: string, gearWork: string, p: Path)
    requires Inv(w, d) && Closed(top) && DifferencesShut(w, d, i, top)
    requires Free(gearWork, ':') && gearLink in Split(lower, ':')
    requires LayerNamed(layers, gearLink) == FuseLayer(w, d, i) && LayerNamed(layers, gearWork) == WorkLayer(d, i)
    ensures View(Stack(top, layers, LowerList.Edit(lower, gearLink, gearWork)), p) == View(Stack(top, layers, lower), p)
  {
    if gearWork !in Split(lower, ':') {
      var stack := Stack(top, layers, lower);
      var k := EditedStack(top, layers, lower, gearLink, gearWork);
      forall q
        ensures Repeats(WorkLayer(d, i), stack[k], q) || Shut(stack[0], q)
      {
        WorkRepeatsFuseIff(w, d, i, q);
      }
      InsertIsTransparent(stack, WorkLayer(d, i), k, p);
    }
  }

  /** A chain of container layers of image `i`: the lowest one's list `base` has
      the image, the links above it are other layers. */
  ghost predicate Fits(w: World, d: Disk, i: Image, layers: map<string, Layer>, links: seq<string>, base: string,
                       gearLink: string, gearWork: string)
  {
    && AllFree(links, ':') && Free(gearWork, ':') && gearLink !in links && gearWork !in links
    && gearLink in Split(base, ':')
    && LayerNamed(layers, gearLink) == FuseLayer(w, d, i) && LayerNamed(layers, gearWork) == WorkLayer(d, i)
  }

  /** With the list that the edits leave, the container sees at `p` what it
      would see with the list that docker writes. */
  ghost predicate SameView(top: Layer, layers: map<string, Layer>, links: seq<string>, base: string,
                           gearLink: string, gearWork: string, p: Path)
  {
    View(Stack(top, layers, LowerList.Chain(links, base, gearLink, gearWork)), p)
    == View(Stack(top, layers, LowerList.Plain(links, base)), p)
  }

  /** So for every chain, whatever its other layers hold, and at every path. */
  ghost predicate Transparent(w: World, d: Disk, i: Image, top: Layer) {
    forall layers, links, base, gearLink, gearWork, p ::
      Fits(w, d, i, layers, links, base, gearLink, gearWork) ==>
        SameView(top, layers, links, base, gearLink, gearWork, p)
  }

  lemma ChainIsTransparent(w: World, d: Disk, i: Image, top: Layer, layers: map<string, Layer>, links: seq<string>,
                           base: string, gearLink: string, gearWork: string, p: Path)
    requires Inv(w, d) && Closed(top) && DifferencesShut(w, d, i, top)
    requires Fits(w, d, i, layers, links, base, gearLink, gearWork)
    ensures SameView(top, layers, links, base, gearLink, gearWork, p)
  {
    LowerList.ChainIsEdit(links, base, gearLink, gearWork);
    LowerList.PlainParts(links, base);
    EditIsTransparent(w, d, i, top, layers, LowerList.Plain(links, base), gearLink, gearWork, p);
  }

  lemma ShutIsTransparent(w: World, d: Disk, i: Image, top: Layer)
    requires Inv(w, d) && Closed(top) && DifferencesShut(w, d, i, top)
    ensures Transparent(w, d, i, top)
  {
    forall layers, links, base, gearLink, gearWork, p | Fits(w, d, i, layers, links, base, gearLink, gearWork)
      ensures SameView(top, layers, links, base, gearLink, gearWork, p)
    {
      ChainIsTransparent(w, d, i, top, layers, links, base, gearLink, gearWork, p);
    }
  }

  /** A directory over a file of the image is opaque, as overlayfs makes it. */
  ghost predicate OpaqueOver(w: World, i: Image, top: Layer) {
    forall p :: p in top && top[p].Dir? && (i, p) in w.index && !w.index[(i, p)].SubDir? ==> top[p].opaqueDir
  }

  ghost predicate PlainDown(layer: Layer, p: Path) {
    forall n :: 0 < n < |p| ==> PlainAt(layer, p, n)
  }

  lemma TopPlainDown(top: Layer, p: Path)
    requires Closed(top) && !Shut(top, p)
    ensures PlainDown(top, p)
  {
    forall n | 0 < n < |p|
      ensures PlainAt(top, p, n)
    {
      assert !ShutAt(top, p, n);
      assert p[..n + 1][..n] == p[..n];
      assert p[..n + 1] in top ==> InDir(top, p[..n + 1]);
    }
  }

  lemma FusePlainDown(w: World, d: Disk, i: Image, p: Path)
    requires ValidIndex(w) && (i, p) in w.index
    ensures PlainDown(FuseLayer(w, d, i), p)
  {
    forall n | 0 < n < |p|
      ensures PlainAt(FuseLayer(w, d, i), p, n)
    {
      AncestorsIndexed(w, i, p, n);
      var k := (i, p[..n]);
      assert k in w.index && k.1 == p[..n];
    }
  }

  lemma WorkPlainDown(w: World, d: Disk, i: Image, p: Path)
    requires Inv(w, d) && (i, p) in w.index
    ensures PlainDown(WorkLayer(d, i), p)
  {
    forall n | 0 < n < |p|
      ensures PlainAt(WorkLayer(d, i), p, n)
    {
      AncestorsIndexed(w, i, p, n);
      var k := (i, p[..n]);
      if k in d.work {
        assert NodeOk(w, d, k, d.work[k]);
      } else {
        assert Parent(p[..n + 1]) == p[..n];
        assert !FolderAbove(d.work, i, p[..n + 1]);
      }
    }
  }

  lemma PlainStack(stack: seq<Layer>, p: Path)
    requires forall layer :: layer in stack ==> PlainDown(layer, p)
    ensures PlainAbove(stack, p)
  {
    forall layer, n | layer in stack && 0 < n < |p|
      ensures PlainAt(layer, p, n)
    {
      assert PlainDown(layer, p);
    }
  }

  /** Over the bare image, what a container sees at a path that its own layer
      leaves alone is what the first layer below says. */
  lemma FirstBelowTop(top: Layer, rest: seq<Layer>, p: Path)
    requires p != [] && p !in top && rest != [] && p in rest[0]
    requires PlainDown(top, p) && forall layer :: layer in rest ==> PlainDown(layer, p)
    ensures View([top] + rest, p) == SeenAs(rest[0][p])
  {
    PlainStack([top] + rest, p);
    LeftmostWins([top] + rest, p);
    assert ([top] + rest)[1..] == rest;
  }

  /** A differing copy makes two layers differ at an indexed file. */
  lemma DifferentEntries(w: World, d: Disk, i: Image, p: Path)
    requires Inv(w, d) && !CopyAgrees(w, d, i, p)
    ensures var work, mount := WorkLayer(d, i), FuseLayer(w, d, i);
            && p != [] && (i, p) in w.index && !w.index[(i, p)].SubDir?
            && p in work && p in mount && SeenAs(work[p]) == Thing(work[p]) && SeenAs(mount[p]) != Thing(work[p])
  {
    var k := (i, p);
    assert NodeOk(w, d, k, d.work[k]) && BelowDir(w, i, p);
    assert k in d.work && k.1 == p && p in WorkLayer(d, i) && p in FuseLayer(w, d, i);
  }

  lemma TwoBelowTop(top: Layer, a: Layer, b: Layer, p: Path)
    requires p != [] && p !in top && p in a && p in b
    requires PlainDown(top, p) && PlainDown(a, p) && PlainDown(b, p)
    ensures View([top] + [a, b], p) == SeenAs(a[p])
    ensures View([top] + [b], p) == SeenAs(b[p])
  {
    FirstBelowTop(top, [a, b], p);
    FirstBelowTop(top, [b], p);
  }

  lemma LeftOpen(top: Layer, p: Path)
    requires p != [] && !Shut(top, p)
    ensures !Decides(top, p)
  {
    assert p[..|p|] == p && !ShutAt(top, p, |p|);
  }

  /** A differing copy that the top layer leaves open shows: with gear-work in
      front the container reads the image's content, without it the copy. */
  lemma DifferenceShows(w: World, d: Disk, i: Image, top: Layer, p: Path)
    requires Inv(w, d) && Closed(top) && OpaqueOver(w, i, top)
    requires !CopyAgrees(w, d, i, p) && !Shut(top, p)
    ensures var work, mount := WorkLayer(d, i), FuseLayer(w, d, i);
            && p in work && View([top] + [work, mount], p) == Thing(work[p])
            && View([top] + [mount], p) != Thing(work[p])
  {
    var work, mount := WorkLayer(d, i), FuseLayer(w, d, i);
    DifferentEntries(w, d, i, p);
    LeftOpen(top, p);
    TopPlainDown(top, p);
    WorkPlainDown(w, d, i, p);
    FusePlainDown(w, d, i, p);
    TwoBelowTop(top, work, mount, p);
  }

  lemma BareStacks(top: Layer, layers: map<string, Layer>, gearLink: string, gearWork: string)
    requires Free(gearLink, ':') && Free(gearWork, ':') && gearLink != gearWork
    ensures Stack(top, layers, LowerList.Plain([], gearLink)) == [top] + [LayerNamed(layers, gearLink)]
    ensures Stack(top, layers, LowerList.Chain([], gearLink, gearLink, gearWork))
            == [top] + [LayerNamed(layers, gearWork), LayerNamed(layers, gearLink)]
  {
    assert Split(gearLink, ':') == [gearLink];
    assert LayersOf(layers, [gearLink]) == [LayerNamed(layers, gearLink)];
    var k := EditedStack(top, layers, gearLink, gearLink, gearWork);
  }

  lemma BareFits(w: World, d: Disk, i: Image) returns (layers: map<string, Layer>)
    ensures Fits(w, d, i, layers, [], "g", "g", "w")
  {
    layers := map["g" := FuseLayer(w, d, i), "w" := WorkLayer(d, i)];
    assert Split("g", ':') == ["g"];
  }

  lemma DifferenceBreaks(w: World, d: Disk, i: Image, top: Layer, p: Path)
    requires Inv(w, d) && Closed(top) && OpaqueOver(w, i, top)
    requires !CopyAgrees(w, d, i, p) && !Shut(top, p)
    ensures !Transparent(w, d, i, top)
  {
    var layers := BareFits(w, d, i);
    var gearLink, gearWork := "g", "w";
    assert !SameView(top, layers, [], gearLink, gearLink, gearWork, p) by {
      BareStacks(top, layers, gearLink, gearWork);
      DifferenceShows(w, d, i, top, p);
    }
  }

  /** With right caches, gear-work in the list changes nothing that a container
      sees exactly when its own layer shuts every path at which the writable
      layer of the mount, which is another container's for all but the first,
      differs from gear-work. */
  lemma TransparentIff(w: World, d: Disk, i: Image, top: Layer)
    requires Inv(w, d) && Closed(top) && OpaqueOver(w, i, top)
    ensures Transparent(w, d, i, top) <==> DifferencesShut(w, d, i, top)
  {
    if DifferencesShut(w, d, i, top) {
      ShutIsTransparent(w, d, i, top);
    } else {
      var p :| !(CopyAgrees(w, d, i, p) || Shut(top, p));
      DifferenceBreaks(w, d, i, top, p);
    }
  }

  /** For all containers of the image at once, whatever their own layers hold,
      exactly when no copy of the mount's writable layer differs. */
  lemma TransparentToAllIff(w: World, d: Disk, i: Image)
    requires Inv(w, d)
    ensures (forall top :: Closed(top) ==> Transparent(w, d, i, top)) <==> forall p :: CopyAgrees(w, d, i, p)
  {
    if p :| !CopyAgrees(w, d, i, p) {
      var top: Layer := map[];
      DifferenceBreaks(w, d, i, top, p);
      assert Closed(top);
    } else {
      forall top | Closed(top)
        ensures Transparent(w, d, i, top)
      {
        ShutIsTransparent(w, d, i, top);
      }
    }
  }

  /** What the mount finds in its writable layer the container's own layer hides. */
  ghost predicate OwnMount(w: World, d: Disk, i: Image, top: Layer) {
    forall p :: InUpper(d, i, p) && (i, p) in w.index && !w.index[(i, p)].SubDir? ==> Shut(top, p)
  }

  lemma OwnMountShuts(w: World, d: Disk, i: Image, top: Layer)
    requires OwnMount(w, d, i, top)
    ensures DifferencesShut(w, d, i, top)
  {
  }

  /** The container that mounted the image: its own layer is the mount's. A copy
      found through a symlink is hidden by the symlink. */
  lemma OwnMountHolds(w: World, d: Disk, i: Image, top: Layer)
    requires ValidIndex(w) && i in d.upper && d.upper[i] == top && OpaqueOver(w, i, top)
    ensures OwnMount(w, d, i, top)
  {
    forall p | InUpper(d, i, p) && (i, p) in w.index && !w.index[(i, p)].SubDir?
      ensures Shut(top, p)
    {
      IndexedIsProper(w, i, p);
      FoundIsShut(w, d, i, top, p);
    }
  }

  lemma FoundIsShut(w: World, d: Disk, i: Image, top: Layer, p: Path)
    requires i in d.upper && d.upper[i] == top && OpaqueOver(w, i, top) && PathWalk.ProperPath(p)
    requires InUpper(d, i, p) && (i, p) in w.index && !w.index[(i, p)].SubDir?
    ensures Shut(top, p)
  {
    var t := LayerKinds(top);
    PathWalk.PlaceOrLink(t, p);
    if n :| 0 < n < |p| && PathWalk.LinkAt(t, p, n) {
      assert top[p[..n]].Symlink? && ShutAt(top, p, n);
    } else {
      assert p[..|p|] == p && ShutAt(top, p, |p|);
    }
  }

  /** After any run from empty caches, whatever was opened, prefetched or written
      meanwhile: the container that mounted the image, and every container that
      hides the first one's changes, sees through all its layers what it would
      see without gear-work; the others do not. */
  lemma TransparentAfterRun(w: World, storage: map<string, Bytes>, events: seq<Event>, i: Image, top: Layer)
    requires ValidIndex(w) && GoodRun(w, Start(storage), events) && Closed(top)
    ensures var r := Run(w, Start(storage), events);
            r.Some? &&
            var d := r.value.disk;
            && (i in d.upper && d.upper[i] == top && OpaqueOver(w, i, top) ==> Transparent(w, d, i, top))
            && (DifferencesShut(w, d, i, top) ==> Transparent(w, d, i, top))
            && (OpaqueOver(w, i, top) && Transparent(w, d, i, top) ==> DifferencesShut(w, d, i, top))
  {
    EmptySafe(w, storage);
    RunSafe(w, Start(storage), events);
    var d := Run(w, Start(storage), events).value.disk;
    if i in d.upper && d.upper[i] == top && OpaqueOver(w, i, top) {
      OwnMountHolds(w, d, i, top);
      OwnMountShuts(w, d, i, top);
    }
    if DifferencesShut(w, d, i, top) {
      ShutIsTransparent(w, d, i, top);
    } else if OpaqueOver(w, i, top) {
      TransparentIff(w, d, i, top);
    }
  }

  lemma LookedUp(w: World, storage: map<string, Bytes>, i: Image, p: Path, cid: string) returns (st: State)
    requires ValidIndex(w) && (i, p) in w.index && w.index[(i, p)] == Content(cid) && cid in storage
    ensures Step(w, Start(storage), LookupFile(i, p)) == Some(st) && Safe(w, st)
    ensures (i, p) in st.disk.work && WorkEntry(st.disk, (i, p)) == File(w.dec(storage[cid]))
    ensures st.disk.host == Host(map[], {}, {}, {})
  {
    EmptySafe(w, storage);
    LookupSafe(w, Start(storage), i, p);
    assert BelowDir(w, i, p);
    var f := NodeFor(w, i, p);
    OneInode(w, Start(storage).disk, f);
    st := Step(w, Start(storage), LookupFile(i, p)).value;
    assert Attr(w, Start(storage).disk, f).disk == st.disk;
    assert CachedOk(w, st.disk, cid);
    AttrKeeps(w, Start(storage).disk, f);
  }

  lemma RunOfTwo(w: World, st: State, a: Event, b: Event)
    requires AllIndexed(w, st.files) && Step(w, st, a).Some?
    ensures Run(w, st, [a] + [b]) == Step(w, Step(w, st, a).value, b)
  {
    var next := Step(w, st, a).value;
    assert ([a] + [b])[1..] == [b] && [b][1..] == [];
    assert Run(w, next, [b]) == Step(w, next, b);
  }

  lemma UpperStep(w: World, st: State, i: Image, upper: Layer, k: (Image, Path))
    requires Safe(w, st) && k in st.disk.work
    ensures var r := Step(w, st, UpperChanged(i, upper));
            && r.Some? && Safe(w, r.value) && r.value.disk.host == st.disk.host
            && k in r.value.disk.work && WorkEntry(r.value.disk, k) == WorkEntry(st.disk, k)
            && i in r.value.disk.upper && r.value.disk.upper[i] == upper
  {
    OthersSafe(w, st, UpperChanged(i, upper));
  }

  /** The state after a container has looked the file up and its layer is `upper`. */
  function LookAndChange(w: World, storage: map<string, Bytes>, i: Image, p: Path, upper: Layer): Option<State> {
    Run(w, Start(storage), [LookupFile(i, p)] + [UpperChanged(i, upper)])
  }

  lemma ChangedState(w: World, storage: map<string, Bytes>, i: Image, p: Path, cid: string, upper: Layer)
    requires ValidIndex(w) && (i, p) in w.index && w.index[(i, p)] == Content(cid) && cid in storage
    ensures var r := LookAndChange(w, storage, i, p, upper);
            r.Some? &&
            var d := r.value.disk;
            && Inv(w, d) && (i, p) in d.work && WorkEntry(d, (i, p)) == File(w.dec(storage[cid]))
            && i in d.upper && d.upper[i] == upper && d.host == Host(map[], {}, {}, {})
  {
    var look, change := LookupFile(i, p), UpperChanged(i, upper);
    var st := LookedUp(w, storage, i, p, cid);
    UpperStep(w, st, i, upper, (i, p));
    RunOfTwo(w, Start(storage), look, change);
  }

  lemma SecondSees(w: World, d: Disk, i: Image, p: Path, bytes: Bytes, other: Bytes)
    requires Inv(w, d) && (i, p) in w.index && w.index[(i, p)].Content? && (i, p) in d.work
    requires WorkEntry(d, (i, p)) == File(bytes) && other != bytes
    requires UpperAt(d, i, p) == Some(File(other))
    ensures View([map[]] + [WorkLayer(d, i), FuseLayer(w, d, i)], p) == Thing(File(bytes))
    ensures View([map[]] + [FuseLayer(w, d, i)], p) == Thing(File(other))
    ensures !Transparent(w, d, i, map[])
  {
    var k := (i, p);
    assert k in w.index && FuseEntry(w, d, k) == File(other);
    assert !CopyAgrees(w, d, i, p);
    DifferenceShows(w, d, i, map[], p);
    DifferenceBreaks(w, d, i, map[], p);
    FusePlainDown(w, d, i, p);
    DifferentEntries(w, d, i, p);
    FirstBelowTop(map[], [FuseLayer(w, d, i)], p);
  }

  /** The layer `upper` holds another file where the path leads in it. */
  ghost predicate LeadsTo(upper: Layer, p: Path, other: Bytes) {
    p != [] && PathWalk.Has(LayerKinds(upper), p) && upper[PathWalk.PlaceOf(LayerKinds(upper), p).path] == File(other)
  }

  /** Two containers of one image. The first looks a file up; later its path leads
      to another file in the first one's layer. The second has changed nothing:
      with gear-work in its list it reads the image's content, without it the
      first one's change. */
  lemma SecondContainerDiffers(w: World, storage: map<string, Bytes>, i: Image, p: Path, cid: string,
                               upper: Layer, other: Bytes)
    requires ValidIndex(w) && (i, p) in w.index && w.index[(i, p)] == Content(cid) && cid in storage
    requires LeadsTo(upper, p, other) && other != w.dec(storage[cid])
    ensures var r := LookAndChange(w, storage, i, p, upper);
            r.Some? &&
            var d := r.value.disk;
            && View([map[]] + [WorkLayer(d, i), FuseLayer(w, d, i)], p) == Thing(File(w.dec(storage[cid])))
            && View([map[]] + [FuseLayer(w, d, i)], p) == Thing(File(other))
            && !Transparent(w, d, i, map[])
  {
    ChangedState(w, storage, i, p, cid, upper);
    SecondSees(w, LookAndChange(w, storage, i, p, upper).value.disk, i, p, w.dec(storage[cid]), other);
  }

  /** The writable layer of a container that has put one entry at a path. */
  function Changed(p: Path, entry: Entry): Layer {
    (map q | q in Ancestors(p) :: q := Dir(false))[p := entry]
  }

  lemma ChangedPlace(p: Path, entry: Entry)
    requires p != [] && PathWalk.ProperPath(p)
    ensures PathWalk.PlaceOf(LayerKinds(Changed(p, entry)), p) == PathWalk.Inside(p, PathWalk.MAX_LINKS)
    ensures p in Changed(p, entry) && Changed(p, entry)[p] == entry
  {
    var t, up := LayerKinds(Changed(p, entry)), Parent(p);
    forall n | 0 < n <= |up|
      ensures PathWalk.DirAt(t, up[..n])
    {
      assert up[..n] == p[..n] && p[..n] in Ancestors(p);
    }
    PathWalk.FollowDirs(t, up);
    assert p == up + [PathWalk.Last(p)];
  }

  /** Writing the file itself is such a change. */
  lemma ChangedLeads(p: Path, other: Bytes)
    requires p != [] && PathWalk.ProperPath(p)
    ensures LeadsTo(Changed(p, File(other)), p, other)
  {
    ChangedPlace(p, File(other));
  }

  /** And so is replacing its directory by a symlink to another one: nothing is
      left in the layer at the path itself. */
  lemma LinkedLeads(name: string, target: string, file: string, other: Bytes)
    requires PathWalk.Proper(name) && PathWalk.Proper(target) && name != target && '/' !in target
    ensures var upper: Layer := map[[name] := Symlink(target), [target] := Dir(false), [target, file] := File(other)];
            LeadsTo(upper, [name, file], other) && [name, file] !in upper
  {
    var upper: Layer := map[[name] := Symlink(target), [target] := Dir(false), [target, file] := File(other)];
    var t := LayerKinds(upper);
    assert [name] in t && [target] in t && [target, file] in t;
    PathWalk.FollowLink(t, name, target);
    assert Parent([name, file]) == [name] && [target] + [file] == [target, file];
  }

  /** The same below another directory, through a link that climbs: the layer has
      something at the path's directory only, which is a link. */
  lemma ClimbingLinkLeads(dir: string, name: string, target: string, file: string, other: Bytes)
    requires PathWalk.Proper(dir) && PathWalk.Proper(name) && PathWalk.Proper(target) && PathWalk.Proper(file)
    requires dir != target && Free(target, '/')
    ensures var upper: Layer := map[[dir] := Dir(false), [target] := Dir(false), [target, file] := File(other),
                                    [dir, name] := Symlink("../" + target)];
            LeadsTo(upper, [dir, name, file], other) && [dir, name, file] !in upper
  {
    var upper: Layer := map[[dir] := Dir(false), [target] := Dir(false), [target, file] := File(other),
                            [dir, name] := Symlink("../" + target)];
    var t := LayerKinds(upper);
    ClimbingTree(t, upper, dir, name, target, file, other);
    ClimbingFollow(t, dir, name, target);
    assert Parent([dir, name, file]) == [dir, name] && [target] + [file] == [target, file];
  }

  lemma ClimbingTree(t: PathWalk.Tree, upper: Layer, dir: string, name: string, target: string, file: string,
                     other: Bytes)
    requires dir != target && t == LayerKinds(upper)
    requires upper == map[[dir] := Dir(false), [target] := Dir(false), [target, file] := File(other),
                          [dir, name] := Symlink("../" + target)]
    ensures PathWalk.Closed(t) && [dir] in t && t[[dir]] == PathWalk.IsDir
    ensures [target] in t && t[[target]] == PathWalk.IsDir
    ensures [dir, name] in t && t[[dir, name]] == PathWalk.IsLink("../" + target)
    ensures [target, file] in upper && upper[[target, file]] == File(other)
  {
    assert [dir] in upper && [target] in upper && [target, file] in upper && [dir, name] in upper;
    forall p | p in t
      ensures PathWalk.HasParent(t, p)
    {
      assert p == [dir] || p == [target] || p == [target, file] || p == [dir, name];
      assert Parent([target, file]) == [target] && Parent([dir, name]) == [dir];
    }
  }

  lemma ClimbingFollow(t: PathWalk.Tree, dir: string, name: string, target: string)
    requires PathWalk.Proper(dir) && PathWalk.Proper(name) && PathWalk.Proper(target) && Free(target, '/')
    requires PathWalk.Closed(t) && [dir] in t && t[[dir]] == PathWalk.IsDir && [target] in t
    requires t[[target]] == PathWalk.IsDir
    requires [dir, name] in t && t[[dir, name]] == PathWalk.IsLink("../" + target)
    ensures PathWalk.Follow(t, [dir, name]) == PathWalk.Inside([target], PathWalk.MAX_LINKS - 1)
  {
    var r := [target];
    assert PathWalk.UpAndDown(0, r) == r;
    assert PathWalk.UpAndDown(1, r) == ["..", target];
    assert ["..", target][1..] == [target];
    assert Join(["..", target], '/') == "../" + target;
    assert [dir] + [name] == [dir, name];
    assert r[..1] == r && [dir][..0] + r == r;
    PathWalk.RelativeLink(t, [dir], name, 1, r);
  }

  /** Through a link that leaves the layer the mount finds what the host has. */
  lemma LinkedOut(d: Disk, i: Image, name: string, target: string, file: string)
    requires PathWalk.Proper(name) && i in d.upper && d.upper[i] == map[[name] := Symlink("/" + target)]
    ensures UpperAt(d, i, [name, file]) ==
            if (i, [name, file]) in d.host.copies then Some(d.host.copies[(i, [name, file])]) else None
  {
    var t := LayerKinds(d.upper[i]);
    assert [name] in t && [] + [name] == [name];
    forall p | p in t
      ensures PathWalk.HasParent(t, p)
    {
    }
    PathWalk.AbsoluteLink(t, [], name, target);
    assert Parent([name, file]) == [name];
  }

  // ----- a readlink that kills -----

  lemma LookedUpOther(w: World, storage: map<string, Bytes>, i: Image, p: Path)
    requires ValidIndex(w) && (i, p) in w.index && w.index[(i, p)] == Other
    ensures Step(w, Start(storage), LookupFile(i, p)) == Some(Start(storage).(files := [NodeFor(w, i, p)]))
    ensures p != [] && PathWalk.ProperPath(p)
  {
    assert BelowDir(w, i, p);
    IndexedIsProper(w, i, p);
    var f := NodeFor(w, i, p);
    assert [] + [f] == [f] && [f][0 := f] == [f];
    assert Attr(w, Start(storage).disk, f) == Done(Start(storage).disk, f, IndexAttrs(Other));
  }

  lemma StartWith(w: World, storage: map<string, Bytes>, f: FileNode)
    requires ValidIndex(w) && FileOk(w, Start(storage).disk, f)
    ensures Safe(w, Start(storage).(files := [f]))
  {
    EmptySafe(w, storage);
  }

  lemma KillsAfter(w: World, st: State, i: Image, p: Path, target: string, upper: Layer)
    requires Safe(w, st) && |st.files| > 0 && st.files[0].image == i && st.files[0].path == p
    requires (i, p) !in st.disk.work && w.index[(i, p)] == Other
    requires p in upper && upper[p] == Symlink(target)
    requires PathWalk.PlaceOf(LayerKinds(upper), p) == PathWalk.Inside(p, PathWalk.MAX_LINKS)
    ensures var r := Step(w, st, UpperChanged(i, upper));
            && r.Some? && r.value.files == st.files
            && Attr(w, r.value.disk, r.value.files[0]).Done?
            && Attr(w, r.value.disk, r.value.files[0]).reply == UpperAttrs(Symlink(target))
            && Step(w, r.value, ReadlinkFile(0)).None?
  {
    OthersSafe(w, st, UpperChanged(i, upper));
    var after := Step(w, st, UpperChanged(i, upper)).value;
    assert FileOk(w, after.disk, after.files[0]);
    ReadsEmptyTarget(w, after.disk, after.files[0], target);
  }

  lemma ReadsEmptyTarget(w: World, d: Disk, f: FileNode, target: string)
    requires Inv(w, d) && FileOk(w, d, f) && w.index[(f.image, f.path)] == Other
    requires (f.image, f.path) !in d.work && UpperAt(d, f.image, f.path) == Some(Symlink(target))
    ensures Attr(w, d, f) == Done(d, f, UpperAttrs(Symlink(target)))
    ensures Readlink(w, d, f).None?
  {
    ReadlinkIff(w, d, f);
  }

  /** A file of the image that is neither regular nor a link, replaced by a symlink
      in the mount's writable layer. Attr shows a symlink, and reading it kills
      the process. */
  lemma ReadlinkKills(w: World, storage: map<string, Bytes>, i: Image, p: Path, target: string)
    requires ValidIndex(w) && (i, p) in w.index && w.index[(i, p)] == Other
    ensures var r := LookAndChange(w, storage, i, p, Changed(p, Symlink(target)));
            && r.Some? && |r.value.files| == 1
            && Attr(w, r.value.disk, r.value.files[0]).Done?
            && Attr(w, r.value.disk, r.value.files[0]).reply == UpperAttrs(Symlink(target))
            && Step(w, r.value, ReadlinkFile(0)).None?
  {
    LookedUpOther(w, storage, i, p);
    StartWith(w, storage, NodeFor(w, i, p));
    ChangedPlace(p, Symlink(target));
    KillsAfter(w, Start(storage).(files := [NodeFor(w, i, p)]), i, p, target, Changed(p, Symlink(target)));
    RunOfTwo(w, Start(storage), LookupFile(i, p), UpperChanged(i, Changed(p, Symlink(target))));
  }
}
