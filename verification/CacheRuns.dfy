/** Whole runs of the caches, with every image of the host sharing the public
    cache and others writing meanwhile. */
module CacheRuns {
  import opened Text
  import opened Overlay
  import opened LazyCache
  import opened TemplateLinks
  import Store

  datatype State = State(disk: Disk, files: seq<FileNode>, handles: seq<Handle>)

  datatype Event =
    | LookupFile(image: Image, path: Path)
    | AttrFile(file: nat)
    | OpenFile(file: nat)
    | ReadlinkFile(file: nat)
    | PrefetchImage(image: Image, hashes: seq<string>, template: seq<(Path, string)>)
    | UpperChanged(image: Image, upper: Layer)          // a container writes, or another one mounts
    | DescriptorChanged(fd: nat, bytes: Bytes)          // a container writes to a file that is open here
    | HostChanged(host: Host)                           // beyond the directories, anything may happen
    | Stored(cid: string, bytes: Bytes)                 // a push reaches the manager

  ghost predicate AllIndexed(w: World, files: seq<FileNode>) {
    forall k :: 0 <= k < |files| ==> Indexed(w, files[k])
  }

  function AttrOn(w: World, st: State, k: nat): (r: Option<State>)
    requires AllIndexed(w, st.files) && k < |st.files|
    ensures r.Some? ==> AllIndexed(w, r.value.files)
  {
    match Attr(w, st.disk, st.files[k])
    case Done(d, f, _) => Some(st.(disk := d, files := st.files[k := f]))
    case Failed(f) => Some(st.(files := st.files[k := f]))
    case Died => None
  }

  /** The file node that a lookup makes. */
  function NodeFor(w: World, i: Image, p: Path): FileNode
    requires (i, p) in w.index
  {
    FileNode(i, p, w.index[(i, p)].Content?, "", None)
  }

  /** A lookup makes a file node of what is no directory in the index. */
  predicate MakesNode(w: World, i: Image, p: Path) {
    p != [] && (i, p) in w.index && !w.index[(i, p)].SubDir?
  }

  /** One event; None when the process dies on a failed link. */
  function Step(w: World, st: State, ev: Event): (r: Option<State>)
    requires AllIndexed(w, st.files)
    ensures r.Some? ==> AllIndexed(w, r.value.files)
  {
    match ev
    case LookupFile(i, p) =>
      if MakesNode(w, i, p) then AttrOn(w, st.(files := st.files + [NodeFor(w, i, p)]), |st.files|) else Some(st)
    case AttrFile(k) => if k < |st.files| then AttrOn(w, st, k) else Some(st)
    case OpenFile(k) =>
      if k < |st.files| then
        match Open(w, st.disk, st.files[k])
        case Done(d, f, h) => Some(State(d, st.files[k := f], st.handles + [h]))
        case Failed(f) => Some(st.(files := st.files[k := f]))
        case Died => None
      else Some(st)
    case ReadlinkFile(k) =>
      if k < |st.files| then
        match Readlink(w, st.disk, st.files[k])
        case Some(d) => Some(st.(disk := d))
        case None => None
      else Some(st)
    case PrefetchImage(i, hashes, template) => Some(st.(disk := Prefetch(w, st.disk, i, hashes, template).1))
    case UpperChanged(i, upper) => Some(st.(disk := st.disk.(upper := st.disk.upper[i := upper])))
    case DescriptorChanged(fd, bytes) =>
      if fd < |st.disk.fds| then Some(st.(disk := st.disk.(fds := st.disk.fds[fd := Some(bytes)]))) else Some(st)
    case HostChanged(host) => Some(st.(disk := st.disk.(host := host)))
    case Stored(cid, bytes) =>
      Some(st.(disk := st.disk.(storage := Store.Pushed(st.disk.storage, cid, bytes))))
  }

  ghost predicate FilesOk(w: World, d: Disk, files: seq<FileNode>) {
    forall k :: 0 <= k < |files| ==> FileOk(w, d, files[k])
  }

  ghost predicate HandlesOk(w: World, d: Disk, handles: seq<Handle>) {
    forall k :: 0 <= k < |handles| ==> HandleOk(w, d, handles[k])
  }

  ghost predicate Safe(w: World, st: State) {
    && Inv(w, st.disk)
    && FilesOk(w, st.disk, st.files)
    && HandlesOk(w, st.disk, st.handles)
  }

  /** What can be told before an event: a readlink is of a link of the index, or
      of something that gear-work has; and the entries of a template, which may
      be another image's, are harmless in their turn. */
  ghost predicate GoodEvent(w: World, st: State, ev: Event)
    requires AllIndexed(w, st.files)
  {
    match ev
    case ReadlinkFile(k) =>
      k < |st.files| ==>
        var at := (st.files[k].image, st.files[k].path);
        w.index[at].Link? || at in st.disk.work
    case PrefetchImage(i, hashes, template) => HarmlessInTurn(w, Unpacked(w, st.disk, i, hashes), i, template)
    case _ => true
  }

  /** The paths of recorded entries are made of names. */
  ghost predicate NamedEvent(ev: Event) {
    ev.PrefetchImage? ==> AllNames(ev.template)
  }

  /** Open handles stay, and so does everything cached. */
  ghost predicate Continues(st: State, st': State) {
    Grows(st.disk, st'.disk) && st.handles <= st'.handles
  }

  lemma GrownFiles(w: World, d: Disk, d': Disk, files: seq<FileNode>, handles: seq<Handle>)
    requires Grows(d, d')
    requires FilesOk(w, d, files) && HandlesOk(w, d, handles)
    ensures FilesOk(w, d', files) && HandlesOk(w, d', handles)
  {
    forall k | 0 <= k < |handles|
      ensures HandleOk(w, d', handles[k])
    {
      assert HandleOk(w, d, handles[k]);
    }
  }

  lemma AttrOnSafe(w: World, st: State, k: nat)
    requires Safe(w, st) && k < |st.files|
    ensures var r := AttrOn(w, st, k); r.Some? && Safe(w, r.value) && Continues(st, r.value)
  {
    var f := st.files[k];
    assert FileOk(w, st.disk, f);
    AttrKeeps(w, st.disk, f);
    var st' := AttrOn(w, st, k).value;
    GrownFiles(w, st.disk, st'.disk, st.files, st.handles);
  }

  lemma OpenSafe(w: World, st: State, k: nat)
    requires Safe(w, st) && k < |st.files|
    ensures var r := Step(w, st, OpenFile(k)); r.Some? && Safe(w, r.value) && Continues(st, r.value)
  {
    var f := st.files[k];
    assert FileOk(w, st.disk, f);
    OpenKeeps(w, st.disk, f);
    var st' := Step(w, st, OpenFile(k)).value;
    GrownFiles(w, st.disk, st'.disk, st.files, st.handles);
  }

  /** The caches stay right when only the store grows and others write. */
  lemma OthersKeep(w: World, d: Disk, d': Disk)
    requires Sound(w, d) && OutsideOnly(d, d')
    ensures Sound(w, d') && Grows(d, d')
    ensures Inv(w, d) <==> Inv(w, d')
  {
    forall c | c in d'.pub
      ensures CachedOk(w, d', c)
    {
      assert CachedOk(w, d, c);
    }
    forall k | k in d'.work
      ensures PublicAt(d', d'.work, k) && (NodeOk(w, d, k, d.work[k]) <==> NodeOk(w, d', k, d'.work[k]))
    {
      assert PublicAt(d, d.work, k);
    }
  }

  /** Only what others than the caches write has changed. */
  ghost predicate OutsideOnly(d: Disk, d': Disk) {
    && d' == d.(storage := d'.storage, upper := d'.upper, fds := d'.fds, host := d'.host) && |d'.fds| == |d.fds|
    && forall c :: c in d.storage ==> c in d'.storage && d'.storage[c] == d.storage[c]
  }

  ghost predicate OutsideEvent(ev: Event) {
    ev.UpperChanged? || ev.DescriptorChanged? || ev.HostChanged? || ev.Stored?
  }

  lemma OutsideStep(w: World, st: State, ev: Event)
    requires AllIndexed(w, st.files) && OutsideEvent(ev)
    ensures var r := Step(w, st, ev);
            r.Some? && r.value == st.(disk := r.value.disk) && OutsideOnly(st.disk, r.value.disk)
  {
  }

  lemma OthersSafe(w: World, st: State, ev: Event)
    requires Safe(w, st) && OutsideEvent(ev)
    ensures var r := Step(w, st, ev); r.Some? && Safe(w, r.value) && Continues(st, r.value)
  {
    var d' := Step(w, st, ev).value.disk;
    OutsideStep(w, st, ev);
    InvIsSound(w, st.disk);
    OthersKeep(w, st.disk, d');
    GrownFiles(w, st.disk, d', st.files, st.handles);
  }

  lemma LookupSafe(w: World, st: State, i: Image, p: Path)
    requires Safe(w, st)
    ensures var r := Step(w, st, LookupFile(i, p)); r.Some? && Safe(w, r.value) && Continues(st, r.value)
  {
    if MakesNode(w, i, p) {
      AttrOnSafe(w, st.(files := st.files + [NodeFor(w, i, p)]), |st.files|);
    }
  }

  /** The one event that can kill the process while the caches are right. */
  lemma ReadlinkSafe(w: World, st: State, k: nat)
    requires Safe(w, st)
    ensures var r := Step(w, st, ReadlinkFile(k));
            && (r.Some? <==> GoodEvent(w, st, ReadlinkFile(k)))
            && (r.Some? ==> Safe(w, r.value) && Continues(st, r.value))
  {
    if k < |st.files| {
      assert FileOk(w, st.disk, st.files[k]);
      ReadlinkIff(w, st.disk, st.files[k]);
      if Readlink(w, st.disk, st.files[k]).Some? {
        GrownFiles(w, st.disk, Readlink(w, st.disk, st.files[k]).value, st.files, st.handles);
      }
    }
  }

  lemma PrefetchSafe(w: World, st: State, i: Image, hashes: seq<string>, template: Template)
    requires Safe(w, st) && AllNames(template)
    ensures var ev := PrefetchImage(i, hashes, template);
            var r := Step(w, st, ev);
            && r.Some? && (Inv(w, r.value.disk) <==> GoodEvent(w, st, ev))
            && Continues(st, r.value) && (Inv(w, r.value.disk) ==> Safe(w, r.value))
  {
    PrefetchIff(w, st.disk, i, hashes, template);
    PrefetchTransfer(w, st.disk, i, hashes);
    var u := Unpacked(w, st.disk, i, hashes);
    LinkTemplateAdds(w, u, i, template);
    var d' := Prefetch(w, st.disk, i, hashes, template).1;
    AddsGrows(st.disk, u, d');
    GrownFiles(w, st.disk, d', st.files, st.handles);
  }

  lemma AddsGrows(d: Disk, d': Disk, d'': Disk)
    requires Grows(d, d') && Adds(d', d'')
    ensures Grows(d, d'')
  {
  }

  /** An event leaves everything right exactly when it is good. */
  lemma StepIff(w: World, st: State, ev: Event)
    requires Safe(w, st) && NamedEvent(ev)
    ensures var r := Step(w, st, ev);
            && ((r.Some? && Inv(w, r.value.disk)) <==> GoodEvent(w, st, ev))
            && (GoodEvent(w, st, ev) ==> Safe(w, r.value) && Continues(st, r.value))
            && (r.None? ==> ev.ReadlinkFile?)
  {
    match ev
    case LookupFile(i, p) => LookupSafe(w, st, i, p);
    case AttrFile(k) =>
      if k < |st.files| {
        AttrOnSafe(w, st, k);
      }
    case OpenFile(k) =>
      if k < |st.files| {
        OpenSafe(w, st, k);
      }
    case ReadlinkFile(k) => ReadlinkSafe(w, st, k);
    case PrefetchImage(i, hashes, template) => PrefetchSafe(w, st, i, hashes, template);
    case UpperChanged(_, _) => OthersSafe(w, st, ev);
    case DescriptorChanged(_, _) => OthersSafe(w, st, ev);
    case HostChanged(_) => OthersSafe(w, st, ev);
    case Stored(_, _) => OthersSafe(w, st, ev);
  }

  function Run(w: World, st: State, events: seq<Event>): (r: Option<State>)
    requires AllIndexed(w, st.files)
    ensures r.Some? ==> AllIndexed(w, r.value.files)
    decreases |events|
  {
    if events == [] then Some(st)
    else
      match Step(w, st, events[0])
      case Some(next) => Run(w, next, events[1..])
      case None => None
  }

  /** Each event is good when its turn comes. */
  ghost predicate GoodRun(w: World, st: State, events: seq<Event>)
    requires AllIndexed(w, st.files)
    decreases |events|
  {
    events != [] ==>
      && NamedEvent(events[0]) && GoodEvent(w, st, events[0])
      && (Step(w, st, events[0]).Some? ==> GoodRun(w, Step(w, st, events[0]).value, events[1..]))
  }

  /** A good run reaches no fatal link; every cache stays right and nothing that
      is cached moves or changes, for all images that share the public cache. */
  lemma {:induction false} RunSafe(w: World, st: State, events: seq<Event>)
    requires Safe(w, st) && GoodRun(w, st, events)
    ensures var r := Run(w, st, events); r.Some? && Safe(w, r.value) && Continues(st, r.value)
    decreases |events|
  {
    if events != [] {
      StepIff(w, st, events[0]);
      var next := Step(w, st, events[0]).value;
      RunSafe(w, next, events[1..]);
      ContinuesOn(st, next, Run(w, next, events[1..]).value);
    }
  }

  lemma ContinuesOn(a: State, b: State, c: State)
    requires Continues(a, b) && Continues(b, c)
    ensures Continues(a, c)
  {
  }

  // ----- wrong nodes stay -----

  /** A disk whose gear-work directories are empty. */
  function Bare(d: Disk): Disk {
    d.(work := map[])
  }

  lemma BareIsRight(w: World, d: Disk)
    requires Sound(w, d)
    ensures Inv(w, Bare(d))
  {
    SamePublic(w, d, Bare(d));
  }

  lemma ObtainBare(w: World, d: Disk, i: Image, cid: string)
    ensures match Obtain(w, d, i, cid)
            case Have(d', fetched) => d'.work == d.work && Obtain(w, Bare(d), i, cid) == Have(Bare(d'), fetched)
            case failure => Obtain(w, Bare(d), i, cid) == failure
  {
  }

  lemma {:induction false} UnpackBare(w: World, d: Disk, i: Image, archive: seq<(string, Bytes)>)
    ensures Unpack(w, Bare(d), i, archive) == Bare(Unpack(w, d, i, archive))
    ensures Unpack(w, d, i, archive).work == d.work
  {
    if archive != [] {
      UnpackBare(w, d, i, archive[..|archive| - 1]);
    }
  }

  /** The caches grow as they do without gear-work. */
  lemma BareGrows(w: World, d: Disk, d': Disk)
    requires Sound(w, d) && Kept(w, Bare(d), Bare(d')) && d'.work == d.work
    ensures Sound(w, d') && Grows(d, d')
  {
    SamePublic(w, Bare(d'), d');
    forall k | k in d'.work
      ensures PublicAt(d', d'.work, k)
    {
      assert PublicAt(d, d.work, k);
    }
  }

  lemma ObtainSound(w: World, d: Disk, f: FileNode)
    requires Sound(w, d) && FileOk(w, d, f) && f.regular && Obtain(w, d, f.image, CidOf(w, f)).Have?
    ensures var o := Obtain(w, d, f.image, CidOf(w, f));
            var f' := Keep(Named(w, f), o.fetched);
            && Sound(w, o.disk) && Grows(d, o.disk)
            && FileOk(w, o.disk, f') && HandleOk(w, o.disk, Handle(PrivateFile(f.image, f'.name), f'.buff))
  {
    BareIsRight(w, d);
    ObtainBare(w, d, f.image, CidOf(w, f));
    ObtainFills(w, Bare(d), f);
    BareGrows(w, d, Obtain(w, d, f.image, CidOf(w, f)).disk);
  }

  lemma UnpackedSound(w: World, d: Disk, i: Image, hashes: seq<string>)
    requires Sound(w, d)
    ensures Sound(w, Unpacked(w, d, i, hashes)) && Grows(d, Unpacked(w, d, i, hashes))
  {
    BareIsRight(w, d);
    assert Missing(Bare(d), hashes) == Missing(d, hashes) by {
      MissingBare(d, hashes);
    }
    PrefetchTransfer(w, Bare(d), i, hashes);
    UnpackBare(w, d, i, Store.Archive(d.storage, Missing(d, hashes)));
    BareGrows(w, d, Unpacked(w, d, i, hashes));
  }

  lemma {:induction false} MissingBare(d: Disk, hashes: seq<string>)
    ensures Missing(Bare(d), hashes) == Missing(d, hashes)
  {
    if hashes != [] {
      MissingBare(d, hashes[..|hashes| - 1]);
    }
  }

  lemma AddsSound(w: World, d: Disk, d': Disk, d'': Disk)
    requires Sound(w, d') && Grows(d, d') && Adds(d', d'')
    ensures Sound(w, d'') && Grows(d, d'')
  {
    AddsKeepSound(w, d', d'');
  }

  /** Obtain, then link: whatever gear-work holds, the node and the handle are right. */
  lemma ServeSound(w: World, d: Disk, f: FileNode)
    requires Sound(w, d) && FileOk(w, d, f) && f.regular && Obtain(w, d, f.image, CidOf(w, f)).Have?
    ensures var o := Obtain(w, d, f.image, CidOf(w, f));
            var f' := Keep(Named(w, f), o.fetched);
            var linked := LinkWork(o.disk, f.image, f.path, f'.name);
            linked.Some? ==>
              && Sound(w, linked.value) && Grows(d, linked.value) && FileOk(w, linked.value, f')
              && HandleOk(w, linked.value, Handle(PrivateFile(f.image, f'.name), f'.buff))
  {
    var d' := Obtain(w, d, f.image, CidOf(w, f)).disk;
    ObtainSound(w, d, f);
    LinkWorkAdds(d', f.image, f.path, CidOf(w, f));
    if LinkWork(d', f.image, f.path, CidOf(w, f)).Some? {
      AddsSound(w, d, d', LinkWork(d', f.image, f.path, CidOf(w, f)).value);
    }
  }

  lemma AttrSound(w: World, d: Disk, f: FileNode)
    requires Sound(w, d) && FileOk(w, d, f)
    ensures var r := Attr(w, d, f);
            && (r.Done? ==> Sound(w, r.disk) && Grows(d, r.disk) && FileOk(w, r.disk, r.file))
            && (r.Failed? ==> FileOk(w, d, r.file))
  {
    if !InUpper(d, f.image, f.path) && f.regular && Obtain(w, d, f.image, CidOf(w, f)).Have? {
      ServeSound(w, d, f);
    }
  }

  lemma OpenSound(w: World, d: Disk, f: FileNode)
    requires Sound(w, d) && FileOk(w, d, f)
    ensures var r := Open(w, d, f);
            && (r.Done? ==> Sound(w, r.disk) && Grows(d, r.disk) && FileOk(w, r.disk, r.file)
                            && HandleOk(w, r.disk, r.reply))
            && (r.Failed? ==> FileOk(w, d, r.file))
  {
    if InUpper(d, f.image, f.path) {
      OpenedSound(w, d, ContentIn(UpperAt(d, f.image, f.path).value));
    } else if f.regular && Obtain(w, d, f.image, CidOf(w, f)).Have? {
      ServeSound(w, d, f);
    }
  }

  lemma OpenedSound(w: World, d: Disk, content: Option<Bytes>)
    requires Sound(w, d)
    ensures Sound(w, d.(fds := d.fds + [content])) && Grows(d, d.(fds := d.fds + [content]))
  {
    SamePublic(w, d, d.(fds := d.fds + [content]));
    forall k | k in d.work
      ensures PublicAt(d.(fds := d.fds + [content]), d.work, k)
    {
      assert PublicAt(d, d.work, k);
    }
  }

  lemma ReadlinkSound(w: World, d: Disk, f: FileNode)
    requires Sound(w, d) && Indexed(w, f) && Readlink(w, d, f).Some?
    ensures Sound(w, Readlink(w, d, f).value) && Grows(d, Readlink(w, d, f).value)
  {
    if !InWork(d, f.image, f.path) {
      PutBelowAdds(d, f.image, f.path, Soft(w.index[(f.image, f.path)].target));
      AddsSound(w, d, d, Readlink(w, d, f).value);
    }
  }

  lemma PrefetchSound(w: World, d: Disk, i: Image, hashes: seq<string>, template: Template)
    requires Sound(w, d)
    ensures Sound(w, Prefetch(w, d, i, hashes, template).1) && Grows(d, Prefetch(w, d, i, hashes, template).1)
  {
    UnpackedSound(w, d, i, hashes);
    LinkTemplateAdds(w, Unpacked(w, d, i, hashes), i, template);
    AddsSound(w, d, Unpacked(w, d, i, hashes), Prefetch(w, d, i, hashes, template).1);
  }

  /** Everything is right but, perhaps, gear-work. */
  ghost predicate Steady(w: World, st: State) {
    Sound(w, st.disk) && FilesOk(w, st.disk, st.files) && HandlesOk(w, st.disk, st.handles)
  }

  lemma SafeIsSteady(w: World, st: State)
    requires Safe(w, st)
    ensures Steady(w, st)
  {
    InvIsSound(w, st.disk);
  }

  lemma DiskSteady(w: World, st: State, d: Disk)
    requires Steady(w, st) && Sound(w, d) && Grows(st.disk, d)
    ensures Steady(w, st.(disk := d)) && Continues(st, st.(disk := d))
  {
    GrownFiles(w, st.disk, d, st.files, st.handles);
  }

  lemma AttrOnSteady(w: World, st: State, k: nat)
    requires Steady(w, st) && k < |st.files|
    ensures var r := AttrOn(w, st, k); r.Some? ==> Steady(w, r.value) && Continues(st, r.value)
  {
    assert FileOk(w, st.disk, st.files[k]);
    AttrSound(w, st.disk, st.files[k]);
    if Attr(w, st.disk, st.files[k]).Done? {
      DiskSteady(w, st, Attr(w, st.disk, st.files[k]).disk);
    }
  }

  lemma OpenSteady(w: World, st: State, k: nat)
    requires Steady(w, st)
    ensures var r := Step(w, st, OpenFile(k)); r.Some? ==> Steady(w, r.value) && Continues(st, r.value)
  {
    if k < |st.files| {
      assert FileOk(w, st.disk, st.files[k]);
      OpenSound(w, st.disk, st.files[k]);
      if Open(w, st.disk, st.files[k]).Done? {
        DiskSteady(w, st, Open(w, st.disk, st.files[k]).disk);
      }
    }
  }

  lemma OutsideSteady(w: World, st: State, ev: Event)
    requires Steady(w, st) && OutsideEvent(ev)
    ensures var r := Step(w, st, ev); r.Some? && Steady(w, r.value) && Continues(st, r.value)
  {
    OutsideStep(w, st, ev);
    OthersKeep(w, st.disk, Step(w, st, ev).value.disk);
    DiskSteady(w, st, Step(w, st, ev).value.disk);
  }

  /** Whatever is in gear-work, an event keeps the rest right and moves nothing. */
  lemma StepSteady(w: World, st: State, ev: Event)
    requires Steady(w, st)
    ensures var r := Step(w, st, ev); r.Some? ==> Steady(w, r.value) && Continues(st, r.value)
  {
    match ev
    case LookupFile(i, p) =>
      if MakesNode(w, i, p) {
        AttrOnSteady(w, st.(files := st.files + [NodeFor(w, i, p)]), |st.files|);
      }
    case AttrFile(k) =>
      if k < |st.files| {
        AttrOnSteady(w, st, k);
      }
    case OpenFile(k) => OpenSteady(w, st, k);
    case ReadlinkFile(k) =>
      if k < |st.files| && Readlink(w, st.disk, st.files[k]).Some? {
        ReadlinkSound(w, st.disk, st.files[k]);
        DiskSteady(w, st, Readlink(w, st.disk, st.files[k]).value);
      }
    case PrefetchImage(i, hashes, template) =>
      PrefetchSound(w, st.disk, i, hashes, template);
      DiskSteady(w, st, Prefetch(w, st.disk, i, hashes, template).1);
    case UpperChanged(_, _) => OutsideSteady(w, st, ev);
    case DescriptorChanged(_, _) => OutsideSteady(w, st, ev);
    case HostChanged(_) => OutsideSteady(w, st, ev);
    case Stored(_, _) => OutsideSteady(w, st, ev);
  }

  /** In every run that survives, wrong templates and all, the public and private
      caches, the file nodes and the handles stay right, gear-work stays a tree
      of links to the public cache, and nothing that is cached moves. */
  lemma {:induction false} RunSteady(w: World, st: State, events: seq<Event>)
    requires Steady(w, st)
    ensures var r := Run(w, st, events); r.Some? ==> Steady(w, r.value) && Continues(st, r.value)
    decreases |events|
  {
    if events != [] {
      StepSteady(w, st, events[0]);
      if Step(w, st, events[0]).Some? {
        var next := Step(w, st, events[0]).value;
        RunSteady(w, next, events[1..]);
        if Run(w, next, events[1..]).Some? {
          ContinuesOn(st, next, Run(w, next, events[1..]).value);
        }
      }
    }
  }

  /** Once a wrong node is in gear-work, no run makes it right again. */
  lemma {:induction false} WrongForGood(w: World, st: State, events: seq<Event>)
    requires Steady(w, st) && !Inv(w, st.disk)
    ensures Run(w, st, events).Some? ==> !Inv(w, Run(w, st, events).value.disk)
    decreases |events|
  {
    if events != [] && Step(w, st, events[0]).Some? {
      var next := Step(w, st, events[0]).value;
      StepSteady(w, st, events[0]);
      WrongNodeStays(w, st.disk, next.disk);
      WrongForGood(w, next, events[1..]);
    }
  }

  /** A run over all images survives and ends with every cache right exactly
      when each event is good in its turn: no readlink of a file that is a link
      only in the mount's writable layer before gear-work has the file, and no
      template entry that does harm where it lands. */
  lemma {:induction false} RunIff(w: World, st: State, events: seq<Event>)
    requires Safe(w, st) && forall ev :: ev in events ==> NamedEvent(ev)
    ensures (Run(w, st, events).Some? && Inv(w, Run(w, st, events).value.disk)) <==> GoodRun(w, st, events)
    decreases |events|
  {
    if events != [] {
      assert events[0] in events;
      StepIff(w, st, events[0]);
      if Step(w, st, events[0]).Some? {
        var next := Step(w, st, events[0]).value;
        if GoodEvent(w, st, events[0]) {
          RunIff(w, next, events[1..]);
        } else {
          SafeIsSteady(w, st);
          StepSteady(w, st, events[0]);
          WrongForGood(w, next, events[1..]);
        }
      }
    }
  }

  /** The empty caches a host starts with. */
  function Start(storage: map<string, Bytes>): State {
    State(Disk(storage, map[], map[], map[], map[], [], map[], 0, Host(map[], {}, {}, {})), [], [])
  }

  lemma EmptySafe(w: World, storage: map<string, Bytes>)
    requires ValidIndex(w)
    ensures Safe(w, Start(storage))
  {
  }

  /** From empty caches, any handle of a cached file that any run has opened
      reads the stored content of its cid after any further run. */
  lemma HandlesReadStored(w: World, storage: map<string, Bytes>, before: seq<Event>, after: seq<Event>, k: nat)
    requires ValidIndex(w) && Run(w, Start(storage), before).Some?
    requires Run(w, Run(w, Start(storage), before).value, after).Some?
    ensures var mid := Run(w, Start(storage), before).value;
            var later := Run(w, mid, after).value;
            k < |mid.handles| && mid.handles[k].source.PrivateFile? ==>
              var cid := mid.handles[k].source.cid;
              && k < |later.handles| && later.handles[k] == mid.handles[k]
              && cid in mid.disk.storage
              && ReadAll(later.disk, later.handles[k]) == Some(w.dec(mid.disk.storage[cid]))
  {
    EmptySafe(w, storage);
    SafeIsSteady(w, Start(storage));
    RunSteady(w, Start(storage), before);
    var mid := Run(w, Start(storage), before).value;
    RunSteady(w, mid, after);
    var later := Run(w, mid, after).value;
    if k < |mid.handles| && mid.handles[k].source.PrivateFile? {
      var h := mid.handles[k];
      assert HandleOk(w, mid.disk, h);
      assert later.handles[k] == h && HandleOk(w, later.disk, h);
      ReadsStored(w, later.disk, h);
    }
  }

  // ----- open descriptors -----

  ghost predicate WritesTo(ev: Event, fd: nat) {
    ev.DescriptorChanged? && ev.fd == fd
  }

  ghost predicate FdStays(d: Disk, d': Disk, fd: nat) {
    fd < |d.fds| ==> fd < |d'.fds| && d'.fds[fd] == d.fds[fd]
  }

  /** What the caches themselves never change. */
  ghost predicate Leaves(d: Disk, d': Disk) {
    d'.storage == d.storage && d'.upper == d.upper && d'.host == d.host && d.fds <= d'.fds
  }

  lemma FileLeaves(w: World, d: Disk, f: FileNode)
    requires WorkClosed(d.work) && Indexed(w, f)
    ensures Attr(w, d, f).Done? ==> Leaves(d, Attr(w, d, f).disk)
    ensures Open(w, d, f).Done? ==> Leaves(d, Open(w, d, f).disk)
  {
    if !InUpper(d, f.image, f.path) && f.regular && Obtain(w, d, f.image, CidOf(w, f)).Have? {
      ServedLeaves(w, d, f.image, f.path, CidOf(w, f));
    }
  }

  lemma ObtainLeaves(w: World, d: Disk, i: Image, cid: string)
    requires Obtain(w, d, i, cid).Have?
    ensures var d' := Obtain(w, d, i, cid).disk; Leaves(d, d') && d'.work == d.work
  {
  }

  lemma AddsLeaves(d: Disk, d': Disk, d'': Disk)
    requires Leaves(d, d') && Adds(d', d'')
    ensures Leaves(d, d'')
  {
  }

  lemma ServedLeaves(w: World, d: Disk, i: Image, p: Path, cid: string)
    requires WorkClosed(d.work) && p != [] && Obtain(w, d, i, cid).Have?
    ensures var linked := LinkWork(Obtain(w, d, i, cid).disk, i, p, cid);
            linked.Some? ==> Leaves(d, linked.value)
  {
    var d' := Obtain(w, d, i, cid).disk;
    ObtainLeaves(w, d, i, cid);
    LinkWorkAdds(d', i, p, cid);
    if LinkWork(d', i, p, cid).Some? {
      AddsLeaves(d, d', LinkWork(d', i, p, cid).value);
    }
  }

  lemma {:induction false} UnpackLeaves(w: World, d: Disk, i: Image, archive: seq<(string, Bytes)>)
    ensures Leaves(d, Unpack(w, d, i, archive)) && Unpack(w, d, i, archive).fds == d.fds
  {
    if archive != [] {
      UnpackLeaves(w, d, i, archive[..|archive| - 1]);
    }
  }

  lemma PrefetchLeaves(w: World, d: Disk, i: Image, hashes: seq<string>, template: Template)
    requires Sound(w, d)
    ensures Leaves(d, Prefetch(w, d, i, hashes, template).1)
  {
    UnpackedSound(w, d, i, hashes);
    UnpackLeaves(w, d, i, Store.Archive(d.storage, Missing(d, hashes)));
    LinkTemplateAdds(w, Unpacked(w, d, i, hashes), i, template);
  }

  lemma CacheStep(w: World, st: State, ev: Event)
    requires Steady(w, st) && !OutsideEvent(ev)
    ensures Step(w, st, ev).Some? ==> Leaves(st.disk, Step(w, st, ev).value.disk)
  {
    match ev
    case LookupFile(i, p) =>
      if MakesNode(w, i, p) {
        FileLeaves(w, st.disk, NodeFor(w, i, p));
      }
    case AttrFile(k) =>
      if k < |st.files| {
        FileLeaves(w, st.disk, st.files[k]);
      }
    case OpenFile(k) =>
      if k < |st.files| {
        FileLeaves(w, st.disk, st.files[k]);
      }
    case ReadlinkFile(k) =>
      if k < |st.files| && w.index[(st.files[k].image, st.files[k].path)].Link? {
        PutBelowAdds(st.disk, st.files[k].image, st.files[k].path,
                     Soft(w.index[(st.files[k].image, st.files[k].path)].target));
      }
    case PrefetchImage(i, hashes, template) => PrefetchLeaves(w, st.disk, i, hashes, template);
  }

  lemma DescriptorStep(w: World, st: State, ev: Event, fd: nat)
    requires Steady(w, st) && !WritesTo(ev, fd)
    ensures Step(w, st, ev).Some? ==> FdStays(st.disk, Step(w, st, ev).value.disk, fd)
  {
    if !OutsideEvent(ev) {
      CacheStep(w, st, ev);
    }
  }

  lemma {:induction false} DescriptorStays(w: World, st: State, events: seq<Event>, fd: nat)
    requires Steady(w, st) && forall ev :: ev in events ==> !WritesTo(ev, fd)
    ensures Run(w, st, events).Some? ==> FdStays(st.disk, Run(w, st, events).value.disk, fd)
    decreases |events|
  {
    if events != [] && Step(w, st, events[0]).Some? {
      assert events[0] in events;
      StepSteady(w, st, events[0]);
      DescriptorStep(w, st, events[0], fd);
      DescriptorStays(w, Step(w, st, events[0]).value, events[1..], fd);
    }
  }

  /** A file opened in the mount's writable layer reads as it was at the open,
      until someone writes to that very file: what happens to its path, or to
      the whole layer, makes no difference. */
  lemma UpperHandleReads(w: World, st: State, k: nat, events: seq<Event>)
    requires Steady(w, st) && k < |st.files| && InUpper(st.disk, st.files[k].image, st.files[k].path)
    requires forall ev :: ev in events ==> !WritesTo(ev, |st.disk.fds|)
    ensures var entry := UpperAt(st.disk, st.files[k].image, st.files[k].path).value;
            var started := Step(w, st, OpenFile(k));
            started.Some? && |started.value.handles| == |st.handles| + 1 &&
            var later := Run(w, started.value, events);
            later.Some? ==>
              && |later.value.handles| > |st.handles|
              && ReadAll(later.value.disk, later.value.handles[|st.handles|])
                 == if entry.File? then Some(entry.content) else None
  {
    OpenSteady(w, st, k);
    var started := Step(w, st, OpenFile(k)).value;
    RunSteady(w, started, events);
    DescriptorStays(w, started, events, |st.disk.fds|);
  }

  // ----- what others do -----

  /** What an event of others leaves behind. */
  ghost predicate Shows(d: Disk, ev: Event) {
    match ev
    case UpperChanged(i, upper) => i in d.upper && d.upper[i] == upper
    case DescriptorChanged(fd, bytes) => ReadAll(d, Handle(UpperFile(fd), None)) == Some(bytes)
    case HostChanged(host) => d.host == host
    case Stored(cid, bytes) => cid in d.storage && d.storage[cid] == bytes
    case _ => true
  }

  /** A later event that writes the same. */
  ghost predicate Overwrites(later: Event, ev: Event) {
    match ev
    case UpperChanged(i, _) => later.UpperChanged? && later.image == i
    case DescriptorChanged(fd, _) => WritesTo(later, fd)
    case HostChanged(_) => later.HostChanged?
    case _ => false
  }

  lemma ShowsLeft(d: Disk, d': Disk, ev: Event)
    requires Leaves(d, d') && Shows(d, ev)
    ensures Shows(d', ev)
  {
  }

  lemma ShowsBeside(w: World, st: State, ev: Event, next: Event)
    requires AllIndexed(w, st.files) && OutsideEvent(next) && Shows(st.disk, ev) && !Overwrites(next, ev)
    ensures Step(w, st, next).Some? ==> Shows(Step(w, st, next).value.disk, ev)
  {
    match next
    case UpperChanged(_, _) =>
    case DescriptorChanged(_, _) =>
    case HostChanged(_) =>
    case Stored(_, _) =>
  }

  lemma ShowsOn(w: World, st: State, ev: Event, next: Event)
    requires Steady(w, st) && Shows(st.disk, ev) && !Overwrites(next, ev)
    ensures Step(w, st, next).Some? ==> Shows(Step(w, st, next).value.disk, ev)
  {
    if OutsideEvent(next) {
      ShowsBeside(w, st, ev, next);
    } else if Step(w, st, next).Some? {
      CacheStep(w, st, next);
      ShowsLeft(st.disk, Step(w, st, next).value.disk, ev);
    }
  }

  lemma {:induction false} ShowsAfter(w: World, st: State, ev: Event, events: seq<Event>)
    requires Steady(w, st) && Shows(st.disk, ev) && forall later :: later in events ==> !Overwrites(later, ev)
    ensures Run(w, st, events).Some? ==> Shows(Run(w, st, events).value.disk, ev)
    decreases |events|
  {
    if events != [] && Step(w, st, events[0]).Some? {
      assert events[0] in events;
      ShowsOn(w, st, ev, events[0]);
      StepSteady(w, st, events[0]);
      ShowsAfter(w, Step(w, st, events[0]).value, ev, events[1..]);
    }
  }

  /** What a container last wrote to a file that is open, and the layer that was
      last mounted or written, are what the mount finds until someone writes
      them again, whatever else happens; the first push of a cid counts for good. */
  lemma LastChangeCounts(w: World, st: State, ev: Event, events: seq<Event>)
    requires Steady(w, st) && OutsideEvent(ev)
    requires ev.DescriptorChanged? ==> ev.fd < |st.disk.fds|
    requires ev.Stored? ==> ev.cid !in st.disk.storage
    requires forall later :: later in events ==> !Overwrites(later, ev)
    ensures Step(w, st, ev).Some?
    ensures var r := Run(w, Step(w, st, ev).value, events); r.Some? ==> Shows(r.value.disk, ev)
  {
    OutsideSteady(w, st, ev);
    ShowsAfter(w, Step(w, st, ev).value, ev, events);
  }

  ghost predicate StoredIn(events: seq<Event>, cid: string) {
    exists bytes :: Stored(cid, bytes) in events
  }

  lemma StoredFirst(events: seq<Event>, cid: string)
    requires events != []
    ensures StoredIn(events, cid) <==> (events[0].Stored? && events[0].cid == cid) || StoredIn(events[1..], cid)
  {
    assert events == [events[0]] + events[1..];
    if events[0].Stored? && events[0].cid == cid {
      assert Stored(cid, events[0].bytes) in events;
    }
    if bytes :| Stored(cid, bytes) in events[1..] {
      assert Stored(cid, bytes) in events;
    }
  }

  lemma StoreStep(w: World, st: State, ev: Event, cid: string)
    requires Steady(w, st) && Step(w, st, ev).Some?
    ensures cid in Step(w, st, ev).value.disk.storage <==>
            cid in st.disk.storage || (ev.Stored? && ev.cid == cid)
  {
    if !OutsideEvent(ev) {
      CacheStep(w, st, ev);
    }
  }

  lemma {:induction false} StoreAfter(w: World, st: State, events: seq<Event>, cid: string)
    requires Steady(w, st) && Run(w, st, events).Some?
    ensures cid in Run(w, st, events).value.disk.storage <==> cid in st.disk.storage || StoredIn(events, cid)
    decreases |events|
  {
    if events != [] {
      StoredFirst(events, cid);
      StoreStep(w, st, events[0], cid);
      StepSteady(w, st, events[0]);
      StoreAfter(w, Step(w, st, events[0]).value, events[1..], cid);
    }
  }

  /** After a good run a file without a copy can be served exactly when its cid
      was stored before the run or pushed in it. */
  lemma ServedIff(w: World, st: State, events: seq<Event>, f: FileNode)
    requires Safe(w, st) && GoodRun(w, st, events) && FileOk(w, st.disk, f) && f.regular
    requires Run(w, st, events).Some? && !InUpper(Run(w, st, events).value.disk, f.image, f.path)
    ensures Attr(w, Run(w, st, events).value.disk, f).Done? <==>
            CidOf(w, f) in st.disk.storage || StoredIn(events, CidOf(w, f))
  {
    RunSafe(w, st, events);
    SafeIsSteady(w, st);
    StoreAfter(w, st, events, CidOf(w, f));
    OneInode(w, Run(w, st, events).value.disk, f);
  }

  /** What an event of the mount itself has brought into the caches. */
  ghost predicate Brought(w: World, st: State, ev: Event, d: Disk)
    requires AllIndexed(w, st.files)
  {
    match ev
    case LookupFile(i, p) =>
      MakesNode(w, i, p) ==> Served(w, st.disk, NodeFor(w, i, p), d)
    case AttrFile(k) => k < |st.files| ==> Served(w, st.disk, st.files[k], d)
    case OpenFile(k) => k < |st.files| ==> Served(w, st.disk, st.files[k], d)
    case ReadlinkFile(k) => k < |st.files| ==> (st.files[k].image, st.files[k].path) in d.work
    case PrefetchImage(i, hashes, template) =>
      && (forall c :: c in hashes && c in st.disk.storage ==> c in d.pub)
      && (AllOwn(w, i, template) ==>
            forall e :: e in template && e.1 in hashes && e.1 in st.disk.storage ==> (i, e.0) in d.work)
    case _ => true
  }

  ghost predicate Served(w: World, before: Disk, f: FileNode, d: Disk)
    requires Indexed(w, f)
  {
    f.regular && !InUpper(before, f.image, f.path) && CidOf(w, f) in before.storage ==> SharesInode(w, d, f)
  }

  lemma BroughtStays(w: World, st: State, ev: Event, d: Disk, d': Disk)
    requires AllIndexed(w, st.files) && Brought(w, st, ev, d) && Grows(d, d')
    ensures Brought(w, st, ev, d')
  {
  }

  lemma BroughtNow(w: World, st: State, ev: Event)
    requires Safe(w, st) && NamedEvent(ev) && GoodEvent(w, st, ev) && Step(w, st, ev).Some?
    ensures Brought(w, st, ev, Step(w, st, ev).value.disk)
  {
    match ev
    case LookupFile(i, p) =>
      if MakesNode(w, i, p) && w.index[(i, p)].Content? && !InUpper(st.disk, i, p) {
        OneInode(w, st.disk, NodeFor(w, i, p));
      }
    case AttrFile(k) => OneInodeOf(w, st, k);
    case OpenFile(k) => OneInodeOf(w, st, k);
    case ReadlinkFile(k) =>
      if k < |st.files| {
        ReadlinkIff(w, st.disk, st.files[k]);
      }
    case PrefetchImage(i, hashes, template) =>
      PrefetchTransfer(w, st.disk, i, hashes);
      LinkTemplateAdds(w, Unpacked(w, st.disk, i, hashes), i, template);
      if AllOwn(w, i, template) {
        LinkTemplateKeeps(w, Unpacked(w, st.disk, i, hashes), i, template);
      }
    case _ =>
  }

  lemma OneInodeOf(w: World, st: State, k: nat)
    requires Safe(w, st)
    ensures k < |st.files| && st.files[k].regular && !InUpper(st.disk, st.files[k].image, st.files[k].path) ==>
              var f := st.files[k];
              && (Attr(w, st.disk, f).Done? ==> SharesInode(w, Attr(w, st.disk, f).disk, f))
              && (Open(w, st.disk, f).Done? ==> SharesInode(w, Open(w, st.disk, f).disk, f))
              && (CidOf(w, f) in st.disk.storage ==> Attr(w, st.disk, f).Done? && Open(w, st.disk, f).Done?)
  {
    if k < |st.files| && st.files[k].regular && !InUpper(st.disk, st.files[k].image, st.files[k].path) {
      assert FileOk(w, st.disk, st.files[k]);
      OneInode(w, st.disk, st.files[k]);
    }
  }

  /** And it stays there, whatever follows: a stored file that was looked up,
      asked for or opened is one inode in all three caches, a link that was read
      is in gear-work, and what was prefetched is public and linked. */
  lemma BroughtForGood(w: World, st: State, ev: Event, events: seq<Event>)
    requires Safe(w, st) && GoodRun(w, st, [ev]) && Step(w, st, ev).Some?
    ensures var r := Run(w, Step(w, st, ev).value, events); r.Some? ==> Brought(w, st, ev, r.value.disk)
  {
    assert [ev][0] == ev;
    StepIff(w, st, ev);
    BroughtNow(w, st, ev);
    var next := Step(w, st, ev).value;
    SafeIsSteady(w, next);
    RunSteady(w, next, events);
    if Run(w, next, events).Some? {
      BroughtStays(w, st, ev, next.disk, Run(w, next, events).value.disk);
    }
  }
}
