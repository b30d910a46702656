/** The lazily filled caches behind one mounted image: the manager's storage,
    the public cache, the private cache of each image, the `gear-work`
    directory, and the file nodes and handles of the FUSE layer. Cache entries
    are hard links, so a name maps to an inode and an inode to its bytes. */
module LazyCache {
  import opened Text
  import opened Overlay
  import opened Store
  import PathWalk

  type Image = string

  /** What the index tree of an image holds: a regular file holds a cid. */
  datatype Stub = Content(cid: string) | SubDir | Link(target: string) | Other

  datatype World = World(index: map<(Image, Path), Stub>, dec: Bytes -> Bytes)

  datatype Node = Hard(inode: nat) | Folder | Soft(target: string)

  /** What paths find that leave a directory through a symlink. */
  datatype Host = Host(
    copies: map<(Image, Path), Entry>,  // beyond the mount's writable layer
    names: set<(Image, Path)>,          // beyond gear-work
    makes: set<(Image, Path)>,          // what can be made beyond gear-work
    sources: set<(Image, Path)>)        // beyond the index

  datatype Disk = Disk(
    storage: map<string, Bytes>,        // the manager's store, by cid
    pub: map<string, nat>,              // public cache, by cid
    priv: map<(Image, string), nat>,    // private caches, by image and cid
    work: map<(Image, Path), Node>,     // gear-work directories
    upper: map<Image, Layer>,           // writable layer named by each mount
    fds: seq<Option<Bytes>>,            // what descriptors opened there read now
    data: map<nat, Bytes>,              // inode contents
    next: nat,                          // next unused inode
    host: Host)

  /** An index is a tree: every path has its parent directory; asked for one
      path at a time. */
  ghost predicate ValidIndex(w: World) {
    forall i, p {:trigger BelowDir(w, i, p)} :: (i, p) in w.index ==> BelowDir(w, i, p)
  }

  ghost predicate BelowDir(w: World, i: Image, p: Path) {
    p != [] && PathWalk.Proper(p[|p| - 1]) && (|p| > 1 ==> IsSubDir(w, i, Parent(p)))
  }

  ghost predicate IsSubDir(w: World, i: Image, p: Path) {
    (i, p) in w.index && w.index[(i, p)].SubDir?
  }

  function Parent(p: Path): Path
    requires p != []
  {
    p[..|p| - 1]
  }

  // ----- steps on the disk -----

  /** Create, copy and close: an existing name keeps its inode and is truncated. */
  function Publish(d: Disk, cid: string, bytes: Bytes): Disk {
    if cid in d.pub then d.(data := d.data[d.pub[cid] := bytes])
    else d.(pub := d.pub[cid := d.next], data := d.data[d.next := bytes], next := d.next + 1)
  }

  /** Hard link public -> private; None is the fatal branch. */
  function LinkPrivate(d: Disk, i: Image, cid: string): Option<Disk> {
    if (i, cid) in d.priv then Some(d)
    else if cid in d.pub then Some(d.(priv := d.priv[(i, cid) := d.pub[cid]]))
    else None
  }

  function Ancestors(p: Path): set<Path> {
    set n | 0 < n < |p| :: p[..n]
  }

  // ----- gear-work as the file system sees it -----

  function NodeKind(node: Node): PathWalk.Kind {
    match node
    case Hard(_) => PathWalk.IsFile
    case Folder => PathWalk.IsDir
    case Soft(target) => PathWalk.IsLink(target)
  }

  function WorkKinds(work: map<(Image, Path), Node>, i: Image): PathWalk.Tree {
    map k | k in work && k.0 == i :: k.1 := NodeKind(work[k])
  }

  /** Where a name below gear-work is, symlinks on the way followed. */
  function WorkPlace(d: Disk, i: Image, p: Path): PathWalk.Place
    requires p != []
  {
    PathWalk.PlaceOf(WorkKinds(d.work, i), p)
  }

  /** `os.Lstat` finds the name. */
  predicate InWork(d: Disk, i: Image, p: Path)
    requires p != []
  {
    match WorkPlace(d, i, p)
    case Inside(r, _) => (i, r) in d.work
    case Outside => (i, p) in d.host.names
    case Broken => false
  }

  function AddNode(d: Disk, i: Image, r: Path, node: Node): Disk {
    d.(work := d.work[(i, r) := node])
  }

  /** `os.Mkdir`. */
  function Mkdir(d: Disk, i: Image, p: Path): (bool, Disk)
    requires p != []
  {
    match WorkPlace(d, i, p)
    case Inside(r, _) => if (i, r) in d.work then (false, d) else (true, AddNode(d, i, r, Folder))
    case Outside => ((i, p) in d.host.makes, d)
    case Broken => (false, d)
  }

  /** `os.MkdirAll`: nothing to do at a directory, else the parent first. */
  function MkdirAll(d: Disk, i: Image, p: Path): (bool, Disk)
    decreases |p|
  {
    if p == [] then (true, d)
    else
      match PathWalk.Follow(WorkKinds(d.work, i), p)
      case Inside(_, _) => (true, d)
      case Outside => ((i, p) in d.host.names, d)
      case Broken =>
        var (ok, d') := MkdirAll(d, i, Parent(p));
        if ok then Mkdir(d', i, p) else (false, d')
  }

  /** Missing directories are made; a failure is only logged. */
  function WithParents(d: Disk, i: Image, p: Path): Disk {
    if |p| > 1 && !InWork(d, i, Parent(p)) then MkdirAll(d, i, Parent(p)).1 else d
  }

  /** `os.Link` or `os.Symlink` of a new name; one that exists is tolerated. */
  function PutNode(d: Disk, i: Image, p: Path, node: Node): Option<Disk>
    requires p != []
  {
    match WorkPlace(d, i, p)
    case Inside(r, _) => Some(if (i, r) in d.work then d else AddNode(d, i, r, node))
    case Outside => if (i, p) in d.host.makes then Some(d) else None
    case Broken => None
  }

  /** Hard link public -> gear-work; None is the fatal branch. */
  function LinkWork(d: Disk, i: Image, p: Path, cid: string): Option<Disk>
    requires p != []
  {
    if InWork(d, i, p) then Some(d)
    else
      var made := WithParents(d, i, p);
      if cid in made.pub then PutNode(made, i, p, Hard(made.pub[cid])) else None
  }

  datatype Obtained = Have(disk: Disk, fetched: Option<Bytes>) | NoReply | Fatal

  /** Private cache, then public cache, then the manager. */
  function Obtain(w: World, d: Disk, i: Image, cid: string): Obtained {
    if (i, cid) in d.priv then Have(d, None)
    else if cid in d.pub then
      match LinkPrivate(d, i, cid)
      case Some(d') => Have(d', None)
      case None => Fatal
    else if cid !in d.storage then NoReply
    else
      var bytes := w.dec(d.storage[cid]);
      match LinkPrivate(Publish(d, cid, bytes), i, cid)
      case Some(d') => Have(d', Some(bytes))
      case None => Fatal
  }

  // ----- file nodes and handles -----

  datatype FileNode = FileNode(image: Image, path: Path, regular: bool, name: string, buff: Option<Bytes>)

  datatype Source = PrivateFile(image: Image, cid: string) | UpperFile(fd: nat) | IndexFile(stub: Stub)

  datatype Handle = Handle(source: Source, buff: Option<Bytes>)

  datatype Attrs = Size(bytes: nat) | UpperAttrs(entry: Entry) | IndexAttrs(stub: Stub)

  datatype Outcome<+T> = Done(disk: Disk, file: FileNode, reply: T) | Failed(file: FileNode) | Died

  function EntryKind(e: Entry): PathWalk.Kind {
    match e
    case Dir(_) => PathWalk.IsDir
    case Symlink(target) => PathWalk.IsLink(target)
    case _ => PathWalk.IsFile
  }

  function LayerKinds(layer: Layer): PathWalk.Tree {
    map p | p in layer :: EntryKind(layer[p])
  }

  /** What `os.Lstat` finds at a path of the mount's writable layer; symlinked
      directories on the way are followed, within the layer or out of it. */
  function UpperAt(d: Disk, i: Image, p: Path): Option<Entry> {
    if i !in d.upper || p == [] then None
    else
      match PathWalk.PlaceOf(LayerKinds(d.upper[i]), p)
      case Inside(r, _) => if r in d.upper[i] then Some(d.upper[i][r]) else None
      case Outside => if (i, p) in d.host.copies then Some(d.host.copies[(i, p)]) else None
      case Broken => None
  }

  predicate InUpper(d: Disk, i: Image, p: Path) {
    UpperAt(d, i, p).Some?
  }

  /** A file node is made by a lookup that found a non-directory in the index. */
  predicate Indexed(w: World, f: FileNode) {
    && f.path != []
    && (f.image, f.path) in w.index
    && !w.index[(f.image, f.path)].SubDir?
    && f.regular == w.index[(f.image, f.path)].Content?
  }

  function CidOf(w: World, f: FileNode): string
    requires Indexed(w, f) && f.regular
  {
    w.index[(f.image, f.path)].cid
  }

  function Named(w: World, f: FileNode): FileNode
    requires Indexed(w, f) && f.regular
  {
    f.(name := CidOf(w, f))
  }

  function Keep(f: FileNode, fetched: Option<Bytes>): FileNode {
    if fetched.Some? then f.(buff := fetched) else f
  }

  /** The cached file is in place: link it into gear-work and answer. */
  function Finish<T>(d: Disk, f: FileNode, reply: T): Outcome<T>
    requires f.path != []
  {
    match LinkWork(d, f.image, f.path, f.name)
    case Some(d') => Done(d', f, reply)
    case None => Died
  }

  function SizeOf(d: Disk, i: Image, cid: string): nat {
    if (i, cid) in d.priv && d.priv[(i, cid)] in d.data then |d.data[d.priv[(i, cid)]]| else 0
  }

  function Attr(w: World, d: Disk, f: FileNode): Outcome<Attrs>
    requires Indexed(w, f)
  {
    if InUpper(d, f.image, f.path) then Done(d, f, UpperAttrs(UpperAt(d, f.image, f.path).value))
    else if !f.regular then Done(d, f, IndexAttrs(w.index[(f.image, f.path)]))
    else
      match Obtain(w, d, f.image, CidOf(w, f))
      case NoReply => Failed(Named(w, f))
      case Fatal => Died
      case Have(d', fetched) =>
        Finish(d', Keep(Named(w, f), fetched), Size(SizeOf(d', f.image, CidOf(w, f))))
  }

  /** What a descriptor opened on an entry reads. */
  function ContentIn(e: Entry): Option<Bytes> {
    if e.File? then Some(e.content) else None
  }

  function Open(w: World, d: Disk, f: FileNode): Outcome<Handle>
    requires Indexed(w, f)
  {
    if InUpper(d, f.image, f.path) then
      Done(d.(fds := d.fds + [ContentIn(UpperAt(d, f.image, f.path).value)]), f, Handle(UpperFile(|d.fds|), None))
    else if !f.regular then Done(d, f, Handle(IndexFile(w.index[(f.image, f.path)]), f.buff))
    else
      match Obtain(w, d, f.image, CidOf(w, f))
      case NoReply => Failed(Named(w, f))
      case Fatal => Died
      case Have(d', fetched) =>
        var f' := Keep(Named(w, f), fetched);
        Finish(d', f', Handle(PrivateFile(f.image, f'.name), f'.buff))
  }

  /** The bytes a handle gives back, when it stands for a regular file. */
  function ReadAll(d: Disk, h: Handle): Option<Bytes> {
    if h.buff.Some? then h.buff
    else
      match h.source
      case PrivateFile(i, cid) =>
        if (i, cid) in d.priv && d.priv[(i, cid)] in d.data then Some(d.data[d.priv[(i, cid)]]) else None
      case UpperFile(fd) => if fd < |d.fds| then d.fds[fd] else None
      case IndexFile(_) => None
  }

  /** What `os.Readlink` gives for an entry of the index. */
  function TargetOf(s: Stub): string {
    match s
    case Link(target) => target
    case _ => ""
  }

  /** Reading a symlink repeats it in gear-work. A file that is a symlink in the
      mount's writable layer only has no target in the index; the empty one that
      is read instead makes no symlink, which is fatal. */
  function Readlink(w: World, d: Disk, f: FileNode): Option<Disk>
    requires Indexed(w, f)
  {
    if InWork(d, f.image, f.path) then Some(d)
    else
      match w.index[(f.image, f.path)]
      case Link(target) => PutNode(WithParents(d, f.image, f.path), f.image, f.path, Soft(target))
      case _ => None
  }

  // ----- prefetch -----

  /** The hashes the client still misses. */
  function Missing(d: Disk, hashes: seq<string>): seq<string> {
    if hashes == [] then []
    else Missing(d, hashes[..|hashes| - 1]) +
         (if hashes[|hashes| - 1] in d.pub then [] else [hashes[|hashes| - 1]])
  }

  function UnpackOne(w: World, d: Disk, i: Image, member: (string, Bytes)): Disk {
    var d' := Publish(d, member.0, w.dec(member.1));
    if (i, member.0) in d'.priv then d'
    else d'.(priv := d'.priv[(i, member.0) := d'.pub[member.0]])
  }

  function Unpack(w: World, d: Disk, i: Image, archive: seq<(string, Bytes)>): Disk {
    if archive == [] then d
    else UnpackOne(w, Unpack(w, d, i, archive[..|archive| - 1]), i, archive[|archive| - 1])
  }

  // ----- the invariant -----

  /** A public entry holds the unpacked content of its cid, in its own inode. */
  ghost predicate PublicOk(w: World, d: Disk) {
    && (forall cid :: cid in d.pub ==> CachedOk(w, d, cid))
    && (forall a, b :: a in d.pub && b in d.pub && a != b ==> d.pub[a] != d.pub[b])
  }

  ghost predicate CachedOk(w: World, d: Disk, cid: string)
    requires cid in d.pub
  {
    && cid in d.storage && d.pub[cid] < d.next
    && d.pub[cid] in d.data && d.data[d.pub[cid]] == w.dec(d.storage[cid])
  }

  ghost predicate PrivateOk(d: Disk) {
    forall k :: k in d.priv ==> k.1 in d.pub && d.priv[k] == d.pub[k.1]
  }

  ghost predicate WorkOk(w: World, d: Disk) {
    forall k :: k in d.work ==> NodeOk(w, d, k, d.work[k])
  }

  /** A gear-work node repeats the index, through the inode of the public entry. */
  ghost predicate NodeOk(w: World, d: Disk, k: (Image, Path), node: Node) {
    && k in w.index
    && match node
       case Hard(n) => w.index[k].Content? && w.index[k].cid in d.pub && n == d.pub[w.index[k].cid]
       case Folder => w.index[k].SubDir?
       case Soft(t) => w.index[k] == Link(t)
  }

  predicate FolderAbove(work: map<(Image, Path), Node>, i: Image, p: Path) {
    p != [] && (|p| > 1 ==> (i, Parent(p)) in work && work[(i, Parent(p))].Folder?)
  }

  predicate CanHold(d: Disk, i: Image, p: Path) {
    FolderAbove(d.work, i, p)
  }

  /** gear-work is a tree; asked for one entry at a time. */
  ghost predicate WorkClosed(work: map<(Image, Path), Node>) {
    forall i, p {:trigger FolderAbove(work, i, p)} :: (i, p) in work ==> FolderAbove(work, i, p)
  }

  ghost predicate Inv(w: World, d: Disk) {
    ValidIndex(w) && PublicOk(w, d) && PrivateOk(d) && WorkOk(w, d) && WorkClosed(d.work)
  }

  /** Nothing that was cached moves or changes. */
  ghost predicate Grows(d: Disk, d': Disk) {
    && (forall c :: c in d.storage ==> c in d'.storage && d'.storage[c] == d.storage[c])
    && (forall c :: c in d.pub ==> c in d'.pub && d'.pub[c] == d.pub[c])
    && (forall k :: k in d.priv ==> k in d'.priv && d'.priv[k] == d.priv[k])
    && (forall k :: k in d.work ==> k in d'.work && d'.work[k] == d.work[k])
    && |d.fds| <= |d'.fds|
  }

  ghost predicate Kept(w: World, d: Disk, d': Disk) {
    Inv(w, d') && Grows(d, d') && d'.storage == d.storage && d'.upper == d.upper && d'.host == d.host && d.fds <= d'.fds
  }

  // ----- gear-work only grows and stays a tree, whatever the caches hold -----

  lemma KindsAt(work: map<(Image, Path), Node>, i: Image, p: Path)
    ensures p in WorkKinds(work, i) <==> (i, p) in work
    ensures (i, p) in work ==> WorkKinds(work, i)[p] == NodeKind(work[(i, p)])
  {
    if (i, p) in work {
      var k := (i, p);
      assert k.1 == p;
    }
  }

  lemma KindsClosed(work: map<(Image, Path), Node>, i: Image)
    requires WorkClosed(work)
    ensures PathWalk.Closed(WorkKinds(work, i))
  {
    forall p | p in WorkKinds(work, i)
      ensures PathWalk.HasParent(WorkKinds(work, i), p)
    {
      KindsAt(work, i, p);
      assert FolderAbove(work, i, p);
      if |p| > 1 {
        KindsAt(work, i, Parent(p));
      }
    }
  }

  /** A name that can be made sits in a directory of gear-work. */
  lemma PlaceIsBelow(d: Disk, i: Image, p: Path)
    requires WorkClosed(d.work) && p != [] && WorkPlace(d, i, p).Inside?
    ensures FolderAbove(d.work, i, WorkPlace(d, i, p).path)
  {
    KindsClosed(d.work, i);
    PathWalk.PlaceHasParent(WorkKinds(d.work, i), p);
    KindsAt(d.work, i, Parent(WorkPlace(d, i, p).path));
  }

  /** A file of gear-work is a link to the public cache, right or wrong. */
  ghost predicate Public(d: Disk, node: Node) {
    node.Hard? ==> exists c :: c in d.pub && d.pub[c] == node.inode
  }

  /** Nodes were added to gear-work, and nothing else has changed. */
  ghost predicate Adds(d: Disk, d': Disk) {
    && d' == d.(work := d'.work) && WorkClosed(d'.work)
    && (forall k :: k in d.work ==> k in d'.work && d'.work[k] == d.work[k])
    && (forall k {:trigger PublicAt(d, d'.work, k)} :: k in d'.work && k !in d.work ==> PublicAt(d, d'.work, k))
  }

  ghost predicate PublicAt(d: Disk, work: map<(Image, Path), Node>, k: (Image, Path)) {
    k in work ==> Public(d, work[k])
  }

  lemma AddNodeAdds(d: Disk, i: Image, r: Path, node: Node)
    requires WorkClosed(d.work) && (i, r) !in d.work && FolderAbove(d.work, i, r) && Public(d, node)
    ensures Adds(d, AddNode(d, i, r, node))
  {
    var work := d.work[(i, r) := node];
    forall j, q | (j, q) in work
      ensures FolderAbove(work, j, q)
    {
      assert FolderAbove(d.work, j, q);
    }
  }

  lemma AddsNothing(d: Disk)
    requires WorkClosed(d.work)
    ensures Adds(d, d)
  {
  }

  lemma AddsTwice(d: Disk, d': Disk, d'': Disk)
    requires Adds(d, d') && Adds(d', d'')
    ensures Adds(d, d'')
  {
    forall k | k in d''.work && k !in d.work
      ensures PublicAt(d, d''.work, k)
    {
      if k in d'.work {
        assert PublicAt(d, d'.work, k);
      } else {
        assert PublicAt(d', d''.work, k);
      }
    }
  }

  lemma MkdirAdds(d: Disk, i: Image, p: Path)
    requires WorkClosed(d.work) && p != []
    ensures Adds(d, Mkdir(d, i, p).1)
  {
    if WorkPlace(d, i, p).Inside? && (i, WorkPlace(d, i, p).path) !in d.work {
      PlaceIsBelow(d, i, p);
      AddNodeAdds(d, i, WorkPlace(d, i, p).path, Folder);
    }
  }

  lemma {:induction false} MkdirAllAdds(d: Disk, i: Image, p: Path)
    requires WorkClosed(d.work)
    ensures Adds(d, MkdirAll(d, i, p).1)
    decreases |p|
  {
    AddsNothing(d);
    if p != [] && PathWalk.Follow(WorkKinds(d.work, i), p).Broken? {
      MkdirAllAdds(d, i, Parent(p));
      var (ok, d') := MkdirAll(d, i, Parent(p));
      if ok {
        MkdirAdds(d', i, p);
        AddsTwice(d, d', Mkdir(d', i, p).1);
      }
    }
  }

  lemma PutNodeAdds(d: Disk, i: Image, p: Path, node: Node)
    requires WorkClosed(d.work) && p != [] && Public(d, node)
    ensures PutNode(d, i, p, node).Some? ==> Adds(d, PutNode(d, i, p, node).value)
  {
    if WorkPlace(d, i, p).Inside? && (i, WorkPlace(d, i, p).path) !in d.work {
      PlaceIsBelow(d, i, p);
      AddNodeAdds(d, i, WorkPlace(d, i, p).path, node);
    }
  }

  /** Missing directories, then the node. */
  lemma PutBelowAdds(d: Disk, i: Image, p: Path, node: Node)
    requires WorkClosed(d.work) && p != [] && Public(d, node)
    ensures Adds(d, WithParents(d, i, p))
    ensures var r := PutNode(WithParents(d, i, p), i, p, node); r.Some? ==> Adds(d, r.value)
  {
    var made := WithParents(d, i, p);
    if |p| > 1 {
      MkdirAllAdds(d, i, Parent(p));
    }
    assert Public(made, node);
    PutNodeAdds(made, i, p, node);
    if PutNode(made, i, p, node).Some? {
      AddsTwice(d, made, PutNode(made, i, p, node).value);
    }
  }

  lemma LinkWorkAdds(d: Disk, i: Image, p: Path, cid: string)
    requires WorkClosed(d.work) && p != []
    ensures LinkWork(d, i, p, cid).Some? ==> Adds(d, LinkWork(d, i, p, cid).value)
  {
    var made := WithParents(d, i, p);
    MkdirAllAdds(d, i, if |p| > 1 then Parent(p) else []);
    assert made.pub == d.pub;
    PutBelowAdds(d, i, p, if cid in d.pub then Hard(d.pub[cid]) else Folder);
  }

  lemma PublishKeeps(w: World, d: Disk, cid: string)
    requires Inv(w, d) && cid in d.storage && cid !in d.pub
    ensures Kept(w, d, Publish(d, cid, w.dec(d.storage[cid])))
  {
    var d' := Publish(d, cid, w.dec(d.storage[cid]));
    forall c | c in d'.pub
      ensures CachedOk(w, d', c)
    {
      if c != cid {
        assert CachedOk(w, d, c);
      }
    }
    forall a, b | a in d'.pub && b in d'.pub && a != b
      ensures d'.pub[a] != d'.pub[b]
    {
      if a in d.pub {
        assert CachedOk(w, d, a);
      }
      if b in d.pub {
        assert CachedOk(w, d, b);
      }
    }
    SameNodes(w, d, d');
  }

  lemma SameNodes(w: World, d: Disk, d': Disk)
    requires WorkOk(w, d) && d'.work == d.work
    requires forall c :: c in d.pub ==> c in d'.pub && d'.pub[c] == d.pub[c]
    ensures WorkOk(w, d')
  {
    forall k | k in d'.work
      ensures NodeOk(w, d', k, d'.work[k])
    {
      assert NodeOk(w, d, k, d.work[k]);
    }
  }

  lemma LinkPrivateKeeps(w: World, d: Disk, i: Image, cid: string)
    requires Inv(w, d) && cid in d.pub
    ensures LinkPrivate(d, i, cid).Some?
    ensures var d' := LinkPrivate(d, i, cid).value;
            && Kept(w, d, d') && d'.data == d.data && d'.pub == d.pub
            && (i, cid) in d'.priv && d'.priv[(i, cid)] == d.pub[cid]
  {
    var d' := LinkPrivate(d, i, cid).value;
    assert d' == d.(priv := d'.priv);
    forall k | k in d'.priv
      ensures k.1 in d.pub && d'.priv[k] == d.pub[k.1]
    {
      assert k in d.priv || k == (i, cid);
    }
    SamePublic(w, d, d');
    SameNodes(w, d, d');
  }

  lemma SamePublic(w: World, d: Disk, d': Disk)
    requires PublicOk(w, d) && d'.pub == d.pub && d'.storage == d.storage && d'.data == d.data && d'.next == d.next
    ensures PublicOk(w, d')
  {
    forall c | c in d'.pub
      ensures CachedOk(w, d', c)
    {
      assert CachedOk(w, d, c);
    }
  }

  /** Every ancestor of an indexed path is an indexed directory. */
  lemma {:induction false} AncestorsIndexed(w: World, i: Image, p: Path, n: nat)
    requires ValidIndex(w) && (i, p) in w.index && 0 < n < |p|
    ensures IsSubDir(w, i, p[..n])
    decreases |p|
  {
    var q := Parent(p);
    assert BelowDir(w, i, p);
    if n < |q| {
      AncestorsIndexed(w, i, q, n);
      assert q[..n] == p[..n];
    } else {
      assert p[..n] == q;
    }
  }

  lemma {:induction false} IndexedIsProper(w: World, i: Image, p: Path)
    requires ValidIndex(w) && (i, p) in w.index
    ensures PathWalk.ProperPath(p)
    decreases |p|
  {
    assert BelowDir(w, i, p);
    assert p == Parent(p) + [p[|p| - 1]];
    if |p| > 1 {
      IndexedIsProper(w, i, Parent(p));
    }
  }

  /** No symlink lies above an indexed path: its name in gear-work is its place. */
  lemma Literal(w: World, d: Disk, i: Image, p: Path)
    requires Inv(w, d) && (i, p) in w.index && p != []
    ensures WorkPlace(d, i, p) == if CanHold(d, i, p) then PathWalk.Inside(p, PathWalk.MAX_LINKS) else PathWalk.Broken
    ensures InWork(d, i, p) <==> (i, p) in d.work
  {
    var t := WorkKinds(d.work, i);
    KindsClosed(d.work, i);
    IndexedIsProper(w, i, p);
    NoLinks(w, d, i, p);
    PathWalk.PlacePlain(t, p);
    KindsAt(d.work, i, Parent(p));
    KindsAt(d.work, i, p);
    if (i, p) in d.work {
      assert FolderAbove(d.work, i, p);
    }
  }

  lemma NoLinks(w: World, d: Disk, i: Image, p: Path)
    requires Inv(w, d) && (i, p) in w.index
    ensures PathWalk.NoLinkAbove(WorkKinds(d.work, i), p)
  {
    var t := WorkKinds(d.work, i);
    forall n | 0 < n < |p|
      ensures PathWalk.NoLinkAt(t, p[..n])
    {
      AncestorsIndexed(w, i, p, n);
      KindsAt(d.work, i, p[..n]);
      if (i, p[..n]) in d.work {
        assert NodeOk(w, d, (i, p[..n]), d.work[(i, p[..n])]);
      }
    }
  }

  /** So a directory of the index is found exactly when gear-work has it. */
  lemma LiteralDir(w: World, d: Disk, i: Image, p: Path)
    requires Inv(w, d) && IsSubDir(w, i, p)
    ensures PathWalk.Follow(WorkKinds(d.work, i), p) ==
            if (i, p) in d.work then PathWalk.Inside(p, PathWalk.MAX_LINKS) else PathWalk.Broken
    ensures (i, p) in d.work ==> d.work[(i, p)].Folder?
  {
    var t := WorkKinds(d.work, i);
    assert BelowDir(w, i, p);
    KindsClosed(d.work, i);
    IndexedIsProper(w, i, p);
    NoLinks(w, d, i, p);
    KindsAt(d.work, i, p);
    if (i, p) in d.work {
      assert NodeOk(w, d, (i, p), d.work[(i, p)]);
    }
    PathWalk.FollowPlain(t, p);
  }

  /** What making directories down to `p` leaves. */
  ghost predicate MadeTo(w: World, d: Disk, d': Disk, i: Image, p: Path) {
    && Kept(w, d, d') && Adds(d, d')
    && (p != [] ==> (i, p) in d'.work && d'.work[(i, p)].Folder?)
    && (forall k :: k in d'.work ==> k in d.work || |k.1| <= |p|)
  }

  lemma MkdirKeeps(w: World, d: Disk, d': Disk, i: Image, p: Path)
    requires Inv(w, d) && p != [] && IsSubDir(w, i, p) && (i, p) !in d.work && MadeTo(w, d, d', i, Parent(p))
    ensures Mkdir(d', i, p).0 && MadeTo(w, d, Mkdir(d', i, p).1, i, p)
  {
    Literal(w, d', i, p);
    assert CanHold(d', i, p) && (i, p) !in d'.work;
    AddNodeKeeps(w, d', (i, p), Folder);
    AddNodeAdds(d', i, p, Folder);
    KeptTwice(w, d, d', Mkdir(d', i, p).1);
    AddsTwice(d, d', Mkdir(d', i, p).1);
  }

  lemma MadeNothing(w: World, d: Disk, i: Image, p: Path)
    requires Inv(w, d) && (p != [] ==> (i, p) in d.work && d.work[(i, p)].Folder?)
    ensures MadeTo(w, d, d, i, p)
  {
    AddsNothing(d);
  }

  /** Directories of the index are made where gear-work lacks them. */
  lemma {:induction false} MkdirAllKeeps(w: World, d: Disk, i: Image, p: Path)
    requires Inv(w, d) && (p != [] ==> IsSubDir(w, i, p))
    ensures MkdirAll(d, i, p).0 && MadeTo(w, d, MkdirAll(d, i, p).1, i, p)
    decreases |p|
  {
    if p == [] {
      MadeNothing(w, d, i, p);
    } else {
      LiteralDir(w, d, i, p);
      if (i, p) in d.work {
        MadeNothing(w, d, i, p);
      } else {
        assert BelowDir(w, i, p);
        MkdirAllKeeps(w, d, i, Parent(p));
        MkdirKeeps(w, d, MkdirAll(d, i, Parent(p)).1, i, p);
      }
    }
  }

  lemma WithParentsKeeps(w: World, d: Disk, i: Image, p: Path)
    requires Inv(w, d) && (i, p) in w.index && p != []
    ensures var d' := WithParents(d, i, p);
            && Kept(w, d, d') && CanHold(d', i, p) && Adds(d, d')
            && ((i, p) in d'.work ==> (i, p) in d.work)
  {
    assert BelowDir(w, i, p);
    if |p| > 1 {
      LiteralDir(w, d, i, Parent(p));
      Literal(w, d, i, Parent(p));
      if !InWork(d, i, Parent(p)) {
        MkdirAllKeeps(w, d, i, Parent(p));
      }
    }
  }

  lemma AddNodeKeeps(w: World, d: Disk, k: (Image, Path), node: Node)
    requires Inv(w, d) && k !in d.work && NodeOk(w, d, k, node) && CanHold(d, k.0, k.1)
    ensures Kept(w, d, AddNode(d, k.0, k.1, node))
  {
    var d' := AddNode(d, k.0, k.1, node);
    AddNodeAdds(d, k.0, k.1, node);
    SamePublic(w, d, d');
    forall j | j in d'.work
      ensures NodeOk(w, d', j, d'.work[j])
    {
      if j != k {
        assert NodeOk(w, d, j, d.work[j]);
      }
    }
  }

  /** A node that repeats the index is put right where its path says. */
  lemma PutNodeKeeps(w: World, d: Disk, i: Image, p: Path, node: Node)
    requires Inv(w, d) && (i, p) in w.index && p != [] && (i, p) !in d.work
    requires NodeOk(w, WithParents(d, i, p), (i, p), node)
    ensures var r := PutNode(WithParents(d, i, p), i, p, node);
            && r.Some? && Kept(w, d, r.value) && Adds(d, r.value)
            && (i, p) in r.value.work && r.value.work[(i, p)] == node
  {
    var made := WithParents(d, i, p);
    WithParentsKeeps(w, d, i, p);
    Literal(w, made, i, p);
    AddNodeKeeps(w, made, (i, p), node);
    AddNodeAdds(made, i, p, node);
    KeptTwice(w, d, made, AddNode(made, i, p, node));
    AddsTwice(d, made, AddNode(made, i, p, node));
  }

  /** Linking an indexed file whose content is public cannot fail. */
  lemma LinkWorkKeeps(w: World, d: Disk, i: Image, p: Path, cid: string)
    requires Inv(w, d) && p != [] && (i, p) in w.index && w.index[(i, p)] == Content(cid) && cid in d.pub
    ensures LinkWork(d, i, p, cid).Some?
    ensures var d' := LinkWork(d, i, p, cid).value;
            && Kept(w, d, d') && Adds(d, d')
            && (i, p) in d'.work
  {
    Literal(w, d, i, p);
    if (i, p) !in d.work {
      WithParentsKeeps(w, d, i, p);
      PutNodeKeeps(w, d, i, p, Hard(d.pub[cid]));
    }
  }

  lemma ObtainKeeps(w: World, d: Disk, i: Image, cid: string)
    requires Inv(w, d)
    ensures var o := Obtain(w, d, i, cid);
            && !o.Fatal?
            && (o.NoReply? <==> cid !in d.pub && cid !in d.storage)
            && (o.Have? ==>
                  && Kept(w, d, o.disk) && cid in o.disk.pub && cid in d.storage
                  && (i, cid) in o.disk.priv
                  && (o.fetched.Some? ==> o.fetched.value == w.dec(d.storage[cid])))
  {
    if (i, cid) in d.priv {
      assert CachedOk(w, d, cid);
    } else if cid in d.pub {
      assert CachedOk(w, d, cid);
      LinkPrivateKeeps(w, d, i, cid);
    } else if cid in d.storage {
      var d' := Publish(d, cid, w.dec(d.storage[cid]));
      PublishKeeps(w, d, cid);
      LinkPrivateKeeps(w, d', i, cid);
    }
  }

  // ----- file nodes -----

  /** The buffer of a file node, once filled, holds the content of its file. */
  ghost predicate FileOk(w: World, d: Disk, f: FileNode) {
    && Indexed(w, f)
    && (f.buff.Some? ==> f.regular && CidOf(w, f) in d.storage && f.buff.value == w.dec(d.storage[CidOf(w, f)]))
  }

  /** path -> stub -> stored content: what all the caches speed up. */
  ghost predicate Resolves(w: World, d: Disk, i: Image, p: Path, bytes: Bytes) {
    && (i, p) in w.index && w.index[(i, p)].Content?
    && w.index[(i, p)].cid in d.storage
    && bytes == w.dec(d.storage[w.index[(i, p)].cid])
  }

  lemma KeptTwice(w: World, d: Disk, d': Disk, d'': Disk)
    requires Kept(w, d, d') && Kept(w, d', d'')
    ensures Kept(w, d, d'')
  {
  }

  /** Obtaining a file fills the node with its own content. */
  lemma ObtainFills(w: World, d: Disk, f: FileNode)
    requires Inv(w, d) && FileOk(w, d, f) && f.regular && Obtain(w, d, f.image, CidOf(w, f)).Have?
    ensures var o := Obtain(w, d, f.image, CidOf(w, f));
            var f' := Keep(Named(w, f), o.fetched);
            && Kept(w, d, o.disk) && FileOk(w, o.disk, f')
            && f'.name == CidOf(w, f) && f'.name in o.disk.pub && f'.name in d.storage
            && (f.image, f'.name) in o.disk.priv
  {
    ObtainKeeps(w, d, f.image, CidOf(w, f));
  }

  /** Serving a regular file: obtain it, then link it into gear-work. */
  lemma ServeKeeps(w: World, d: Disk, f: FileNode)
    requires Inv(w, d) && FileOk(w, d, f) && f.regular && Obtain(w, d, f.image, CidOf(w, f)).Have?
    ensures var o := Obtain(w, d, f.image, CidOf(w, f));
            var f' := Keep(Named(w, f), o.fetched);
            var linked := LinkWork(o.disk, f.image, f.path, f'.name);
            && linked.Some? && Kept(w, d, linked.value) && FileOk(w, linked.value, f')
            && (f.image, f'.name) in linked.value.priv && f'.name in d.storage
  {
    var cid := CidOf(w, f);
    ObtainFills(w, d, f);
    LinkAfter(w, d, Obtain(w, d, f.image, cid).disk, f.image, f.path, cid);
  }

  lemma LinkAfter(w: World, d: Disk, d': Disk, i: Image, p: Path, cid: string)
    requires Kept(w, d, d') && p != [] && (i, p) in w.index && w.index[(i, p)] == Content(cid) && cid in d'.pub
    ensures var linked := LinkWork(d', i, p, cid);
            linked.Some? && Kept(w, d, linked.value) && linked.value.priv == d'.priv
  {
    LinkWorkKeeps(w, d', i, p, cid);
    KeptTwice(w, d, d', LinkWork(d', i, p, cid).value);
  }

  /** After Attr or Open of a regular file without an upper copy, its private
      entry, its gear-work entry and the public entry are one inode. */
  lemma OneInode(w: World, d: Disk, f: FileNode)
    requires Inv(w, d) && FileOk(w, d, f) && f.regular && !InUpper(d, f.image, f.path)
    ensures Attr(w, d, f).Done? ==> SharesInode(w, Attr(w, d, f).disk, f)
    ensures Open(w, d, f).Done? ==> SharesInode(w, Open(w, d, f).disk, f)
    ensures Attr(w, d, f).Done? <==> CidOf(w, f) in d.storage
    ensures Open(w, d, f).Done? <==> CidOf(w, f) in d.storage
  {
    var cid := CidOf(w, f);
    ObtainKeeps(w, d, f.image, cid);
    var o := Obtain(w, d, f.image, cid);
    if o.Have? {
      LinkWorkKeeps(w, o.disk, f.image, f.path, cid);
      var d' := LinkWork(o.disk, f.image, f.path, cid).value;
      var k := (f.image, f.path);
      assert NodeOk(w, d', k, d'.work[k]);
      WorkIsHard(w, d', k);
    }
  }

  ghost predicate SharesInode(w: World, d: Disk, f: FileNode)
    requires Indexed(w, f) && f.regular
  {
    var cid := CidOf(w, f);
    && cid in d.pub
    && (f.image, cid) in d.priv && d.priv[(f.image, cid)] == d.pub[cid]
    && (f.image, f.path) in d.work && d.work[(f.image, f.path)] == Hard(d.pub[cid])
  }

  lemma WorkIsHard(w: World, d: Disk, k: (Image, Path))
    requires k in d.work && NodeOk(w, d, k, d.work[k]) && w.index[k].Content?
    ensures w.index[k].cid in d.pub && d.work[k] == Hard(d.pub[w.index[k].cid])
  {
  }

  lemma AttrKeeps(w: World, d: Disk, f: FileNode)
    requires Inv(w, d) && FileOk(w, d, f)
    ensures var r := Attr(w, d, f);
            && !r.Died?
            && (r.Failed? ==> FileOk(w, d, r.file))
            && (r.Done? ==> Kept(w, d, r.disk) && FileOk(w, r.disk, r.file)
                            && r.file.image == f.image && r.file.path == f.path)
  {
    if !InUpper(d, f.image, f.path) && f.regular {
      ObtainKeeps(w, d, f.image, CidOf(w, f));
      if Obtain(w, d, f.image, CidOf(w, f)).Have? {
        ServeKeeps(w, d, f);
      }
    }
  }

  lemma OpenKeeps(w: World, d: Disk, f: FileNode)
    requires Inv(w, d) && FileOk(w, d, f)
    ensures var r := Open(w, d, f);
            && !r.Died?
            && (r.Failed? ==> FileOk(w, d, r.file))
            && (r.Done? ==> Kept(w, d, r.disk) && FileOk(w, r.disk, r.file)
                            && r.file.image == f.image && r.file.path == f.path
                            && HandleOk(w, r.disk, r.reply))
  {
    if !InUpper(d, f.image, f.path) && f.regular {
      ObtainKeeps(w, d, f.image, CidOf(w, f));
      if Obtain(w, d, f.image, CidOf(w, f)).Have? {
        ServeKeeps(w, d, f);
      }
    }
  }

  /** A handle on a cached file stays readable, and its two branches agree. */
  ghost predicate HandleOk(w: World, d: Disk, h: Handle) {
    match h.source
    case PrivateFile(i, cid) =>
      && (i, cid) in d.priv && cid in d.storage
      && (h.buff.Some? ==> h.buff.value == w.dec(d.storage[cid]))
    case UpperFile(fd) => h.buff == None && fd < |d.fds|
    case IndexFile(_) => h.buff == None
  }

  /** Whatever happened since the open, reading a cached file gives the stored
      content, from the buffer branch and from the path branch alike. */
  lemma ReadsStored(w: World, d: Disk, h: Handle)
    requires PublicOk(w, d) && PrivateOk(d) && HandleOk(w, d, h) && h.source.PrivateFile?
    ensures ReadAll(d, h) == Some(w.dec(d.storage[h.source.cid]))
    ensures ReadAll(d, h.(buff := None)) == ReadAll(d, h)
  {
    assert CachedOk(w, d, h.source.cid);
  }

  /** Attr of an indexed regular file gives the length of the resolved content. */
  lemma AttrSize(w: World, d: Disk, f: FileNode, bytes: Bytes)
    requires Inv(w, d) && FileOk(w, d, f) && f.regular && !InUpper(d, f.image, f.path)
    requires Resolves(w, d, f.image, f.path, bytes)
    ensures Attr(w, d, f).Done? && Attr(w, d, f).reply == Size(|bytes|)
  {
    var cid := CidOf(w, f);
    ObtainKeeps(w, d, f.image, cid);
    var got := Obtain(w, d, f.image, cid);
    LinkWorkKeeps(w, got.disk, f.image, f.path, cid);
    assert CachedOk(w, got.disk, cid);
  }

  /** Open then ReadAll gives the resolved content. */
  lemma OpenReads(w: World, d: Disk, f: FileNode, bytes: Bytes)
    requires Inv(w, d) && FileOk(w, d, f) && f.regular && !InUpper(d, f.image, f.path)
    requires Resolves(w, d, f.image, f.path, bytes)
    ensures Open(w, d, f).Done?
    ensures ReadAll(Open(w, d, f).disk, Open(w, d, f).reply) == Some(bytes)
  {
    ObtainKeeps(w, d, f.image, CidOf(w, f));
    OpenKeeps(w, d, f);
    var o := Open(w, d, f);
    ReadsStored(w, o.disk, o.reply);
  }

  /** A file that had to be pulled is kept in the node's buffer, and so in the
      handle; one that was cached leaves the buffer as it was. */
  lemma PulledIsBuffered(w: World, d: Disk, f: FileNode)
    requires Inv(w, d) && FileOk(w, d, f) && f.regular && !InUpper(d, f.image, f.path)
    requires CidOf(w, f) in d.storage
    ensures var a, o, cid := Attr(w, d, f), Open(w, d, f), CidOf(w, f);
            && a.Done? && o.Done?
            && a.file == o.file
            && a.file == f.(name := cid, buff := if cid in d.pub then f.buff else Some(w.dec(d.storage[cid])))
            && o.reply.buff == o.file.buff
  {
    OneInode(w, d, f);
    if (f.image, CidOf(w, f)) in d.priv {
      assert CidOf(w, f) in d.pub;
    }
  }

  lemma StillResolves(w: World, d: Disk, d': Disk, i: Image, p: Path, bytes: Bytes)
    requires Resolves(w, d, i, p, bytes) && !InUpper(d, i, p)
    requires Grows(d, d') && d'.upper == d.upper && d'.host == d.host
    ensures Resolves(w, d', i, p, bytes) && !InUpper(d', i, p)
  {
  }

  /** Attr then Open then ReadAll of an indexed regular file without an upper
      copy: the bytes are the resolved content and Attr gave their number. */
  lemma ReadAgreement(w: World, d: Disk, f: FileNode, bytes: Bytes)
    requires Inv(w, d) && FileOk(w, d, f) && f.regular && !InUpper(d, f.image, f.path)
    requires Resolves(w, d, f.image, f.path, bytes)
    ensures var a := Attr(w, d, f);
            a.Done? && Indexed(w, a.file) &&
            var o := Open(w, a.disk, a.file);
            o.Done? && ReadAll(o.disk, o.reply) == Some(bytes) && a.reply == Size(|bytes|)
  {
    AttrSize(w, d, f, bytes);
    AttrKeeps(w, d, f);
    var a := Attr(w, d, f);
    StillResolves(w, d, a.disk, f.image, f.path, bytes);
    OpenReads(w, a.disk, a.file, bytes);
  }

  /** The mount looks into the writable layer of the container that mounted it
      first. A read through it gives the image's content exactly when that
      layer has no other file at the path. */
  lemma ReadIsImageIff(w: World, d: Disk, f: FileNode, bytes: Bytes)
    requires Inv(w, d) && FileOk(w, d, f) && f.regular && Resolves(w, d, f.image, f.path, bytes)
    ensures var o := Open(w, d, f);
            o.Done? &&
            (ReadAll(o.disk, o.reply) == Some(bytes) <==>
               !InUpper(d, f.image, f.path) || UpperAt(d, f.image, f.path) == Some(File(bytes)))
  {
    OpenKeeps(w, d, f);
    if !InUpper(d, f.image, f.path) {
      OpenReads(w, d, f, bytes);
    }
  }

  lemma {:induction false} UnpackSameWork(w: World, d: Disk, i: Image, archive: seq<(string, Bytes)>)
    ensures Unpack(w, d, i, archive).work == d.work
  {
    if archive != [] {
      UnpackSameWork(w, d, i, archive[..|archive| - 1]);
    }
  }

  /** Reading a link kills the process exactly when the index has no link there
      and gear-work has nothing there; otherwise everything stays right. */
  lemma ReadlinkIff(w: World, d: Disk, f: FileNode)
    requires Inv(w, d) && Indexed(w, f)
    ensures Readlink(w, d, f).None? <==>
            !w.index[(f.image, f.path)].Link? && (f.image, f.path) !in d.work
    ensures Readlink(w, d, f).Some? ==>
              var d' := Readlink(w, d, f).value;
              Kept(w, d, d') && Adds(d, d') && (f.image, f.path) in d'.work
  {
    var k := (f.image, f.path);
    Literal(w, d, f.image, f.path);
    if k !in d.work && w.index[k].Link? {
      PutNodeKeeps(w, d, f.image, f.path, Soft(w.index[k].target));
    }
  }

  /** The target that is answered for a link of the index is the one that
      gear-work then holds, and both are the index's. */
  lemma ReadlinkAgrees(w: World, d: Disk, f: FileNode)
    requires Inv(w, d) && Indexed(w, f) && w.index[(f.image, f.path)].Link?
    ensures Readlink(w, d, f).Some?
    ensures var k := (f.image, f.path);
            && k in Readlink(w, d, f).value.work
            && Readlink(w, d, f).value.work[k] == Soft(TargetOf(w.index[k])) == Soft(w.index[k].target)
  {
    var k := (f.image, f.path);
    ReadlinkIff(w, d, f);
    var d' := Readlink(w, d, f).value;
    assert NodeOk(w, d', k, d'.work[k]);
  }

  // ----- prefetch -----

  lemma PublishAgain(w: World, d: Disk, cid: string)
    requires PublicOk(w, d) && cid in d.pub
    ensures Publish(d, cid, w.dec(d.storage[cid])) == d
  {
    assert CachedOk(w, d, cid);
    assert d.data[d.pub[cid] := w.dec(d.storage[cid])] == d.data;
  }

  lemma PublishKeepsKeys(w: World, d: Disk, cid: string)
    requires Inv(w, d) && cid in d.storage
    ensures var d' := Publish(d, cid, w.dec(d.storage[cid]));
            Kept(w, d, d') && d'.pub.Keys == d.pub.Keys + {cid} && d'.priv == d.priv && d'.work == d.work
  {
    if cid in d.pub {
      PublishAgain(w, d, cid);
    } else {
      PublishKeeps(w, d, cid);
    }
  }

  lemma UnpackOneLinks(w: World, d: Disk, i: Image, cid: string)
    requires cid in d.storage
    ensures LinkPrivate(Publish(d, cid, w.dec(d.storage[cid])), i, cid) ==
            Some(UnpackOne(w, d, i, (cid, d.storage[cid])))
  {
  }

  lemma UnpackOneKeeps(w: World, d: Disk, i: Image, cid: string)
    requires Inv(w, d) && cid in d.storage
    ensures var u := UnpackOne(w, d, i, (cid, d.storage[cid]));
            && Kept(w, d, u)
            && u.pub.Keys == d.pub.Keys + {cid}
            && (forall k :: k in u.priv <==> k in d.priv || k == (i, cid))
            && u.work == d.work
  {
    var d' := Publish(d, cid, w.dec(d.storage[cid]));
    PublishKeepsKeys(w, d, cid);
    UnpackOneLinks(w, d, i, cid);
    LinkPrivateKeeps(w, d', i, cid);
  }

  lemma {:induction false} UnpackKeeps(w: World, d: Disk, i: Image, archive: seq<(string, Bytes)>)
    requires Inv(w, d)
    requires forall m :: m in archive ==> m.0 in d.storage && m.1 == d.storage[m.0]
    ensures var u := Unpack(w, d, i, archive);
            && Kept(w, d, u) && u.work == d.work
            && (forall c :: c in u.pub <==> c in d.pub || Carries(archive, c))
            && (forall k :: k in u.priv <==> k in d.priv || (k.0 == i && Carries(archive, k.1)))
  {
    if archive != [] {
      var front, last := archive[..|archive| - 1], archive[|archive| - 1];
      UnpackKeeps(w, d, i, front);
      assert last in archive;
      UnpackOneKeeps(w, Unpack(w, d, i, front), i, last.0);
      forall c
        ensures Carries(archive, c) <==> Carries(front, c) || c == last.0
      {
        CarriesLast(c, archive);
      }
    }
  }

  /** The transfer of a prefetch: public becomes the old public cache plus the
      unpacked content of the recorded hashes that the manager has; cached
      entries keep inode and bytes; every hash that travelled is linked into
      the image's private cache, and nothing else is. */
  lemma PrefetchTransfer(w: World, d: Disk, i: Image, hashes: seq<string>)
    requires Inv(w, d)
    ensures var u := Unpack(w, d, i, Archive(d.storage, Missing(d, hashes)));
            && Kept(w, d, u) && u.work == d.work
            && (forall c :: c in u.pub <==> c in d.pub || (c in hashes && c in d.storage))
            && (forall c :: c in u.pub ==> u.pub[c] in u.data && u.data[u.pub[c]] == w.dec(d.storage[c]))
            && (forall k :: k in u.priv <==>
                  k in d.priv || (k.0 == i && k.1 in hashes && k.1 in d.storage && k.1 !in d.pub))
  {
    var files := Missing(d, hashes);
    MissingHas(d, hashes);
    ArchiveHas(d.storage, files);
    var archive := Archive(d.storage, files);
    UnpackKeeps(w, d, i, archive);
    var u := Unpack(w, d, i, archive);
    forall c | c in u.pub
      ensures u.pub[c] in u.data && u.data[u.pub[c]] == w.dec(d.storage[c])
    {
      assert CachedOk(w, u, c);
    }
  }

  lemma {:induction false} MissingHas(d: Disk, hashes: seq<string>)
    ensures forall c :: c in Missing(d, hashes) <==> c in hashes && c !in d.pub
  {
    if hashes != [] {
      MissingHas(d, hashes[..|hashes| - 1]);
      assert hashes == hashes[..|hashes| - 1] + [hashes[|hashes| - 1]];
    }
  }

  /** The hashes are asked for in the order of the list, each as often as listed. */
  lemma {:induction false} MissingInOrder(d: Disk, a: seq<string>, hash: string, b: seq<string>)
    ensures Missing(d, a + b) == Missing(d, a) + Missing(d, b)
    ensures Missing(d, [hash]) == if hash in d.pub then [] else [hash]
  {
    assert [hash][..0] == [];
    if b == [] {
      assert a + b == a;
    } else {
      assert (a + b)[..|a + b| - 1] == a + b[..|b| - 1];
      MissingInOrder(d, a, hash, b[..|b| - 1]);
    }
  }
}
