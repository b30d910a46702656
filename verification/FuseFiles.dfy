/** The file nodes of the FUSE layer and the prefetch of the graph driver, step
    by step as they run, against the functions of `LazyCache`. */
module FuseFiles {
  import opened Text
  import opened Overlay
  import opened Store
  import opened LazyCache
  import opened TemplateLinks
  import PathWalk

  datatype Reply<+T> = Answer(value: T) | NoAnswer | Crash

  class Host {
    const w: World
    var disk: Disk

    constructor (w: World, disk: Disk)
      ensures this.w == w && this.disk == disk
    {
      this.w, this.disk := w, disk;
    }

    /** `os.Create`, `io.Copy`, `Close` on a name of the public cache. */
    method WritePublic(cid: string, bytes: Bytes)
      modifies this
      ensures disk == Publish(old(disk), cid, bytes)
    {
      if cid in disk.pub {
        disk := disk.(data := disk.data[disk.pub[cid] := ""]);
      } else {
        var inode := disk.next;
        disk := disk.(pub := disk.pub[cid := inode], data := disk.data[inode := ""], next := inode + 1);
      }
      disk := disk.(data := disk.data[disk.pub[cid] := bytes]);
      assert disk.data == Publish(old(disk), cid, bytes).data;
    }

    /** `os.Open` on an entry of the mount's writable layer: the descriptor stays
        with the file it was opened on. */
    method OpenUpper(i: Image, p: Path) returns (fd: nat)
      requires InUpper(disk, i, p)
      modifies this
      ensures fd == |old(disk).fds|
      ensures disk == old(disk.(fds := disk.fds + [ContentIn(UpperAt(disk, i, p).value)]))
    {
      fd := |disk.fds|;
      disk := disk.(fds := disk.fds + [ContentIn(UpperAt(disk, i, p).value)]);
    }

    /** `os.Link`; a name that exists is tolerated, a missing source is fatal. */
    method LinkIntoPrivate(i: Image, cid: string) returns (ok: bool)
      modifies this
      ensures ok == LinkPrivate(old(disk), i, cid).Some?
      ensures disk == if ok then LinkPrivate(old(disk), i, cid).value else old(disk)
    {
      ok := true;
      if (i, cid) !in disk.priv {
        if cid in disk.pub {
          disk := disk.(priv := disk.priv[(i, cid) := disk.pub[cid]]);
        } else {
          ok := false;
        }
      }
    }

    /** `os.Mkdir` below gear-work. */
    method MakeDir(i: Image, p: Path) returns (ok: bool)
      requires p != []
      modifies this
      ensures (ok, disk) == Mkdir(old(disk), i, p)
    {
      match WorkPlace(disk, i, p)
      case Inside(r, _) =>
        ok := (i, r) !in disk.work;
        if ok {
          disk := AddNode(disk, i, r, Folder);
        }
      case Outside => ok := (i, p) in disk.host.makes;
      case Broken => ok := false;
    }

    /** `os.MkdirAll`: nothing to do at a directory, else the parent first. */
    method MakeDirs(i: Image, p: Path) returns (ok: bool)
      modifies this
      ensures (ok, disk) == MkdirAll(old(disk), i, p)
      decreases |p|
    {
      if p == [] {
        return true;
      }
      match PathWalk.Follow(WorkKinds(disk.work, i), p)
      case Inside(_, _) => ok := true;
      case Outside => ok := (i, p) in disk.host.names;
      case Broken =>
        ok := MakeDirs(i, Parent(p));
        if ok {
          ok := MakeDir(i, p);
        }
    }

    /** A new name below gear-work; one that exists is tolerated. */
    method MakeNode(i: Image, p: Path, node: Node) returns (ok: bool)
      requires p != []
      modifies this
      ensures ok == PutNode(old(disk), i, p, node).Some?
      ensures disk == if ok then PutNode(old(disk), i, p, node).value else old(disk)
    {
      match WorkPlace(disk, i, p)
      case Inside(r, _) =>
        ok := true;
        if (i, r) !in disk.work {
          disk := AddNode(disk, i, r, node);
        }
      case Outside => ok := (i, p) in disk.host.makes;
      case Broken => ok := false;
    }

    /** Link public -> gear-work, creating missing directories first. */
    method LinkIntoWork(i: Image, p: Path, cid: string) returns (ok: bool)
      requires p != []
      modifies this
      ensures ok == LinkWork(old(disk), i, p, cid).Some?
      ensures disk == if ok then LinkWork(old(disk), i, p, cid).value else WithParents(old(disk), i, p)
    {
      ok := true;
      if !InWork(disk, i, p) {
        if |p| > 1 && !InWork(disk, i, Parent(p)) {
          var made := MakeDirs(i, Parent(p));
        }
        if cid in disk.pub {
          ok := MakeNode(i, p, Hard(disk.pub[cid]));
        } else {
          ok := false;
        }
      }
    }

    method FilterMissing(files: seq<string>) returns (needToDownload: seq<string>)
      ensures needToDownload == Missing(disk, files)
    {
      needToDownload := [];
      for k := 0 to |files|
        invariant needToDownload == Missing(disk, files[..k])
      {
        assert files[..k + 1][..k] == files[..k];
        if files[k] !in disk.pub {
          needToDownload := needToDownload + [files[k]];
        }
      }
      assert files[..|files|] == files;
    }

    method UnpackAll(i: Image, archive: seq<(string, Bytes)>)
      modifies this
      ensures disk == Unpack(w, old(disk), i, archive)
    {
      ghost var before := disk;
      for k := 0 to |archive|
        invariant disk == Unpack(w, before, i, archive[..k])
      {
        assert archive[..k + 1][..k] == archive[..k];
        var (name, body) := archive[k];
        WritePublic(name, w.dec(body));
        var linked := LinkIntoPrivate(i, name);
      }
      assert archive[..|archive|] == archive;
    }

    /** The prefetch of `Get`: filter, ask the manager, unpack, link. `template`
        is the recorded map in the order in which it is ranged over. */
    method PrefetchImage(manager: Manager, i: Image, files: seq<string>, template: Template, tmpFileName: string)
      returns (ok: bool)
      requires manager.storage == disk.storage && tmpFileName !in disk.storage && tmpFileName !in files
      modifies this, manager
      ensures manager.storage == old(manager.storage)
      ensures (ok, disk) == Prefetch(w, old(disk), i, files, template)
    {
      var needToDownload := FilterMissing(files);
      MissingHas(disk, files);
      var archive := manager.HandlePreFetch(needToDownload, tmpFileName);
      UnpackAll(i, archive);
      ok := LinkAll(i, template);
    }

    /** The loop over the directories above a recorded path. */
    method CopyPath(i: Image, p: Path) returns (ok: bool)
      requires p != []
      modifies this
      ensures (ok, disk) == CopyDirs(w, old(disk), i, p)
    {
      ghost var before := disk;
      for n := 1 to |p|
        invariant (true, disk) == CopyDirs(w, before, i, p[..n])
      {
        assert Parent(p[..n + 1]) == p[..n];
        if !InWork(disk, i, p[..n]) {
          ok := InIndex(w, disk, i, p[..n]);
          if ok {
            ok := MakeDir(i, p[..n]);
          }
          if !ok {
            CopyStops(w, before, i, p, n + 1);
            return;
          }
        }
      }
      assert p[..|p|] == p;
      ok := true;
    }

    /** A failing link is only logged. */
    method LinkLogged(i: Image, p: Path, cid: string)
      requires p != []
      modifies this
      ensures disk == TryLink(old(disk), i, p, cid)
    {
      if cid in disk.pub {
        var linked := MakeNode(i, p, Hard(disk.pub[cid]));
      }
    }

    /** One turn of the template loop; false when it panics. */
    method LinkOne(i: Image, p: Path, cid: string) returns (ok: bool)
      modifies this
      ensures (ok, disk) == LinkRecorded(w, old(disk), i, (p, cid))
    {
      ok := true;
      if p != [] && !InWork(disk, i, p) {
        if |p| > 1 && !InWork(disk, i, Parent(p)) {
          ok := CopyPath(i, p);
          if !ok {
            if !InIndex(w, disk, i, p) {
              return;
            }
            var made := MakeDirs(i, Parent(p));
            ok := true;
          }
        }
        LinkLogged(i, p, cid);
      }
    }

    method LinkAll(i: Image, template: Template) returns (ok: bool)
      modifies this
      ensures (ok, disk) == LinkTemplate(w, old(disk), i, template)
    {
      ghost var before := disk;
      for k := 0 to |template|
        invariant LinkTemplate(w, before, i, template[..k]) == (true, disk)
      {
        assert template[..k + 1][..k] == template[..k];
        ok := LinkOne(i, template[k].0, template[k].1);
        if !ok {
          TemplateStops(w, before, i, template, k + 1);
          return;
        }
      }
      assert template[..|template|] == template;
      ok := true;
    }
  }

  lemma {:induction false} CopyStops(w: World, d: Disk, i: Image, p: Path, n: nat)
    requires 0 < n <= |p| && !CopyDirs(w, d, i, p[..n]).0
    ensures CopyDirs(w, d, i, p) == CopyDirs(w, d, i, p[..n])
    decreases |p|
  {
    if n == |p| {
      assert p[..n] == p;
    } else {
      assert Parent(p)[..n] == p[..n];
      CopyStops(w, d, i, Parent(p), n);
    }
  }

  /** A panic ends the whole template. */
  lemma {:induction false} TemplateStops(w: World, d: Disk, i: Image, template: Template, n: nat)
    requires n <= |template| && !LinkTemplate(w, d, i, template[..n]).0
    ensures LinkTemplate(w, d, i, template) == LinkTemplate(w, d, i, template[..n])
  {
    if n == |template| {
      assert template[..n] == template;
    } else {
      var front := template[..|template| - 1];
      assert front[..n] == template[..n];
      TemplateStops(w, d, i, front, n);
    }
  }

  class FileHandler {
    const source: Source
    const buff: Option<Bytes>

    constructor (source: Source, buff: Option<Bytes>)
      ensures this.source == source && this.buff == buff
    {
      this.source, this.buff := source, buff;
    }

    function Value(): Handle {
      Handle(source, buff)
    }

    method ReadAll(host: Host) returns (data: Option<Bytes>)
      ensures data == LazyCache.ReadAll(host.disk, Value())
    {
      if buff.Some? {
        return buff;
      }
      match source
      case PrivateFile(i, cid) =>
        if (i, cid) in host.disk.priv && host.disk.priv[(i, cid)] in host.disk.data {
          return Some(host.disk.data[host.disk.priv[(i, cid)]]);
        }
        return None;
      case UpperFile(fd) =>
        if fd < |host.disk.fds| {
          return host.disk.fds[fd];
        }
        return None;
      case IndexFile(_) => return None;
    }
  }

  class File {
    const image: Image
    const relativePath: Path
    const isRegular: bool
    var privateCacheName: string
    var buff: Option<Bytes>

    constructor (image: Image, relativePath: Path, isRegular: bool)
      ensures Value() == FileNode(image, relativePath, isRegular, "", None)
    {
      this.image, this.relativePath, this.isRegular := image, relativePath, isRegular;
      this.privateCacheName, this.buff := "", None;
    }

    function Value(): FileNode
      reads this
    {
      FileNode(image, relativePath, isRegular, privateCacheName, buff)
    }

    /** Look in the private cache, then in the public cache, then ask the
        manager; what is downloaded stays in memory as well. */
    method Ensure(host: Host) returns (r: Reply<()>)
      requires isRegular && Indexed(host.w, Value()) && host as object != this
      modifies this, host
      ensures match Obtain(host.w, old(host.disk), image, CidOf(host.w, Value()))
              case NoReply => r == NoAnswer && host.disk == old(host.disk) && Value() == Named(host.w, old(Value()))
              case Fatal => r == Crash
              case Have(d, fetched) =>
                r == Answer(()) && host.disk == d && Value() == Keep(Named(host.w, old(Value())), fetched)
    {
      privateCacheName := host.w.index[(image, relativePath)].cid;
      var cid := privateCacheName;
      if (image, cid) in host.disk.priv {
        return Answer(());
      }
      if cid !in host.disk.pub {
        if cid !in host.disk.storage {
          return NoAnswer;
        }
        var b := host.w.dec(host.disk.storage[cid]);
        buff := Some(b);
        host.WritePublic(cid, b);
      }
      var ok := host.LinkIntoPrivate(image, cid);
      r := if ok then Answer(()) else Crash;
    }

    method Attr(host: Host) returns (r: Reply<Attrs>)
      requires Indexed(host.w, Value()) && host as object != this
      modifies this, host
      ensures match LazyCache.Attr(host.w, old(host.disk), old(Value()))
              case Done(d, f, reply) => r == Answer(reply) && host.disk == d && Value() == f
              case Failed(f) => r == NoAnswer && host.disk == old(host.disk) && Value() == f
              case Died => r == Crash
    {
      if InUpper(host.disk, image, relativePath) {
        return Answer(UpperAttrs(UpperAt(host.disk, image, relativePath).value));
      }
      if !isRegular {
        return Answer(IndexAttrs(host.w.index[(image, relativePath)]));
      }
      var fetched := Ensure(host);
      match fetched {
        case NoAnswer => return NoAnswer;
        case Crash => return Crash;
        case Answer(_) =>
      }
      var size := SizeOf(host.disk, image, privateCacheName);
      var ok := host.LinkIntoWork(image, relativePath, privateCacheName);
      r := if ok then Answer(Size(size)) else Crash;
    }

    method Open(host: Host) returns (r: Reply<FileHandler>)
      requires Indexed(host.w, Value()) && host as object != this
      modifies this, host
      ensures match LazyCache.Open(host.w, old(host.disk), old(Value()))
              case Done(d, f, h) => r.Answer? && r.value.Value() == h && host.disk == d && Value() == f
              case Failed(f) => r == NoAnswer && host.disk == old(host.disk) && Value() == f
              case Died => r == Crash
    {
      if InUpper(host.disk, image, relativePath) {
        var fd := host.OpenUpper(image, relativePath);
        var upper := new FileHandler(UpperFile(fd), None);
        return Answer(upper);
      }
      if !isRegular {
        var plain := new FileHandler(IndexFile(host.w.index[(image, relativePath)]), buff);
        return Answer(plain);
      }
      var fetched := Ensure(host);
      match fetched {
        case NoAnswer => return NoAnswer;
        case Crash => return Crash;
        case Answer(_) =>
      }
      var handle := new FileHandler(PrivateFile(image, privateCacheName), buff);
      var ok := host.LinkIntoWork(image, relativePath, privateCacheName);
      r := if ok then Answer(handle) else Crash;
    }

    /** Answers the target and repeats the symlink in gear-work. For a file that is
        no symlink in the index the target is empty, and no symlink can be made. */
    method Readlink(host: Host) returns (r: Reply<string>)
      requires Indexed(host.w, Value()) && host as object != this
      modifies host
      ensures match LazyCache.Readlink(host.w, old(host.disk), Value())
              case Some(d) => host.disk == d && r == Answer(TargetOf(host.w.index[(image, relativePath)]))
              case None => r == Crash
      ensures host.w.index[(image, relativePath)].Link? && r.Answer? ==>
                r.value == host.w.index[(image, relativePath)].target
    {
      var target := TargetOf(host.w.index[(image, relativePath)]);
      if !InWork(host.disk, image, relativePath) {
        if |relativePath| > 1 && !InWork(host.disk, image, Parent(relativePath)) {
          var made := host.MakeDirs(image, Parent(relativePath));
        }
        if !host.w.index[(image, relativePath)].Link? {
          return Crash;
        }
        var ok := host.MakeNode(image, relativePath, Soft(target));
        if !ok {
          return Crash;
        }
      }
      r := Answer(target);
    }
  }
}
