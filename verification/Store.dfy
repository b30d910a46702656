/** The manager's content store, by cid. */
module Store {
  import opened Text

  /** The archive for a prefetch request: files that are absent are skipped. */
  function Archive(storage: map<string, Bytes>, files: seq<string>): seq<(string, Bytes)> {
    if files == [] then []
    else
      var f := files[|files| - 1];
      Archive(storage, files[..|files| - 1]) + (if f in storage then [(f, storage[f])] else [])
  }

  ghost predicate Carries(archive: seq<(string, Bytes)>, c: string) {
    exists m :: m in archive && m.0 == c
  }

  lemma CarriesLast(c: string, archive: seq<(string, Bytes)>)
    requires archive != []
    ensures Carries(archive, c) <==> Carries(archive[..|archive| - 1], c) || c == archive[|archive| - 1].0
  {
    var front, last := archive[..|archive| - 1], archive[|archive| - 1];
    assert archive == front + [last];
    assert last in archive;
    if Carries(front, c) {
      var m :| m in front && m.0 == c;
      assert m in archive;
    }
  }

  lemma {:induction false} ArchiveHas(storage: map<string, Bytes>, files: seq<string>)
    ensures forall m :: m in Archive(storage, files) ==> m.0 in storage && m.1 == storage[m.0]
    ensures forall c :: Carries(Archive(storage, files), c) <==> c in files && c in storage
  {
    if files != [] {
      var front, f := files[..|files| - 1], files[|files| - 1];
      ArchiveHas(storage, front);
      assert files == front + [f];
      var archive := Archive(storage, files);
      if f in storage {
        assert archive[..|archive| - 1] == Archive(storage, front);
        forall c {
          CarriesLast(c, archive);
        }
      }
    }
  }

  /** The archive keeps the order of the request. */
  lemma {:induction false} ArchiveInOrder(storage: map<string, Bytes>, a: seq<string>, file: string, b: seq<string>)
    ensures Archive(storage, a + b) == Archive(storage, a) + Archive(storage, b)
    ensures Archive(storage, [file]) == if file in storage then [(file, storage[file])] else []
  {
    assert [file][..0] == [];
    if b == [] {
      assert a + b == a;
    } else {
      assert (a + b)[..|a + b| - 1] == a + b[..|b| - 1];
      ArchiveInOrder(storage, a, file, b[..|b| - 1]);
    }
  }

  datatype Status = Ok | NotFound

  /** A push that finds the cid present leaves the store alone. */
  function Pushed(storage: map<string, Bytes>, cid: string, body: Bytes): map<string, Bytes> {
    if cid in storage then storage else storage[cid := body]
  }

  class Manager {
    var storage: map<string, Bytes>

    constructor ()
      ensures storage == map[]
    {
      storage := map[];
    }

    method HandleQuery(cid: string) returns (status: Status)
      ensures status == Ok <==> cid in storage
    {
      status := if cid in storage then Ok else NotFound;
    }

    method HandlePush(cid: string, body: Bytes) returns (status: Status)
      modifies this
      ensures status == Ok && storage == Pushed(old(storage), cid, body)
    {
      if cid !in storage {
        storage := storage[cid := body];
      }
      status := Ok;
    }

    /** The archive is assembled in a temporary file of the store itself, which
        is removed again: the store is unchanged exactly when no stored cid has
        the temporary name. */
    method HandlePreFetch(files: seq<string>, tmpFileName: string) returns (archive: seq<(string, Bytes)>)
      modifies this
      ensures tmpFileName !in files ==> archive == Archive(old(storage), files)
      ensures storage == old(storage) - {tmpFileName}
      ensures storage == old(storage) <==> tmpFileName !in old(storage)
    {
      ghost var before := storage;
      storage := storage[tmpFileName := ""];
      archive := [];
      for k := 0 to |files|
        invariant storage == before[tmpFileName := ""]
        invariant tmpFileName !in files ==> archive == Archive(before, files[..k])
      {
        var file := files[k];
        assert files[..k + 1][..k] == files[..k];
        assert file in files;
        if file in storage {
          archive := archive + [(file, storage[file])];
        }
      }
      assert files[..|files|] == files;
      storage := storage - {tmpFileName};
      assert tmpFileName !in storage;
      assert storage == before - {tmpFileName};
      if tmpFileName !in before {
        assert storage == before;
      }
    }
  }
}
