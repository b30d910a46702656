/** Turning a file tree into an index of content hashes plus a content store:
    the extraction of a committed layer, which rewrites the files in place, and
    the build of an image, which writes the index to an archive. Regular files
    are names of inodes, so two paths may share one. */
module ContentTree {
  import opened Text

  /** Path components below the root. */
  type Path = seq<string>

  datatype Node = Regular(inode: nat) | Directory | Symlink(target: string) | Device

  datatype Tree = Tree(nodes: map<Path, Node>, data: map<nat, Bytes>)

  ghost predicate Valid(t: Tree) {
    forall p :: p in t.nodes && t.nodes[p].Regular? ==> t.nodes[p].inode in t.data
  }

  ghost predicate IsRegular(t: Tree, p: Path) {
    p in t.nodes && t.nodes[p].Regular?
  }

  function ContentOf(t: Tree, p: Path): Bytes {
    if p in t.nodes && t.nodes[p].Regular? && t.nodes[p].inode in t.data then t.data[t.nodes[p].inode] else ""
  }

  /** A walk visits every path once. */
  ghost predicate Walks(order: seq<Path>, t: Tree) {
    && (forall p :: p in order <==> p in t.nodes)
    && (forall i, j :: 0 <= i < j < |order| ==> order[i] != order[j])
  }

  ghost predicate CollisionFree(hash: Bytes -> Bytes, t: Tree) {
    forall p, q :: IsRegular(t, p) && IsRegular(t, q) && hash(ContentOf(t, p)) == hash(ContentOf(t, q)) ==>
      ContentOf(t, p) == ContentOf(t, q)
  }

  // ----- extraction of a committed layer, in place -----

  datatype Extracted = Extracted(tree: Tree, store: map<Bytes, Bytes>)

  function ExtractOne(hash: Bytes -> Bytes, e: Extracted, p: Path): Extracted {
    if p in e.tree.nodes && e.tree.nodes[p].Regular? && e.tree.nodes[p].inode in e.tree.data then
      var n := e.tree.nodes[p].inode;
      var content := e.tree.data[n];
      Extracted(e.tree.(data := e.tree.data[n := hash(content)]), e.store[hash(content) := content])
    else e
  }

  function Extract(hash: Bytes -> Bytes, t: Tree, order: seq<Path>): Extracted {
    if order == [] then Extracted(t, map[])
    else ExtractOne(hash, Extract(hash, t, order[..|order| - 1]), order[|order| - 1])
  }

  /** The layer directory that is rewritten and the directory that is pushed. */
  class Directories {
    var nodes: map<Path, Node>
    var data: map<nat, Bytes>
    var target: map<Bytes, Bytes>

    constructor (t: Tree)
      ensures nodes == t.nodes && data == t.data && target == map[]
    {
      nodes, data, target := t.nodes, t.data, map[];
    }

    method ExtractAndSaveRegularFiles(hash: Bytes -> Bytes, order: seq<Path>)
      requires Valid(Tree(nodes, data)) && target == map[] && Walks(order, Tree(nodes, data))
      modifies this
      ensures Extracted(Tree(nodes, data), target) == Extract(hash, old(Tree(nodes, data)), order)
    {
      ghost var t := Tree(nodes, data);
      for k := 0 to |order|
        invariant Extracted(Tree(nodes, data), target) == Extract(hash, t, order[..k])
      {
        assert order[..k + 1][..k] == order[..k];
        SameShape(hash, t, order[..k]);
        var path := order[k];
        assert path in order;
        if nodes[path].Regular? {
          var inode := nodes[path].inode;
          var hashValue := hash(data[inode]);
          target := target[hashValue := data[inode]];
          data := data[inode := hashValue];
        }
      }
      assert order[..|order|] == order;
    }
  }

  /** Extraction renames nothing and changes no kind. */
  lemma {:induction false} SameShape(hash: Bytes -> Bytes, t: Tree, order: seq<Path>)
    ensures Extract(hash, t, order).tree.nodes == t.nodes
    ensures Extract(hash, t, order).tree.data.Keys == t.data.Keys
  {
    if order != [] {
      SameShape(hash, t, order[..|order| - 1]);
    }
  }

  function Iterate(hash: Bytes -> Bytes, n: nat, c: Bytes): Bytes {
    if n == 0 then c else hash(Iterate(hash, n - 1, c))
  }

  function Visits(t: Tree, n: nat, order: seq<Path>): nat {
    if order == [] then 0
    else
      var p := order[|order| - 1];
      Visits(t, n, order[..|order| - 1]) + (if p in t.nodes && t.nodes[p] == Regular(n) then 1 else 0)
  }

  /** Every visit of an inode hashes what the visit before left there. */
  lemma {:induction false} FinalStub(hash: Bytes -> Bytes, t: Tree, order: seq<Path>, n: nat)
    requires n in t.data
    ensures n in Extract(hash, t, order).tree.data
    ensures Extract(hash, t, order).tree.data[n] == Iterate(hash, Visits(t, n, order), t.data[n])
  {
    SameShape(hash, t, order);
    if order != [] {
      var front := order[..|order| - 1];
      FinalStub(hash, t, front, n);
      SameShape(hash, t, front);
    }
  }

  /** What the last visit that hashed to `h` has found. */
  function StoredUnder(hash: Bytes -> Bytes, t: Tree, order: seq<Path>, h: Bytes): Option<Bytes> {
    if order == [] then None
    else
      var front, p := order[..|order| - 1], order[|order| - 1];
      if p in t.nodes && t.nodes[p].Regular? && t.nodes[p].inode in t.data
         && hash(Iterate(hash, Visits(t, t.nodes[p].inode, front), t.data[t.nodes[p].inode])) == h
      then Some(Iterate(hash, Visits(t, t.nodes[p].inode, front), t.data[t.nodes[p].inode]))
      else StoredUnder(hash, t, front, h)
  }

  /** The push directory, told from the tree at the start: the last visit wins. */
  lemma {:induction false} StoreIsLast(hash: Bytes -> Bytes, t: Tree, order: seq<Path>, h: Bytes)
    ensures var store := Extract(hash, t, order).store;
            StoredUnder(hash, t, order, h) == if h in store then Some(store[h]) else None
  {
    if order != [] {
      var front, p := order[..|order| - 1], order[|order| - 1];
      StoreIsLast(hash, t, front, h);
      SameShape(hash, t, front);
      if p in t.nodes && t.nodes[p].Regular? && t.nodes[p].inode in t.data {
        FinalStub(hash, t, front, t.nodes[p].inode);
      }
    }
  }

  lemma {:induction false} StoreSound(hash: Bytes -> Bytes, t: Tree, order: seq<Path>, h: Bytes)
    requires h in Extract(hash, t, order).store
    ensures hash(Extract(hash, t, order).store[h]) == h
  {
    var front := order[..|order| - 1];
    if h in Extract(hash, t, front).store {
      StoreSound(hash, t, front, h);
    }
  }

  ghost predicate NoSharedFiles(t: Tree) {
    forall p, q :: IsRegular(t, p) && IsRegular(t, q) && t.nodes[p] == t.nodes[q] ==> p == q
  }

  lemma {:induction false} VisitsNone(t: Tree, n: nat, order: seq<Path>)
    requires forall p :: p in order && p in t.nodes ==> t.nodes[p] != Regular(n)
    ensures Visits(t, n, order) == 0
  {
    if order != [] {
      assert order[|order| - 1] in order;
      VisitsNone(t, n, order[..|order| - 1]);
    }
  }

  lemma {:induction false} VisitsAtLeast(t: Tree, n: nat, order: seq<Path>, i: nat)
    requires i < |order| && order[i] in t.nodes && t.nodes[order[i]] == Regular(n)
    ensures Visits(t, n, order) >= 1
  {
    var last := |order| - 1;
    if i < last {
      VisitsAtLeast(t, n, order[..last], i);
    }
  }

  lemma {:induction false} VisitsTwice(t: Tree, n: nat, order: seq<Path>, i: nat, j: nat)
    requires i < j < |order| && order[i] in t.nodes && order[j] in t.nodes
    requires t.nodes[order[i]] == Regular(n) && t.nodes[order[j]] == Regular(n)
    ensures Visits(t, n, order) >= 2
  {
    var last := |order| - 1;
    if j < last {
      VisitsTwice(t, n, order[..last], i, j);
    } else {
      VisitsAtLeast(t, n, order[..last], i);
    }
  }

  lemma {:induction false} VisitsOnce(t: Tree, order: seq<Path>, i: nat)
    requires i < |order| && IsRegular(t, order[i]) && NoSharedFiles(t)
    requires forall a, b :: 0 <= a < b < |order| ==> order[a] != order[b]
    ensures Visits(t, t.nodes[order[i]].inode, order) == 1
  {
    var last := |order| - 1;
    var n := t.nodes[order[i]].inode;
    if i < last {
      assert order[last] != order[i];
      VisitsOnce(t, order[..last], i);
    } else {
      forall p | p in order[..last] && p in t.nodes
        ensures t.nodes[p] != Regular(n)
      {
        var a :| 0 <= a < last && order[a] == p;
      }
      VisitsNone(t, n, order[..last]);
    }
  }

  /** While an inode is not shared, its store entry is made from its content. */
  lemma {:induction false} StoredWhenVisited(hash: Bytes -> Bytes, t: Tree, order: seq<Path>, i: nat)
    requires Valid(t) && NoSharedFiles(t) && i < |order| && IsRegular(t, order[i])
    requires forall a, b :: 0 <= a < b < |order| ==> order[a] != order[b]
    ensures hash(ContentOf(t, order[i])) in Extract(hash, t, order).store
  {
    var last := |order| - 1;
    var front := order[..last];
    SameShape(hash, t, front);
    if i < last {
      StoredWhenVisited(hash, t, front, i);
    } else {
      UntouchedContent(hash, t, front, order[last]);
    }
  }

  lemma UntouchedContent(hash: Bytes -> Bytes, t: Tree, front: seq<Path>, p: Path)
    requires Valid(t) && NoSharedFiles(t) && IsRegular(t, p) && p !in front
    ensures ContentOf(Extract(hash, t, front).tree, p) == ContentOf(t, p)
  {
    var n := t.nodes[p].inode;
    SameShape(hash, t, front);
    VisitsNone(t, n, front);
    FinalStub(hash, t, front, n);
  }

  /** Without shared inodes only contents of the tree are stored. */
  lemma {:induction false} StoreFrom(hash: Bytes -> Bytes, t: Tree, order: seq<Path>, h: Bytes)
    requires Valid(t) && NoSharedFiles(t) && h in Extract(hash, t, order).store
    requires forall a, b :: 0 <= a < b < |order| ==> order[a] != order[b]
    ensures exists p :: p in order && IsRegular(t, p) && Extract(hash, t, order).store[h] == ContentOf(t, p)
  {
    var last := |order| - 1;
    var front, p := order[..last], order[last];
    var before, after := Extract(hash, t, front), Extract(hash, t, order);
    SameShape(hash, t, front);
    assert p in order;
    if IsRegular(t, p) {
      UntouchedContent(hash, t, front, p);
    }
    if !(IsRegular(t, p) && h == hash(ContentOf(t, p))) {
      StoreFrom(hash, t, front, h);
      var q :| q in front && IsRegular(t, q) && before.store[h] == ContentOf(t, q);
      assert q in order && after.store[h] == ContentOf(t, q);
    }
  }

  /** Resolving every stub through the store gives the original tree back. */
  ghost predicate Preserved(t: Tree, e: Extracted) {
    && e.tree.nodes == t.nodes
    && forall p :: IsRegular(t, p) ==> ResolvesTo(e, p, ContentOf(t, p))
  }

  ghost predicate ResolvesTo(e: Extracted, p: Path, content: Bytes) {
    ContentOf(e.tree, p) in e.store && e.store[ContentOf(e.tree, p)] == content
  }

  /** The content of a file with several names, hashed once per name, does not
      come back to its first hash. Says nothing about files with one name. */
  ghost predicate NoHashCycle(hash: Bytes -> Bytes, t: Tree, order: seq<Path>) {
    forall p :: IsRegular(t, p) && Visits(t, t.nodes[p].inode, order) >= 2 ==>
      Iterate(hash, Visits(t, t.nodes[p].inode, order), ContentOf(t, p)) != hash(ContentOf(t, p))
  }

  lemma SharedIsLost(hash: Bytes -> Bytes, t: Tree, order: seq<Path>, p: Path, q: Path)
    requires Valid(t) && Walks(order, t) && NoHashCycle(hash, t, order)
    requires IsRegular(t, p) && IsRegular(t, q) && p != q && t.nodes[p] == t.nodes[q]
    ensures !ResolvesTo(Extract(hash, t, order), p, ContentOf(t, p))
  {
    var n, e := t.nodes[p].inode, Extract(hash, t, order);
    assert p in order && q in order;
    var i :| 0 <= i < |order| && order[i] == p;
    var j :| 0 <= j < |order| && order[j] == q;
    VisitsTwice(t, n, order, if i < j then i else j, if i < j then j else i);
    FinalStub(hash, t, order, n);
    SameShape(hash, t, order);
    var stub := ContentOf(e.tree, p);
    assert stub == Iterate(hash, Visits(t, n, order), ContentOf(t, p));
    if stub in e.store {
      StoreSound(hash, t, order, stub);
    }
  }

  lemma StubIsHash(hash: Bytes -> Bytes, t: Tree, order: seq<Path>, p: Path)
    requires Valid(t) && Walks(order, t) && NoSharedFiles(t) && IsRegular(t, p)
    ensures ContentOf(Extract(hash, t, order).tree, p) == hash(ContentOf(t, p))
    ensures hash(ContentOf(t, p)) in Extract(hash, t, order).store
  {
    assert p in order;
    var i :| 0 <= i < |order| && order[i] == p;
    var n := t.nodes[p].inode;
    VisitsOnce(t, order, i);
    FinalStub(hash, t, order, n);
    SameShape(hash, t, order);
    StoredWhenVisited(hash, t, order, i);
    assert Iterate(hash, 1, t.data[n]) == hash(Iterate(hash, 0, t.data[n]));
  }

  /** Extraction keeps the meaning of a tree exactly when no two of its paths
      share a file and its contents do not collide: a hard-linked file is hashed
      once per path, and its content is lost. */
  lemma PreservedIff(hash: Bytes -> Bytes, t: Tree, order: seq<Path>)
    requires Valid(t) && Walks(order, t) && NoHashCycle(hash, t, order)
    ensures Preserved(t, Extract(hash, t, order)) <==> NoSharedFiles(t) && CollisionFree(hash, t)
  {
    var e := Extract(hash, t, order);
    SameShape(hash, t, order);
    if !NoSharedFiles(t) {
      var p, q :| IsRegular(t, p) && IsRegular(t, q) && t.nodes[p] == t.nodes[q] && p != q;
      SharedIsLost(hash, t, order, p, q);
    } else {
      forall p | IsRegular(t, p)
        ensures ContentOf(e.tree, p) == hash(ContentOf(t, p)) && hash(ContentOf(t, p)) in e.store
      {
        StubIsHash(hash, t, order, p);
      }
      if CollisionFree(hash, t) {
        forall p | IsRegular(t, p)
          ensures ResolvesTo(e, p, ContentOf(t, p))
        {
          var h := hash(ContentOf(t, p));
          StoreSound(hash, t, order, h);
          StoreFrom(hash, t, order, h);
        }
      } else {
        var p, q :| IsRegular(t, p) && IsRegular(t, q)
                    && hash(ContentOf(t, p)) == hash(ContentOf(t, q)) && ContentOf(t, p) != ContentOf(t, q);
        assert !(ResolvesTo(e, p, ContentOf(t, p)) && ResolvesTo(e, q, ContentOf(t, q)));
      }
    }
  }

  function Regulars(t: Tree, order: seq<Path>): nat {
    if order == [] then 0
    else Regulars(t, order[..|order| - 1]) +
         (if order[|order| - 1] in t.nodes && t.nodes[order[|order| - 1]].Regular? then 1 else 0)
  }

  /** No more store entries than regular files, shared or not. */
  lemma {:induction false} StoreIsSmall(hash: Bytes -> Bytes, t: Tree, order: seq<Path>)
    ensures |Extract(hash, t, order).store| <= Regulars(t, order)
  {
    if order != [] {
      var front := order[..|order| - 1];
      StoreIsSmall(hash, t, front);
      SameShape(hash, t, front);
      var before := Extract(hash, t, front);
      var p := order[|order| - 1];
      if IsRegular(before.tree, p) {
        var content := ContentOf(before.tree, p);
        UpdateSize(before.store, hash(content), content);
      }
    }
  }

  lemma UpdateSize(m: map<Bytes, Bytes>, k: Bytes, v: Bytes)
    ensures |m[k := v]| <= |m| + 1
  {
    assert m[k := v].Keys == m.Keys + {k};
    assert |m[k := v]| == |m[k := v].Keys| && |m| == |m.Keys|;
  }

  /** For a tree that is kept, the store is exactly hash -> content. */
  lemma StoreIsExact(hash: Bytes -> Bytes, t: Tree, order: seq<Path>, h: Bytes, c: Bytes)
    requires Valid(t) && Walks(order, t) && NoSharedFiles(t) && CollisionFree(hash, t)
    ensures var store := Extract(hash, t, order).store;
            (h in store && store[h] == c) <==> exists p :: IsRegular(t, p) && ContentOf(t, p) == c && hash(c) == h
  {
    var store := Extract(hash, t, order).store;
    if h in store {
      StoreSound(hash, t, order, h);
      StoreFrom(hash, t, order, h);
    }
    if p :| IsRegular(t, p) && ContentOf(t, p) == c && hash(c) == h {
      StubIsHash(hash, t, order, p);
      StoreFrom(hash, t, order, h);
      StoreSound(hash, t, order, h);
    }
  }
}
