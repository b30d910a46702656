/** How the kernel walks a path below a directory: every component but the last
    one of a name is followed through symlinks. */
module PathWalk {
  import opened Text

  /** Path components below the directory. */
  type Path = seq<string>

  datatype Kind = IsDir | IsLink(target: string) | IsFile

  type Tree = map<Path, Kind>

  /** Where a walk ends, and how many links it may still follow; beyond the
      directory when a link is absolute or climbs out. */
  datatype Place = Inside(path: Path, links: nat) | Outside | Broken

  const MAX_LINKS: nat := 40

  /** A name that is a file's own name. */
  predicate Proper(name: string) {
    name != "" && name != "." && name != ".."
  }

  predicate ProperPath(p: Path) {
    forall c :: c in p ==> Proper(c)
  }

  function Parent(p: Path): Path
    requires p != []
  {
    p[..|p| - 1]
  }

  function Last(p: Path): string
    requires p != []
  {
    p[|p| - 1]
  }

  predicate Absolute(target: string) {
    target != "" && target[0] == '/'
  }

  /** From directory `at` along `rest`, following links, to a directory. */
  function Walk(t: Tree, at: Path, rest: seq<string>, links: nat): Place
    decreases links, |rest|
  {
    if rest == [] then Inside(at, links)
    else if rest[0] == "" || rest[0] == "." then Walk(t, at, rest[1..], links)
    else if rest[0] == ".." then
      if at == [] then Outside else Walk(t, Parent(at), rest[1..], links)
    else if at + [rest[0]] !in t then Broken
    else
      match t[at + [rest[0]]]
      case IsDir => Walk(t, at + [rest[0]], rest[1..], links)
      case IsFile => Broken
      case IsLink(target) =>
        if links == 0 then Broken
        else if Absolute(target) then Outside
        else Walk(t, at, Split(target, '/') + rest[1..], links - 1)
  }

  /** The directory that `p` leads to, its last component followed as well. */
  function Follow(t: Tree, p: Path): Place {
    Walk(t, [], p, MAX_LINKS)
  }

  /** The name itself, with only the directories above it followed. */
  function PlaceOf(t: Tree, p: Path): Place
    requires p != []
  {
    match Follow(t, Parent(p))
    case Inside(q, links) => Inside(q + [Last(p)], links)
    case elsewhere => elsewhere
  }

  predicate Has(t: Tree, p: Path) {
    p == [] || (PlaceOf(t, p).Inside? && PlaceOf(t, p).path in t)
  }

  /** Where the name will be once its missing directories have been made. */
  function Lands(t: Tree, p: Path): Place {
    if p == [] then Inside([], MAX_LINKS)
    else
      match Follow(t, Parent(p))
      case Inside(q, links) => Inside(q + [Last(p)], links)
      case Outside => Outside
      case Broken =>
        if Has(t, Parent(p)) then Broken
        else
          match Lands(t, Parent(p))
          case Inside(q, links) => Inside(q + [Last(p)], links)
          case elsewhere => elsewhere
  }

  // ----- trees -----

  /** A directory of the tree; the base directory is one. */
  ghost predicate DirAt(t: Tree, p: Path) {
    p == [] || (p in t && t[p] == IsDir)
  }

  ghost predicate HasParent(t: Tree, p: Path) {
    p != [] && DirAt(t, Parent(p))
  }

  /** Every entry sits in a directory; asked for one entry at a time. */
  ghost predicate Closed(t: Tree) {
    forall p {:trigger HasParent(t, p)} :: p in t ==> HasParent(t, p)
  }

  ghost predicate Extends(t: Tree, t': Tree) {
    forall p :: p in t ==> p in t' && t'[p] == t[p]
  }

  // ----- walking in pieces -----

  lemma AppendAfter(a: seq<string>, x: seq<string>, y: seq<string>)
    requires x != []
    ensures (x + y)[0] == x[0] && (x + y)[1..] == x[1..] + y
    ensures a + (x[1..] + y) == a + x[1..] + y
  {
  }

  /** A walk goes on from where its first part ends. */
  lemma {:induction false} WalkAppend(t: Tree, at: Path, x: seq<string>, y: seq<string>, links: nat)
    ensures Walk(t, at, x + y, links) ==
            match Walk(t, at, x, links)
            case Inside(q, left) => Walk(t, q, y, left)
            case elsewhere => elsewhere
    decreases links, |x|
  {
    if x == [] {
      assert x + y == y;
    } else {
      var next := at + [x[0]];
      AppendAfter([], x, y);
      if x[0] == "" || x[0] == "." {
        WalkAppend(t, at, x[1..], y, links);
      } else if x[0] == ".." {
        if at != [] {
          WalkAppend(t, Parent(at), x[1..], y, links);
        }
      } else if next in t {
        if t[next] == IsDir {
          WalkAppend(t, next, x[1..], y, links);
        } else if t[next].IsLink? && links > 0 && !Absolute(t[next].target) {
          AppendAfter(Split(t[next].target, '/'), x, y);
          WalkAppend(t, at, Split(t[next].target, '/') + x[1..], y, links - 1);
        }
      }
    }
  }

  /** One more component. */
  function Enter(t: Tree, q: Path, c: string, links: nat): Place {
    Walk(t, q, [c], links)
  }

  lemma FollowNext(t: Tree, p: Path)
    requires p != []
    ensures Follow(t, p) ==
            match Follow(t, Parent(p))
            case Inside(q, left) => Enter(t, q, Last(p), left)
            case elsewhere => elsewhere
  {
    assert p == Parent(p) + [Last(p)];
    WalkAppend(t, [], Parent(p), [Last(p)], MAX_LINKS);
  }

  lemma EnterPlain(t: Tree, q: Path, c: string, links: nat)
    requires Proper(c)
    ensures q + [c] !in t ==> Enter(t, q, c, links) == Broken
    ensures q + [c] in t && t[q + [c]] == IsDir ==> Enter(t, q, c, links) == Inside(q + [c], links)
    ensures q + [c] in t && t[q + [c]] == IsFile ==> Enter(t, q, c, links) == Broken
  {
    assert [c][1..] == [];
    assert Walk(t, q + [c], [], links) == Inside(q + [c], links);
  }

  /** A walk that arrives has arrived at a directory. */
  lemma {:induction false} WalkArrives(t: Tree, at: Path, rest: seq<string>, links: nat)
    requires Closed(t) && DirAt(t, at)
    ensures Walk(t, at, rest, links).Inside? ==> DirAt(t, Walk(t, at, rest, links).path)
    decreases links, |rest|
  {
    if rest != [] {
      var next := at + [rest[0]];
      if rest[0] == "" || rest[0] == "." {
        WalkArrives(t, at, rest[1..], links);
      } else if rest[0] == ".." {
        if at != [] {
          assert HasParent(t, at);
          WalkArrives(t, Parent(at), rest[1..], links);
        }
      } else if next in t {
        if t[next] == IsDir {
          WalkArrives(t, next, rest[1..], links);
        } else if t[next].IsLink? && links > 0 && !Absolute(t[next].target) {
          WalkArrives(t, at, Split(t[next].target, '/') + rest[1..], links - 1);
        }
      }
    }
  }

  lemma FollowArrives(t: Tree, p: Path)
    requires Closed(t) && Follow(t, p).Inside?
    ensures DirAt(t, Follow(t, p).path)
  {
    WalkArrives(t, [], p, MAX_LINKS);
  }

  lemma PlaceHasParent(t: Tree, p: Path)
    requires Closed(t) && p != [] && PlaceOf(t, p).Inside?
    ensures HasParent(t, PlaceOf(t, p).path)
  {
    FollowArrives(t, Parent(p));
    var q := Follow(t, Parent(p)).path;
    assert Parent(q + [Last(p)]) == q;
  }

  /** New entries do not turn a walk that has arrived. */
  lemma {:induction false} WalkGrows(t: Tree, t': Tree, at: Path, rest: seq<string>, links: nat)
    requires Extends(t, t')
    ensures !Walk(t, at, rest, links).Broken? ==> Walk(t', at, rest, links) == Walk(t, at, rest, links)
    decreases links, |rest|
  {
    if rest != [] {
      var next := at + [rest[0]];
      if rest[0] == "" || rest[0] == "." {
        WalkGrows(t, t', at, rest[1..], links);
      } else if rest[0] == ".." {
        if at != [] {
          WalkGrows(t, t', Parent(at), rest[1..], links);
        }
      } else if next in t {
        if t[next] == IsDir {
          WalkGrows(t, t', next, rest[1..], links);
        } else if t[next].IsLink? && links > 0 && !Absolute(t[next].target) {
          WalkGrows(t, t', at, Split(t[next].target, '/') + rest[1..], links - 1);
        }
      }
    }
  }

  lemma FollowGrows(t: Tree, t': Tree, p: Path)
    requires Extends(t, t') && !Follow(t, p).Broken?
    ensures Follow(t', p) == Follow(t, p)
  {
    WalkGrows(t, t', [], p, MAX_LINKS);
  }

  // ----- without links -----

  /** No link on the way down to `p`. */
  ghost predicate NoLinkAbove(t: Tree, p: Path) {
    forall n :: 0 < n < |p| ==> NoLinkAt(t, p[..n])
  }

  ghost predicate NoLinkAt(t: Tree, q: Path) {
    q in t ==> !t[q].IsLink?
  }

  lemma NoLinkParent(t: Tree, p: Path)
    requires p != [] && NoLinkAbove(t, p)
    ensures NoLinkAbove(t, Parent(p))
    ensures Parent(p) != [] ==> NoLinkAt(t, Parent(p))
  {
    forall n | 0 < n < |Parent(p)|
      ensures NoLinkAt(t, Parent(p)[..n])
    {
      assert Parent(p)[..n] == p[..n];
    }
  }

  /** Then a walk is the simple one, component by component. */
  lemma {:induction false} FollowPlain(t: Tree, p: Path)
    requires Closed(t) && ProperPath(p) && NoLinkAbove(t, p) && (p != [] ==> NoLinkAt(t, p))
    ensures Follow(t, p) == if DirAt(t, p) then Inside(p, MAX_LINKS) else Broken
    decreases |p|
  {
    if p != [] {
      NoLinkParent(t, p);
      FollowPlain(t, Parent(p));
      FollowNext(t, p);
      assert p == Parent(p) + [Last(p)];
      EnterPlain(t, Parent(p), Last(p), MAX_LINKS);
      assert p in t ==> HasParent(t, p);
    }
  }

  lemma PlacePlain(t: Tree, p: Path)
    requires p != [] && Closed(t) && ProperPath(p) && NoLinkAbove(t, p)
    ensures PlaceOf(t, p) == if DirAt(t, Parent(p)) then Inside(p, MAX_LINKS) else Broken
    ensures Has(t, p) <==> p in t
  {
    NoLinkParent(t, p);
    FollowPlain(t, Parent(p));
    assert p == Parent(p) + [Last(p)];
    assert p in t ==> HasParent(t, p);
  }

  // ----- names whose directories are missing -----

  /** A path that leads somewhere has its name there. */
  lemma FollowHas(t: Tree, p: Path)
    requires p != [] && Proper(Last(p)) && Follow(t, p).Inside?
    ensures Has(t, p)
  {
    FollowNext(t, p);
    var up := Follow(t, Parent(p));
    EnterPlain(t, up.path, Last(p), up.links);
  }

  /** Where a walk does not arrive, no longer one does. */
  lemma FollowStops(t: Tree, p: Path, k: nat, n: nat)
    requires k <= n <= |p| && !Follow(t, p[..k]).Inside?
    ensures Follow(t, p[..n]) == Follow(t, p[..k])
  {
    assert p[..n] == p[..k] + p[k..n];
    WalkAppend(t, [], p[..k], p[k..n], MAX_LINKS);
  }

  lemma FollowedAbove(t: Tree, p: Path)
    requires p != [] && Follow(t, p).Inside?
    ensures Follow(t, Parent(p)).Inside?
  {
    FollowNext(t, p);
  }

  /** Below a missing directory the place is that of the directory, one further. */
  lemma LandsBelow(t: Tree, p: Path)
    requires p != [] && Lands(t, p).Inside? && !Follow(t, Parent(p)).Inside?
    ensures |p| > 1 && Follow(t, Parent(p)).Broken? && !Has(t, Parent(p)) && Lands(t, Parent(p)).Inside?
    ensures var r, r' := Lands(t, p), Lands(t, Parent(p));
            r'.path != [] && r.path == r'.path + [Last(p)] && r.links == r'.links && Parent(r.path) == r'.path
  {
    assert Follow(t, []) == Inside([], MAX_LINKS);
  }

  lemma {:induction false} LandsMissing(t: Tree, p: Path)
    requires Closed(t) && p != [] && !Has(t, p) && Lands(t, p).Inside?
    ensures Lands(t, p).path !in t
    decreases |p|
  {
    var r := Lands(t, p).path;
    if Follow(t, Parent(p)).Broken? {
      LandsMissing(t, Parent(p));
      assert Parent(r) == Lands(t, Parent(p)).path;
      assert r in t ==> HasParent(t, r);
    }
  }

  /** A directory made at a missing name is what the name leads to. */
  lemma MadeFollows(t: Tree, t': Tree, p: Path)
    requires p != [] && Proper(Last(p)) && PlaceOf(t, p).Inside? && Extends(t, t')
    requires PlaceOf(t, p).path in t' && t'[PlaceOf(t, p).path] == IsDir
    ensures Follow(t', p) == PlaceOf(t, p)
  {
    FollowGrows(t, t', Parent(p));
    FollowNext(t', p);
    var up := Follow(t, Parent(p));
    EnterPlain(t', up.path, Last(p), up.links);
  }

  ghost predicate DirsAbove(t: Tree, r: Path) {
    forall m :: 0 < m < |r| ==> DirAt(t, r[..m])
  }

  /** A larger tree that has the missing directories has the name at the place
      where it would have been made. */
  lemma {:induction false} LandsIsPlace(t: Tree, t': Tree, p: Path)
    requires p != [] && ProperPath(p) && Extends(t, t') && Lands(t, p).Inside?
    requires DirsAbove(t', Lands(t, p).path)
    ensures PlaceOf(t', p) == Lands(t, p)
    decreases |p|
  {
    var r, up := Lands(t, p).path, Parent(p);
    if Follow(t, up).Inside? {
      FollowGrows(t, t', up);
    } else {
      var r' := Lands(t, up).path;
      assert r == r' + [Last(p)] && r[..|r'|] == r';
      forall m | 0 < m < |r'|
        ensures DirAt(t', r'[..m])
      {
        assert r'[..m] == r[..m];
      }
      LandsIsPlace(t, t', up);
      if r' != [] {
        assert DirAt(t', r[..|r'|]);
        MadeFollows(t', t', up);
      }
    }
  }

  /** Above a directory of a closed tree there are directories. */
  lemma {:induction false} DirsDown(t: Tree, p: Path, m: nat)
    requires Closed(t) && DirAt(t, p) && m <= |p|
    ensures DirAt(t, p[..m])
    ensures m > 0 ==> p[..m] in t
    decreases |p|
  {
    if m == |p| {
      assert p[..m] == p;
    } else {
      assert HasParent(t, p);
      DirsDown(t, Parent(p), m);
      assert Parent(p)[..m] == p[..m];
    }
  }

  /** Above a place that can be reached nothing is missing. */
  lemma ReachedAbove(t: Tree, p: Path, m: nat)
    requires Closed(t) && p != [] && Follow(t, Parent(p)).Inside? && 0 < m < |PlaceOf(t, p).path|
    ensures PlaceOf(t, p).path[..m] in t
  {
    var q := Follow(t, Parent(p)).path;
    FollowArrives(t, Parent(p));
    DirsDown(t, q, m);
    assert PlaceOf(t, p).path[..m] == q[..m];
  }

  lemma NotReached(t: Tree, p: Path, m: nat)
    requires Closed(t) && Lands(t, p).Inside? && 0 < m < |Lands(t, p).path| && Lands(t, p).path[..m] !in t
    ensures p != [] && Follow(t, Parent(p)).Broken?
  {
    if Follow(t, Parent(p)).Inside? {
      ReachedAbove(t, p, m);
    }
  }

  /** A missing directory above the place is the place of a shorter path. */
  lemma {:induction false} LandsPrefix(t: Tree, p: Path, m: nat) returns (k: nat)
    requires Closed(t) && Lands(t, p).Inside? && 0 < m < |Lands(t, p).path| && Lands(t, p).path[..m] !in t
    ensures 0 < k < |p| && !Has(t, p[..k])
    ensures Lands(t, p[..k]).Inside? && Lands(t, p[..k]).path == Lands(t, p).path[..m]
    decreases |p|
  {
    NotReached(t, p, m);
    var r, up := Lands(t, p).path, Parent(p);
    var r' := Lands(t, up).path;
    assert r == r' + [Last(p)];
    assert r[..m] == r'[..m];
    if m == |r'| {
      k := |up|;
    } else {
      k := LandsPrefix(t, up, m);
      assert up[..k] == p[..k];
    }
  }

  /** What is there above a place is a directory. */
  lemma {:induction false} LandsAbove(t: Tree, p: Path, m: nat)
    requires Closed(t) && p != [] && Lands(t, p).Inside? && 0 < m < |Lands(t, p).path|
    ensures Lands(t, p).path[..m] in t ==> DirAt(t, Lands(t, p).path[..m])
    decreases |p|
  {
    var r, up := Lands(t, p).path, Parent(p);
    if Follow(t, up).Inside? {
      FollowArrives(t, up);
      DirsDown(t, Follow(t, up).path, m);
      assert r[..m] == Follow(t, up).path[..m];
    } else {
      LandsBelow(t, p);
      var r' := Lands(t, up).path;
      assert r[..m] == r'[..m];
      if m == |r'| {
        LandsMissing(t, up);
      } else {
        LandsAbove(t, up, m);
      }
    }
  }

  /** A name without a place stands below one that is there and no directory. */
  lemma NoPlace(t: Tree, p: Path)
    requires p != [] && ProperPath(p) && !Lands(t, p).Inside? && Lands(t, Parent(p)).Inside?
    ensures |p| > 1 && Follow(t, Parent(Parent(p))).Inside? && Has(t, Parent(p)) && !Follow(t, Parent(p)).Inside?
  {
    var up := Parent(p);
    assert Follow(t, []) == Inside([], MAX_LINKS);
    if Follow(t, up).Outside? {
      FollowNext(t, up);
      assert Last(up) in p;
      EnterPlain(t, Follow(t, Parent(up)).path, Last(up), Follow(t, Parent(up)).links);
    }
  }

  /** Where everything that is there above `p` is a directory, `p` lands where
      it says. */
  lemma {:induction false} LandsPlain(t: Tree, p: Path)
    requires Closed(t) && ProperPath(p) && p != []
    requires forall n :: 0 < n < |p| ==> OnlyDirAt(t, p[..n])
    ensures Lands(t, p) == Inside(p, MAX_LINKS)
    decreases |p|
  {
    var up := Parent(p);
    assert p == up + [Last(p)];
    if up != [] {
      forall n | 0 < n < |up|
        ensures OnlyDirAt(t, up[..n]) && NoLinkAt(t, up[..n])
      {
        assert up[..n] == p[..n];
      }
      assert OnlyDirAt(t, p[..|up|]);
      LandsPlain(t, up);
      FollowPlain(t, up);
      PlacePlain(t, up);
    }
  }

  ghost predicate OnlyDirAt(t: Tree, q: Path) {
    q in t ==> t[q] == IsDir
  }

  /** Directories all the way down. */
  lemma {:induction false} FollowDirs(t: Tree, p: Path)
    requires ProperPath(p) && forall n :: 0 < n <= |p| ==> DirAt(t, p[..n])
    ensures Follow(t, p) == Inside(p, MAX_LINKS)
    decreases |p|
  {
    if p != [] {
      var up := Parent(p);
      forall n | 0 < n <= |up|
        ensures DirAt(t, up[..n])
      {
        assert up[..n] == p[..n];
      }
      FollowDirs(t, up);
      assert p == up + [Last(p)] && p[..|p|] == p && DirAt(t, p[..|p|]);
      FollowNext(t, p);
      EnterPlain(t, up, Last(p), MAX_LINKS);
    }
  }

  ghost predicate LinkAt(t: Tree, p: Path, n: nat)
    requires n <= |p|
  {
    p[..n] in t && t[p[..n]].IsLink?
  }

  /** A walk that gets anywhere is the literal one, or has met a link on the
      path itself. */
  lemma {:induction false} LiteralOrLink(t: Tree, p: Path)
    requires ProperPath(p) && !Follow(t, p).Broken?
    ensures Follow(t, p) == Inside(p, MAX_LINKS) || exists n :: 0 < n <= |p| && LinkAt(t, p, n)
    decreases |p|
  {
    if p != [] {
      var up := Parent(p);
      FollowNext(t, p);
      LiteralOrLink(t, up);
      assert p == up + [Last(p)] && p[..|p|] == p;
      EnterPlain(t, up, Last(p), MAX_LINKS);
      if n :| 0 < n <= |up| && LinkAt(t, up, n) {
        assert up[..n] == p[..n];
        assert LinkAt(t, p, n);
      } else {
        assert p in t;
        assert t[p] == IsDir || LinkAt(t, p, |p|);
      }
    }
  }

  lemma PlaceOrLink(t: Tree, p: Path)
    requires p != [] && ProperPath(p) && !PlaceOf(t, p).Broken?
    ensures PlaceOf(t, p) == Inside(p, MAX_LINKS) || exists n :: 0 < n < |p| && LinkAt(t, p, n)
  {
    var up := Parent(p);
    LiteralOrLink(t, up);
    assert p == up + [Last(p)];
    if n :| 0 < n <= |up| && LinkAt(t, up, n) {
      assert up[..n] == p[..n];
      assert LinkAt(t, p, n);
    }
  }

  // ----- what links mean -----

  /** `n` steps up, then down along `r`. */
  function UpAndDown(n: nat, r: Path): (parts: seq<string>)
    ensures |parts| == n + |r|
  {
    if n == 0 then r else [".."] + UpAndDown(n - 1, r)
  }

  lemma {:induction false} UpAndDownFree(n: nat, r: Path)
    requires AllFree(r, '/')
    ensures AllFree(UpAndDown(n, r), '/')
  {
    if n > 0 {
      UpAndDownFree(n - 1, r);
      assert Free("..", '/');
    }
  }

  /** Down along directories that are there. */
  lemma {:induction false} WalkDown(t: Tree, at: Path, r: Path, links: nat)
    requires ProperPath(r) && forall m :: 0 < m <= |r| ==> DirAt(t, at + r[..m])
    ensures Walk(t, at, r, links) == Inside(at + r, links)
    decreases |r|
  {
    if r == [] {
      assert at + r == at;
    } else {
      var next, rest := at + [r[0]], r[1..];
      assert at + r[..1] == next && DirAt(t, at + r[..1]);
      assert r[0] in r;
      forall m | 0 < m <= |rest|
        ensures DirAt(t, next + rest[..m])
      {
        assert next + rest[..m] == at + r[..m + 1];
      }
      WalkDown(t, next, rest, links);
      assert next + rest == at + r;
    }
  }

  lemma {:induction false} WalkUpAndDown(t: Tree, at: Path, n: nat, r: Path, links: nat)
    requires ProperPath(r)
    ensures n > |at| ==> Walk(t, at, UpAndDown(n, r), links) == Outside
    ensures n <= |at| && (forall m :: 0 < m <= |r| ==> DirAt(t, at[..|at| - n] + r[..m])) ==>
              Walk(t, at, UpAndDown(n, r), links) == Inside(at[..|at| - n] + r, links)
    decreases n
  {
    if n == 0 {
      assert at[..|at|] == at;
      if forall m :: 0 < m <= |r| ==> DirAt(t, at[..|at| - n] + r[..m]) {
        WalkDown(t, at, r, links);
      }
    } else if at != [] {
      assert UpAndDown(n, r)[1..] == UpAndDown(n - 1, r);
      WalkUpAndDown(t, Parent(at), n - 1, r, links);
      assert n <= |at| ==> Parent(at)[..|at| - n] == at[..|at| - n];
    }
  }

  lemma EnterLink(t: Tree, q: Path, c: string, links: nat)
    requires Proper(c) && q + [c] in t && t[q + [c]].IsLink?
    ensures Enter(t, q, c, links) ==
            if links == 0 then Broken
            else if Absolute(t[q + [c]].target) then Outside
            else Walk(t, q, Split(t[q + [c]].target, '/'), links - 1)
  {
    assert [c][1..] == [];
    assert Split(t[q + [c]].target, '/') + [] == Split(t[q + [c]].target, '/');
  }

  lemma DotsFirst(s: string, parts: seq<string>)
    requires |parts| >= 1 && Free(parts[0], '/') && parts[0] != "" && s == Join(parts, '/')
    ensures !Absolute(s)
  {
    assert parts[0][0] in parts[0];
  }

  /** In a directory below the base, a link that climbs `n` steps and then goes
      down leads where it says, one link poorer; climbing too far leads out. */
  lemma RelativeLink(t: Tree, q: Path, name: string, n: nat, r: Path)
    requires Closed(t) && ProperPath(q) && DirAt(t, q) && Proper(name) && ProperPath(r) && AllFree(r, '/')
    requires n + |r| > 0 && q + [name] in t && t[q + [name]] == IsLink(Join(UpAndDown(n, r), '/'))
    ensures n > |q| ==> Follow(t, q + [name]) == Outside
    ensures n <= |q| && (forall m :: 0 < m <= |r| ==> DirAt(t, q[..|q| - n] + r[..m])) ==>
              Follow(t, q + [name]) == Inside(q[..|q| - n] + r, MAX_LINKS - 1)
  {
    var parts := UpAndDown(n, r);
    UpAndDownFree(n, r);
    SplitJoin(parts, '/');
    assert parts[0] in parts;
    assert n == 0 ==> parts[0] == r[0] && r[0] in r;
    DotsFirst(Join(parts, '/'), parts);
    DirFollows(t, q);
    FollowNext(t, q + [name]);
    assert Parent(q + [name]) == q;
    EnterLink(t, q, name, MAX_LINKS);
    WalkUpAndDown(t, q, n, r, MAX_LINKS - 1);
  }

  /** A directory of a tree is where its path leads. */
  lemma DirFollows(t: Tree, q: Path)
    requires Closed(t) && ProperPath(q) && DirAt(t, q)
    ensures Follow(t, q) == Inside(q, MAX_LINKS)
  {
    forall n | 0 < n <= |q|
      ensures DirAt(t, q[..n])
    {
      DirsDown(t, q, n);
    }
    FollowDirs(t, q);
  }

  /** An absolute link leads out, wherever it is. */
  lemma AbsoluteLink(t: Tree, q: Path, name: string, target: string)
    requires Closed(t) && ProperPath(q) && DirAt(t, q) && Proper(name)
    requires q + [name] in t && t[q + [name]] == IsLink("/" + target)
    ensures Follow(t, q + [name]) == Outside
  {
    DirFollows(t, q);
    FollowNext(t, q + [name]);
    assert Parent(q + [name]) == q;
    EnterLink(t, q, name, MAX_LINKS);
  }

  /** Each name is a link to the next one, the last one a directory. */
  ghost predicate LinkChain(t: Tree, names: seq<string>) {
    && names != [] && (forall name :: name in names ==> Proper(name) && Free(name, '/'))
    && (forall k :: 0 <= k < |names| - 1 ==> [names[k]] in t && t[[names[k]]] == IsLink(names[k + 1]))
    && DirAt(t, [names[|names| - 1]])
  }

  lemma {:induction false} WalkChain(t: Tree, names: seq<string>, links: nat)
    requires LinkChain(t, names)
    ensures Walk(t, [], [names[0]], links) ==
            if |names| - 1 <= links then Inside([names[|names| - 1]], links - (|names| - 1)) else Broken
    decreases |names|
  {
    var name := names[0];
    assert [] + [name] == [name] && name in names;
    if |names| == 1 {
      EnterPlain(t, [], name, links);
    } else {
      var rest := names[1..];
      assert rest[0] in names && Free(rest[0], '/') && !Absolute(rest[0]);
      EnterLink(t, [], name, links);
      assert forall c :: c in rest ==> c in names;
      if links > 0 {
        WalkChain(t, rest, links - 1);
      }
    }
  }

  /** Forty links one after the other arrive, one more does not. */
  lemma ChainLimit(t: Tree, names: seq<string>)
    requires LinkChain(t, names)
    ensures Follow(t, [names[0]]) ==
            if |names| <= 41 then Inside([names[|names| - 1]], 41 - |names|) else Broken
  {
    WalkChain(t, names, MAX_LINKS);
  }

  predicate Skipped(c: string) {
    c == "" || c == "."
  }

  /** A path text without its empty components and single dots. */
  function Squeezed(rest: seq<string>): seq<string> {
    if rest == [] then []
    else if Skipped(rest[0]) then Squeezed(rest[1..])
    else [rest[0]] + Squeezed(rest[1..])
  }

  lemma {:induction false} SqueezedConcat(a: seq<string>, b: seq<string>)
    ensures Squeezed(a + b) == Squeezed(a) + Squeezed(b)
  {
    if a == [] {
      assert a + b == b;
    } else {
      SqueezedConcat(a[1..], b);
      AppendAfter([], a, b);
      assert [a[0]] + (Squeezed(a[1..]) + Squeezed(b)) == [a[0]] + Squeezed(a[1..]) + Squeezed(b);
    }
  }

  lemma {:induction false} SqueezedTwice(a: seq<string>)
    ensures Squeezed(Squeezed(a)) == Squeezed(a)
  {
    if a != [] {
      SqueezedTwice(a[1..]);
      if !Skipped(a[0]) {
        assert Squeezed(a)[0] == a[0] && Squeezed(a)[1..] == Squeezed(a[1..]);
      }
    }
  }

  /** Doubled separators and single dots make no difference. */
  lemma {:induction false} WalkSqueezed(t: Tree, at: Path, rest: seq<string>, links: nat)
    ensures Walk(t, at, rest, links) == Walk(t, at, Squeezed(rest), links)
    decreases links, |rest|
  {
    if rest != [] {
      var next, tail := at + [rest[0]], rest[1..];
      if Skipped(rest[0]) {
        WalkSqueezed(t, at, tail, links);
      } else {
        assert Squeezed(rest)[0] == rest[0] && Squeezed(rest)[1..] == Squeezed(tail);
        if rest[0] == ".." {
          if at != [] {
            WalkSqueezed(t, Parent(at), tail, links);
          }
        } else if next in t {
          if t[next] == IsDir {
            WalkSqueezed(t, next, tail, links);
          } else if t[next].IsLink? && links > 0 && !Absolute(t[next].target) {
            var parts := Split(t[next].target, '/');
            WalkSqueezed(t, at, parts + tail, links - 1);
            WalkSqueezed(t, at, parts + Squeezed(tail), links - 1);
            SqueezedConcat(parts, tail);
            SqueezedConcat(parts, Squeezed(tail));
            SqueezedTwice(tail);
          }
        }
      }
    }
  }

  /** A link to a neighbour directory. */
  lemma FollowLink(t: Tree, name: string, target: string)
    requires Proper(name) && Proper(target) && '/' !in target
    requires [name] in t && t[[name]] == IsLink(target) && [target] in t && t[[target]] == IsDir
    ensures Follow(t, [name]) == Inside([target], MAX_LINKS - 1)
  {
    assert [name][1..] == [] && [] + [name] == [name] && [] + [target] == [target];
    assert Split(target, '/') + [name][1..] == [target];
    assert Follow(t, [name]) == Walk(t, [], [target], MAX_LINKS - 1);
    EnterPlain(t, [], target, MAX_LINKS - 1);
  }
}
