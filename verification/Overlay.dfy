/** What a container sees through a stack of layers: overlayfs lookup with
    whiteouts, opaque directories and merging, topmost layer first. */
module Overlay {
  import opened Text

  /** Path components below the root. */
  type Path = seq<string>

  datatype Entry =
    | File(content: Bytes)
    | Dir(opaqueDir: bool)
    | Symlink(target: string)
    | DeadLink                  // a symlink whose target cannot be read
    | Special
    | Whiteout

  type Layer = map<Path, Entry>

  datatype Found = Absent | Leaf(entry: Entry) | Merged(dirs: seq<Layer>)

  /** The layers that take part in directory `p`, given that one above does. */
  function DirsBelow(stack: seq<Layer>, p: Path): seq<Layer> {
    if stack == [] then []
    else if p !in stack[0] then DirsBelow(stack[1..], p)
    else if !stack[0][p].Dir? then []
    else [stack[0]] + (if stack[0][p].opaqueDir then [] else DirsBelow(stack[1..], p))
  }

  /** First layer that says something about `p` wins. */
  function Scan(stack: seq<Layer>, p: Path): Found {
    if stack == [] then Absent
    else if p !in stack[0] then Scan(stack[1..], p)
    else
      match stack[0][p]
      case Whiteout => Absent
      case Dir(_) => Merged(DirsBelow(stack, p))
      case leaf => Leaf(leaf)
  }

  function Look(stack: seq<Layer>, p: Path): Found {
    if p == [] then Merged(stack)
    else
      match Look(stack, p[..|p| - 1])
      case Merged(dirs) => Scan(dirs, p)
      case _ => Absent
  }

  /** What a process inside the container can tell about `p`. */
  datatype Seen = Nothing | Thing(entry: Entry) | Directory

  function View(stack: seq<Layer>, p: Path): Seen {
    match Look(stack, p)
    case Absent => Nothing
    case Leaf(e) => Thing(e)
    case Merged(_) => Directory
  }

  // ----- the simple reading: leftmost wins -----

  /** The layers that have `p`, in order. */
  function Having(stack: seq<Layer>, p: Path): (r: seq<Layer>)
    ensures forall layer :: layer in r ==> layer in stack && p in layer
  {
    if stack == [] then []
    else if p in stack[0] then [stack[0]] + Having(stack[1..], p)
    else Having(stack[1..], p)
  }

  /** Every layer has its entries in directories, and above `p` there are only
      plain directories. */
  ghost predicate PlainAbove(stack: seq<Layer>, p: Path) {
    forall layer, n :: layer in stack && 0 < n < |p| ==> PlainAt(layer, p, n)
  }

  ghost predicate PlainAt(layer: Layer, p: Path, n: nat)
    requires n <= |p|
  {
    && (p[..n] in layer ==> layer[p[..n]] == Dir(false))
    && (n < |p| && p[..n + 1] in layer ==> p[..n] in layer)
  }

  lemma {:induction false} DirsBelowHaving(stack: seq<Layer>, p: Path)
    requires forall layer :: layer in stack && p in layer ==> layer[p] == Dir(false)
    ensures DirsBelow(stack, p) == Having(stack, p)
  {
    if stack != [] {
      DirsBelowHaving(stack[1..], p);
    }
  }

  lemma {:induction false} HavingTwice(stack: seq<Layer>, q: Path, p: Path)
    requires forall layer :: layer in stack && p in layer ==> q in layer
    ensures Having(Having(stack, q), p) == Having(stack, p)
  {
    if stack != [] {
      HavingTwice(stack[1..], q, p);
      if q in stack[0] {
        var rest := Having(stack[1..], q);
        assert ([stack[0]] + rest)[1..] == rest;
      }
    }
  }

  lemma {:induction false} ScanHaving(stack: seq<Layer>, p: Path)
    ensures Scan(stack, p) == Scan(Having(stack, p), p)
  {
    if stack != [] {
      ScanHaving(stack[1..], p);
      DirsBelowSame(stack, p);
    }
  }

  lemma {:induction false} DirsBelowSame(stack: seq<Layer>, p: Path)
    ensures DirsBelow(stack, p) == DirsBelow(Having(stack, p), p)
  {
    if stack != [] {
      DirsBelowSame(stack[1..], p);
      var rest := Having(stack[1..], p);
      assert ([stack[0]] + rest)[1..] == rest;
    }
  }

  /** Where only plain directories lie above, the merged directory at `p[..n]`
      is made of the layers that have it. */
  lemma {:induction false} PlainLook(stack: seq<Layer>, p: Path, n: nat)
    requires n < |p| && PlainAbove(stack, p)
    ensures n == 0 ==> Look(stack, p[..n]) == Merged(stack)
    ensures n > 0 ==>
              Look(stack, p[..n]) == if Having(stack, p[..n]) == [] then Absent else Merged(Having(stack, p[..n]))
  {
    if n > 0 {
      var q, up := p[..n], p[..n - 1];
      assert q[..|q| - 1] == up;
      PlainLook(stack, p, n - 1);
      forall layer | layer in stack
        ensures PlainAt(layer, p, n) && (n > 1 ==> PlainAt(layer, p, n - 1))
      {
      }
      PlainScan(stack, q);
      if n > 1 {
        HavingTwice(stack, up, q);
        PlainScan(Having(stack, up), q);
      }
    }
  }

  lemma PlainScan(stack: seq<Layer>, q: Path)
    requires forall layer :: layer in stack && q in layer ==> layer[q] == Dir(false)
    ensures Scan(stack, q) == if Having(stack, q) == [] then Absent else Merged(Having(stack, q))
  {
    ScanHaving(stack, q);
    DirsBelowHaving(stack, q);
    DirsBelowSame(stack, q);
  }

  function SeenAs(e: Entry): Seen {
    match e
    case Whiteout => Nothing
    case Dir(_) => Directory
    case leaf => Thing(leaf)
  }

  /** Looking among the layers that have the parent loses nothing. */
  lemma ScanBelowParent(stack: seq<Layer>, p: Path)
    requires |p| > 1 && PlainAbove(stack, p)
    ensures Scan(Having(stack, p[..|p| - 1]), p) == Scan(stack, p)
  {
    var up := p[..|p| - 1];
    forall layer | layer in stack && p in layer
      ensures up in layer
    {
      assert PlainAt(layer, p, |p| - 1);
      assert p[..|p| - 1 + 1] == p;
    }
    HavingTwice(stack, up, p);
    ScanHaving(Having(stack, up), p);
    ScanHaving(stack, p);
  }

  lemma ScanFirst(stack: seq<Layer>, p: Path)
    ensures var first := Having(stack, p);
            match Scan(stack, p)
            case Absent => first == [] || first[0][p].Whiteout?
            case Leaf(e) => first != [] && first[0][p] == e && !e.Whiteout? && !e.Dir?
            case Merged(_) => first != [] && first[0][p].Dir?
  {
    ScanHaving(stack, p);
  }

  /** Then a lookup is the simple one: the leftmost layer that has the path. */
  lemma LeftmostWins(stack: seq<Layer>, p: Path)
    requires p != [] && PlainAbove(stack, p)
    ensures View(stack, p) == if Having(stack, p) == [] then Nothing else SeenAs(Having(stack, p)[0][p])
  {
    PlainLook(stack, p, |p| - 1);
    ScanFirst(stack, p);
    if |p| > 1 {
      ScanBelowParent(stack, p);
    }
  }

  // ----- what ends a merge, and what hides -----

  ghost predicate PlainOrNone(layer: Layer, p: Path) {
    p in layer ==> layer[p] == Dir(false)
  }

  /** Down to the first layer that says something else at `p`, the layers that
      have `p` take part in the directory; that layer still does if it holds an
      opaque directory, and nothing below it does. */
  lemma {:induction false} MergeEnds(stack: seq<Layer>, p: Path, k: nat)
    requires k < |stack| && p in stack[k] && stack[k][p] != Dir(false)
    requires forall j :: 0 <= j < k ==> PlainOrNone(stack[j], p)
    ensures DirsBelow(stack, p) == Having(stack[..k], p) + (if stack[k][p].Dir? then [stack[k]] else [])
  {
    if k == 0 {
      assert stack[..0] == [];
    } else {
      assert PlainOrNone(stack[0], p);
      forall j | 0 <= j < k - 1
        ensures PlainOrNone(stack[1..][j], p)
      {
        assert PlainOrNone(stack[j + 1], p);
      }
      MergeEnds(stack[1..], p, k - 1);
      assert stack[..k][1..] == stack[1..][..k - 1];
      assert [stack[0]] + (Having(stack[..k][1..], p) + (if stack[k][p].Dir? then [stack[k]] else []))
             == [stack[0]] + Having(stack[..k][1..], p) + (if stack[k][p].Dir? then [stack[k]] else []);
    }
  }

  /** Nothing is seen below what is no directory, and the root is one. */
  lemma OnlyBelowDirectories(stack: seq<Layer>, p: Path, name: string)
    ensures View(stack, []) == Directory
    ensures View(stack, p) != Directory ==> View(stack, p + [name]) == Nothing
  {
    assert (p + [name])[..|p + [name]| - 1] == p;
  }

  lemma {:induction false} ScanMerges(stack: seq<Layer>, p: Path)
    ensures Scan(stack, p).Merged? ==> Scan(stack, p).dirs == DirsBelow(stack, p)
  {
    if stack != [] {
      ScanMerges(stack[1..], p);
    }
  }

  /** A file or whiteout in a middle layer hides what lower layers hold below it,
      even where the layers above have plain directories there. */
  lemma MiddleHides(stack: seq<Layer>, dir: string, name: string, k: nat)
    requires k < |stack| && [dir] in stack[k] && !stack[k][[dir]].Dir?
    requires forall j :: 0 <= j < k ==> PlainOrNone(stack[j], [dir]) && [dir, name] !in stack[j]
    ensures View(stack, [dir, name]) == Nothing
  {
    var p, q := [dir], [dir, name];
    assert q[..|q| - 1] == p && p[..|p| - 1] == [];
    assert Look(stack, []) == Merged(stack);
    assert Look(stack, p) == Scan(stack, p);
    MergeEnds(stack, p, k);
    ScanMerges(stack, p);
    forall layer | layer in DirsBelow(stack, p)
      ensures q !in layer
    {
      var j :| 0 <= j < k && stack[j] == layer;
    }
    NothingHere(DirsBelow(stack, p), q);
  }

  lemma {:induction false} NothingHere(stack: seq<Layer>, p: Path)
    requires forall layer :: layer in stack ==> p !in layer
    ensures Scan(stack, p) == Absent
  {
    if stack != [] {
      NothingHere(stack[1..], p);
    }
  }

  // ----- adding a layer that repeats part of the next one -----

  /** At `p` the layer `copy` says what `orig` says, with plain directories. */
  ghost predicate Repeats(copy: Layer, orig: Layer, p: Path) {
    p in copy ==>
      && p in orig
      && if copy[p].Dir? then !copy[p].opaqueDir && orig[p].Dir? else copy[p] == orig[p]
  }

  /** The top layer decides `p` alone. */
  ghost predicate Decides(top: Layer, p: Path) {
    p in top && (top[p].Dir? ==> top[p].opaqueDir)
  }

  /** Every entry sits in a directory of the same layer; asked for one entry at
      a time. */
  ghost predicate Closed(layer: Layer) {
    forall p {:trigger InDir(layer, p)} :: p in layer ==> InDir(layer, p)
  }

  ghost predicate InDir(layer: Layer, p: Path) {
    |p| > 1 ==> p[..|p| - 1] in layer && layer[p[..|p| - 1]].Dir?
  }

  /** `with` is `without` plus `copy` right in front of one `orig`, below `top`. */
  ghost predicate Near(with: seq<Layer>, without: seq<Layer>, copy: Layer, orig: Layer) {
    with == without || NearAt(with, without, copy, orig)
  }

  ghost predicate NearAt(with: seq<Layer>, without: seq<Layer>, copy: Layer, orig: Layer) {
    exists k :: 0 <= k < |without| && Slot(with, without, copy, orig, k)
  }

  ghost predicate Slot(with: seq<Layer>, without: seq<Layer>, copy: Layer, orig: Layer, k: nat)
    requires k < |without|
  {
    without[k] == orig && with == without[..k] + [copy] + without[k..]
  }

  ghost predicate SameFound(a: Found, b: Found, copy: Layer, orig: Layer) {
    match (a, b)
    case (Absent, Absent) => true
    case (Leaf(x), Leaf(y)) => x == y
    case (Merged(x), Merged(y)) => Near(x, y, copy, orig)
    case _ => false
  }

  lemma SlotCons(first: Layer, with: seq<Layer>, without: seq<Layer>, copy: Layer, orig: Layer)
    requires Near(with, without, copy, orig)
    ensures Near([first] + with, [first] + without, copy, orig)
  {
    if with != without {
      var k :| 0 <= k < |without| && Slot(with, without, copy, orig, k);
      var longer := [first] + without;
      assert longer[..k + 1] == [first] + without[..k];
      assert longer[k + 1..] == without[k..];
      assert [first] + with == longer[..k + 1] + [copy] + longer[k + 1..];
      assert Slot([first] + with, longer, copy, orig, k + 1);
    }
  }

  lemma SlotFront(without: seq<Layer>, copy: Layer, orig: Layer)
    requires |without| > 0 && without[0] == orig
    ensures Near([copy] + without, without, copy, orig)
  {
    assert without[..0] == [] && without[0..] == without;
    assert Slot([copy] + without, without, copy, orig, 0);
  }

  lemma SlotTail(with: seq<Layer>, without: seq<Layer>, copy: Layer, orig: Layer, k: nat)
    requires 0 < k < |without| && Slot(with, without, copy, orig, k)
    ensures with[0] == without[0] && Slot(with[1..], without[1..], copy, orig, k - 1)
  {
    assert without[1..][..k - 1] == without[..k][1..];
    assert without[1..][k - 1..] == without[k..];
    assert with[1..] == without[..k][1..] + [copy] + without[k..];
  }

  lemma {:induction false} DirsBelowNear(with: seq<Layer>, without: seq<Layer>, copy: Layer, orig: Layer, k: nat,
                                         p: Path)
    requires k < |without| && Slot(with, without, copy, orig, k)
    requires Repeats(copy, orig, p)
    ensures Near(DirsBelow(with, p), DirsBelow(without, p), copy, orig)
    ensures DirsBelow(with, p) == [] <==> DirsBelow(without, p) == []
  {
    if k == 0 {
      assert without[..0] == [] && without[0..] == without;
      assert with == [copy] + without && with[1..] == without;
      if p in copy && copy[p].Dir? {
        SlotFront(DirsBelow(without, p), copy, orig);
      }
    } else {
      SlotTail(with, without, copy, orig, k);
      DirsBelowNear(with[1..], without[1..], copy, orig, k - 1, p);
      SlotCons(with[0], DirsBelow(with[1..], p), DirsBelow(without[1..], p), copy, orig);
    }
  }

  lemma {:induction false} ScanNear(with: seq<Layer>, without: seq<Layer>, copy: Layer, orig: Layer, k: nat, p: Path)
    requires k < |without| && Slot(with, without, copy, orig, k)
    requires Repeats(copy, orig, p)
    ensures SameFound(Scan(with, p), Scan(without, p), copy, orig)
  {
    if k == 0 {
      assert without[..0] == [] && without[0..] == without;
      assert with == [copy] + without && with[1..] == without;
    } else {
      SlotTail(with, without, copy, orig, k);
      ScanNear(with[1..], without[1..], copy, orig, k - 1, p);
    }
    DirsBelowNear(with, without, copy, orig, k, p);
  }

  /** While `top` holds a directory at every step, it stays the first layer. */
  lemma {:induction false} TopStaysFirst(stack: seq<Layer>, p: Path)
    requires |stack| > 0 && Closed(stack[0])
    requires p == [] || (p in stack[0] && stack[0][p].Dir?)
    ensures Look(stack, p).Merged?
    ensures Look(stack, p).dirs != [] && Look(stack, p).dirs[0] == stack[0]
  {
    if p != [] {
      assert InDir(stack[0], p);
      TopStaysFirst(stack, p[..|p| - 1]);
    }
  }

  lemma DecidedByTop(stack: seq<Layer>, p: Path)
    requires |stack| > 0 && Closed(stack[0]) && p != [] && Decides(stack[0], p)
    ensures Look(stack, p) == Scan([stack[0]], p)
  {
    assert InDir(stack[0], p);
    TopStaysFirst(stack, p[..|p| - 1]);
  }

  /** The top layer decides `p` or something above it, alone. */
  ghost predicate Shut(top: Layer, p: Path) {
    exists n :: 0 < n <= |p| && ShutAt(top, p, n)
  }

  ghost predicate ShutAt(top: Layer, p: Path, n: nat)
    requires n <= |p|
  {
    Decides(top, p[..n])
  }

  /** Below what the top layer decides alone, the other layers do not matter. */
  lemma {:induction false} ShutSame(a: seq<Layer>, b: seq<Layer>, p: Path, n: nat)
    requires |a| > 0 && |b| > 0 && a[0] == b[0] && Closed(a[0])
    requires 0 < n <= |p| && ShutAt(a[0], p, n)
    ensures Look(a, p) == Look(b, p)
    decreases |p|
  {
    if n == |p| {
      assert p[..n] == p;
      DecidedByTop(a, p);
      DecidedByTop(b, p);
    } else {
      var up := p[..|p| - 1];
      assert up[..n] == p[..n];
      ShutSame(a, b, up, n);
    }
  }

  lemma {:induction false} LookNear(with: seq<Layer>, without: seq<Layer>, copy: Layer, orig: Layer, k: nat, p: Path)
    requires 0 < k < |without| && Slot(with, without, copy, orig, k)
    requires Closed(without[0])
    requires forall q :: Repeats(copy, orig, q) || Shut(without[0], q)
    ensures SameFound(Look(with, p), Look(without, p), copy, orig)
  {
    if p != [] {
      LookNear(with, without, copy, orig, k, p[..|p| - 1]);
      SlotTail(with, without, copy, orig, k);
      if !Repeats(copy, orig, p) {
        var n :| 0 < n <= |p| && ShutAt(without[0], p, n);
        ShutSame(with, without, p, n);
        SameFoundReflexive(Look(with, p), copy, orig);
      } else if Look(without, p[..|p| - 1]).Merged? {
        var x, y := Look(with, p[..|p| - 1]).dirs, Look(without, p[..|p| - 1]).dirs;
        if x == y {
          SameFoundReflexive(Scan(x, p), copy, orig);
        } else {
          var j :| 0 <= j < |y| && Slot(x, y, copy, orig, j);
          ScanNear(x, y, copy, orig, j, p);
        }
      }
    }
  }

  lemma SameFoundReflexive(f: Found, copy: Layer, orig: Layer)
    ensures SameFound(f, f, copy, orig)
  {
  }

  /** Putting a repeating layer right in front of the one it repeats changes
      nothing a container can see, even where the two disagree on a path that
      the container's own top layer shuts. */
  lemma InsertIsTransparent(stack: seq<Layer>, copy: Layer, k: nat, p: Path)
    requires 0 < k < |stack| && Closed(stack[0])
    requires forall q :: Repeats(copy, stack[k], q) || Shut(stack[0], q)
    ensures View(stack[..k] + [copy] + stack[k..], p) == View(stack, p)
  {
    var with := stack[..k] + [copy] + stack[k..];
    assert Slot(with, stack, copy, stack[k], k);
    LookNear(with, stack, copy, stack[k], k, p);
  }

  // ----- putting a layer at the end -----

  lemma {:induction false} HavingAppend(stack: seq<Layer>, last: Layer, p: Path)
    ensures Having(stack + [last], p) == Having(stack, p) + (if p in last then [last] else [])
  {
    if stack == [] {
      assert stack + [last] == [last];
    } else {
      HavingAppend(stack[1..], last, p);
      assert (stack + [last])[1..] == stack[1..] + [last];
    }
  }

  /** At the end of a list, where the edit would put it if the image were not
      listed, a layer stays unseen at a path exactly when it has nothing there
      or a layer before it has. */
  lemma AppendUnseenIff(stack: seq<Layer>, last: Layer, p: Path)
    requires p != [] && PlainAbove(stack + [last], p)
    ensures View(stack + [last], p) == View(stack, p) <==>
            p !in last || last[p].Whiteout? || Having(stack, p) != []
  {
    assert PlainAbove(stack, p) by {
      forall layer, n | layer in stack && 0 < n < |p|
        ensures PlainAt(layer, p, n)
      {
        assert layer in stack + [last];
      }
    }
    LeftmostWins(stack, p);
    LeftmostWins(stack + [last], p);
    HavingAppend(stack, last, p);
  }

  // ----- replacing layers -----

  ghost predicate SameAt(a: Layer, b: Layer, p: Path) {
    (p in a <==> p in b) && (p in a ==> a[p] == b[p])
  }

  /** Two layers that differ only where `top` shuts the path. */
  ghost predicate Twins(a: Layer, b: Layer, top: Layer) {
    forall p :: SameAt(a, b, p) || Shut(top, p)
  }

  ghost predicate AllTwins(x: seq<Layer>, y: seq<Layer>, top: Layer) {
    |x| == |y| && forall k :: 0 <= k < |x| ==> Twins(x[k], y[k], top)
  }

  ghost predicate TwinFound(a: Found, b: Found, top: Layer) {
    match (a, b)
    case (Absent, Absent) => true
    case (Leaf(x), Leaf(y)) => x == y
    case (Merged(x), Merged(y)) => AllTwins(x, y, top)
    case _ => false
  }

  lemma {:induction false} DirsBelowTwins(x: seq<Layer>, y: seq<Layer>, top: Layer, p: Path)
    requires AllTwins(x, y, top) && !Shut(top, p)
    ensures AllTwins(DirsBelow(x, p), DirsBelow(y, p), top)
  {
    if x != [] {
      assert Twins(x[0], y[0], top);
      assert SameAt(x[0], y[0], p);
      DirsBelowTwins(x[1..], y[1..], top, p);
    }
  }

  lemma {:induction false} ScanTwins(x: seq<Layer>, y: seq<Layer>, top: Layer, p: Path)
    requires AllTwins(x, y, top) && !Shut(top, p)
    ensures TwinFound(Scan(x, p), Scan(y, p), top)
  {
    if x != [] {
      assert Twins(x[0], y[0], top);
      assert SameAt(x[0], y[0], p);
      ScanTwins(x[1..], y[1..], top, p);
      DirsBelowTwins(x, y, top, p);
    }
  }

  lemma TwinReflexive(f: Found, top: Layer)
    ensures TwinFound(f, f, top)
  {
  }

  lemma {:induction false} LookTwins(x: seq<Layer>, y: seq<Layer>, p: Path)
    requires |x| > 0 && |y| > 0 && x[0] == y[0] && Closed(x[0]) && AllTwins(x, y, x[0])
    ensures TwinFound(Look(x, p), Look(y, p), x[0])
  {
    if p != [] {
      LookTwins(x, y, p[..|p| - 1]);
      if Shut(x[0], p) {
        var n :| 0 < n <= |p| && ShutAt(x[0], p, n);
        ShutSame(x, y, p, n);
        TwinReflexive(Look(x, p), x[0]);
      } else if Look(x, p[..|p| - 1]).Merged? {
        ScanTwins(Look(x, p[..|p| - 1]).dirs, Look(y, p[..|p| - 1]).dirs, x[0], p);
      }
    }
  }

  /** Layers may be exchanged for others that differ only where the container's
      own top layer shuts the path. */
  lemma ReplaceIsTransparent(x: seq<Layer>, y: seq<Layer>, p: Path)
    requires |x| > 0 && |y| > 0 && x[0] == y[0] && Closed(x[0]) && AllTwins(x, y, x[0])
    ensures View(x, p) == View(y, p)
  {
    LookTwins(x, y, p);
  }
}
