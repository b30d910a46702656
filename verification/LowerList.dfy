/** The `lower` file of a container layer: a ':'-separated list of layer
    directories, topmost first. Creating a container layer puts the image's
    `gear-work` directory into it, in front of the image's own entry. */
module LowerList {
  import opened Text

  /** Position of the first `x`, or the length when there is none. */
  function FirstIndex(list: seq<string>, x: string): (i: nat)
    ensures i <= |list| && x !in list[..i] && (i < |list| ==> list[i] == x)
  {
    if list == [] || list[0] == x then 0
    else
      var i := FirstIndex(list[1..], x) + 1;
      assert list[..i] == [list[0]] + list[1..][..i - 1];
      i
  }

  function InsertAt(list: seq<string>, i: nat, x: string): seq<string>
    requires i <= |list|
  {
    list[..i] + [x] + list[i..]
  }

  function Edit(lower: string, gearLink: string, gearWork: string): string {
    var list := Split(lower, ':');
    if gearWork in list then lower
    else Join(InsertAt(list, FirstIndex(list, gearLink), gearWork), ':')
  }

  method EditLower(lower: string, gearLink: string, gearWork: string) returns (newLower: string)
    ensures newLower == Edit(lower, gearLink, gearWork)
  {
    var list := Split(lower, ':');
    var hasAdded := false;
    for k := 0 to |list|
      invariant hasAdded <==> gearWork in list[..k]
    {
      if list[k] == gearWork {
        hasAdded := true;
      }
    }
    assert list[..|list|] == list;
    newLower := lower;
    if !hasAdded {
      var index := 0;
      while index < |list|
        invariant 0 <= index <= |list| && gearLink !in list[..index]
      {
        if list[index] == gearLink {
          break;
        }
        index := index + 1;
      }
      FirstIndexUnique(list, gearLink, index);
      newLower := Join(list[..index] + [gearWork] + list[index..], ':');
    }
  }

  lemma {:induction false} FirstIndexUnique(list: seq<string>, x: string, i: nat)
    requires i <= |list| && x !in list[..i] && (i < |list| ==> list[i] == x)
    ensures FirstIndex(list, x) == i
  {
    if i > 0 {
      assert list[..i] == [list[0]] + list[1..][..i - 1];
      FirstIndexUnique(list[1..], x, i - 1);
    }
  }

  lemma InsertedParts(list: seq<string>, i: nat, x: string)
    requires |list| >= 1 && i <= |list| && AllFree(list, ':') && Free(x, ':')
    ensures Split(Join(InsertAt(list, i, x), ':'), ':') == InsertAt(list, i, x)
  {
    SplitJoin(InsertAt(list, i, x), ':');
  }

  /** What one edit does to the list: nothing when the entry is there, else the
      entry goes right before the first mention of the image, or to the end. */
  lemma EditPlaces(lower: string, gearLink: string, gearWork: string)
    requires Free(gearWork, ':')
    ensures var list, list' := Split(lower, ':'), Split(Edit(lower, gearLink, gearWork), ':');
            && (gearWork in list ==> list' == list)
            && (gearWork !in list ==>
                  exists k | 0 <= k <= |list| ::
                    && list' == list[..k] + [gearWork] + list[k..]
                    && gearLink !in list[..k]
                    && (k < |list| ==> list[k] == gearLink))
  {
    var list := Split(lower, ':');
    var k := FirstIndex(list, gearLink);
    if gearWork !in list {
      InsertedParts(list, k, gearWork);
      assert Split(Edit(lower, gearLink, gearWork), ':') == list[..k] + [gearWork] + list[k..];
    }
  }

  lemma EditHolds(lower: string, gearLink: string, gearWork: string)
    requires Free(gearWork, ':')
    ensures gearWork in Split(Edit(lower, gearLink, gearWork), ':')
  {
    var list := Split(lower, ':');
    var k := FirstIndex(list, gearLink);
    if gearWork !in list {
      InsertedParts(list, k, gearWork);
      assert InsertAt(list, k, gearWork)[k] == gearWork;
    }
  }

  lemma {:induction false} JoinLength(x: seq<string>, y: seq<string>, w: string)
    requires |x| + |y| >= 1
    ensures |Join(x + [w] + y, ':')| == |Join(x + y, ':')| + |w| + 1
  {
    if |x| == 0 {
      assert x + [w] + y == [w] + y && x + y == y;
    } else if |x| == 1 && |y| == 0 {
      assert x + [w] + y == [x[0], w] && x + y == x;
      assert [x[0], w][1..] == [w];
    } else {
      JoinLength(x[1..], y, w);
      assert (x + [w] + y)[1..] == x[1..] + [w] + y;
      assert (x + y)[1..] == x[1..] + y;
    }
  }

  /** A second edit changes nothing, exactly when the entry holds no ':'. */
  lemma IdempotentIff(lower: string, gearLink: string, gearWork: string)
    ensures var once := Edit(lower, gearLink, gearWork);
            Edit(once, gearLink, gearWork) == once <==> Free(gearWork, ':')
  {
    var once := Edit(lower, gearLink, gearWork);
    if Free(gearWork, ':') {
      EditHolds(lower, gearLink, gearWork);
    } else {
      var list := Split(once, ':');
      var k := FirstIndex(list, gearLink);
      assert gearWork !in list;
      JoinSplit(once, ':');
      assert list[..k] + list[k..] == list;
      JoinLength(list[..k], list[k..], gearWork);
    }
  }

  // ----- taking the entry out again -----

  function Without(list: seq<string>, x: string): (r: seq<string>)
    ensures x !in r
    ensures x !in list ==> r == list
  {
    if list == [] then []
    else if list[0] == x then Without(list[1..], x)
    else [list[0]] + Without(list[1..], x)
  }

  lemma {:induction false} WithoutInserted(list: seq<string>, i: nat, x: string)
    requires i <= |list| && x !in list
    ensures Without(InsertAt(list, i, x), x) == list
  {
    var longer := InsertAt(list, i, x);
    if i == 0 {
      assert longer[1..] == list;
    } else {
      WithoutInserted(list[1..], i - 1, x);
      assert longer[1..] == InsertAt(list[1..], i - 1, x);
    }
  }

  function Erase(lower: string, gearWork: string): string {
    Join(Without(Split(lower, ':'), gearWork), ':')
  }

  /** Erasing the entry gives back the list that docker wrote, in its order. */
  lemma EraseUndoesEdit(lower: string, gearLink: string, gearWork: string)
    requires Free(gearWork, ':')
    ensures gearWork !in Split(lower, ':') ==>
              Erase(Edit(lower, gearLink, gearWork), gearWork) == lower
  {
    var list := Split(lower, ':');
    if gearWork !in list {
      var k := FirstIndex(list, gearLink);
      InsertedParts(list, k, gearWork);
      WithoutInserted(list, k, gearWork);
      JoinSplit(lower, ':');
    }
  }

  // ----- chains of container layers -----

  /** What docker writes down a chain of layers, topmost first: `base` for the
      lowest one, then for every child its parent's link and the parent's list. */
  function Plain(links: seq<string>, base: string): string {
    if links == [] then base else links[0] + ":" + Plain(links[1..], base)
  }

  /** What the lists hold when every layer of the chain is edited as it is made.
      A container has at least its `-init` layer below it. */
  function Chain(links: seq<string>, base: string, gearLink: string, gearWork: string): string {
    if links == [] then Edit(base, gearLink, gearWork)
    else Edit(links[0] + ":" + Chain(links[1..], base, gearLink, gearWork), gearLink, gearWork)
  }

  /** A child of a layer whose list holds the entry is left as docker wrote it. */
  lemma ChildOfEdited(link: string, parentLower: string, gearLink: string, gearWork: string)
    requires gearWork in Split(parentLower, ':')
    ensures var lower := link + ":" + parentLower; Edit(lower, gearLink, gearWork) == lower
  {
    SplitAppend(link, ':', parentLower);
  }

  lemma InsertBehind(link: string, list: seq<string>, k: nat, x: string)
    requires |list| >= 1 && k <= |list|
    ensures Join(InsertAt([link] + list, k + 1, x), ':') == link + ":" + Join(InsertAt(list, k, x), ':')
  {
    var longer := [link] + list;
    assert longer[..k + 1] == [link] + list[..k] && longer[k + 1..] == list[k..];
    assert InsertAt(longer, k + 1, x) == [link] + InsertAt(list, k, x);
    JoinConcat([link], InsertAt(list, k, x), ':');
  }

  lemma ChildParts(link: string, lower: string, k: nat, x: string)
    requires Free(link, ':') && link != x && k <= |Split(lower, ':')| && k == FirstIndex(Split(lower, ':'), x)
    ensures Split(link + ":" + lower, ':') == [link] + Split(lower, ':')
    ensures FirstIndex(Split(link + ":" + lower, ':'), x) == k + 1
  {
    SplitAtFirst(link, ':', lower);
    assert ([link] + Split(lower, ':'))[1..] == Split(lower, ':');
  }

  lemma EditChild(link: string, lower: string, gearLink: string, gearWork: string)
    requires Free(link, ':') && link != gearLink && link != gearWork && gearWork !in Split(lower, ':')
    ensures Edit(link + ":" + lower, gearLink, gearWork) == link + ":" + Edit(lower, gearLink, gearWork)
  {
    var list := Split(lower, ':');
    var k := FirstIndex(list, gearLink);
    ChildParts(link, lower, k, gearLink);
    assert gearWork !in [link] + list;
    InsertBehind(link, list, k, gearWork);
  }

  /** Editing the parent first makes no difference to the child. */
  lemma EditThroughParent(link: string, lower: string, gearLink: string, gearWork: string)
    requires Free(link, ':') && link != gearLink && link != gearWork && Free(gearWork, ':')
    ensures Edit(link + ":" + Edit(lower, gearLink, gearWork), gearLink, gearWork)
            == Edit(link + ":" + lower, gearLink, gearWork)
  {
    if gearWork !in Split(lower, ':') {
      var edited := Edit(lower, gearLink, gearWork);
      EditHolds(lower, gearLink, gearWork);
      ChildOfEdited(link, edited, gearLink, gearWork);
      EditChild(link, lower, gearLink, gearWork);
    }
  }

  /** However deep the chain, the list is docker's own list edited once. */
  lemma {:induction false} ChainIsEdit(links: seq<string>, base: string, gearLink: string, gearWork: string)
    requires AllFree(links, ':') && Free(gearWork, ':') && gearLink !in links && gearWork !in links
    ensures Chain(links, base, gearLink, gearWork) == Edit(Plain(links, base), gearLink, gearWork)
  {
    if links != [] {
      ChainIsEdit(links[1..], base, gearLink, gearWork);
      assert Free(links[0], ':') && links[0] in links;
      EditThroughParent(links[0], Plain(links[1..], base), gearLink, gearWork);
    }
  }

  lemma ConsAppend<T>(x: T, rest: seq<T>, s: seq<T>)
    ensures [x] + (rest + s) == [x] + rest + s
  {
  }

  lemma {:induction false} PlainParts(links: seq<string>, base: string)
    requires AllFree(links, ':')
    ensures Split(Plain(links, base), ':') == links + Split(base, ':')
  {
    if links == [] {
      assert links + Split(base, ':') == Split(base, ':');
    } else {
      assert Free(links[0], ':');
      PlainParts(links[1..], base);
      SplitAtFirst(links[0], ':', Plain(links[1..], base));
      ConsAppend(links[0], links[1..], Split(base, ':'));
      assert links == [links[0]] + links[1..];
    }
  }

  /** Erasing the entry from the list of any layer of the chain gives back what
      docker writes. */
  lemma EraseUndoesChain(links: seq<string>, base: string, gearLink: string, gearWork: string)
    requires AllFree(links, ':') && Free(gearWork, ':') && gearLink !in links
    requires gearWork !in links && gearWork !in Split(base, ':')
    ensures Erase(Chain(links, base, gearLink, gearWork), gearWork) == Plain(links, base)
  {
    PlainParts(links, base);
    ChainIsEdit(links, base, gearLink, gearWork);
    EraseUndoesEdit(Plain(links, base), gearLink, gearWork);
  }

  function Count(list: seq<string>, x: string): nat {
    if list == [] then 0 else (if list[0] == x then 1 else 0) + Count(list[1..], x)
  }

  lemma {:induction false} CountConcat(a: seq<string>, b: seq<string>, x: string)
    ensures Count(a + b, x) == Count(a, x) + Count(b, x)
  {
    if a == [] {
      assert a + b == b;
    } else {
      CountConcat(a[1..], b, x);
      assert (a + b)[1..] == a[1..] + b;
    }
  }

  lemma {:induction false} CountNone(list: seq<string>, x: string)
    ensures Count(list, x) == 0 <==> x !in list
  {
    if list != [] {
      CountNone(list[1..], x);
      assert list == [list[0]] + list[1..];
    }
  }

  lemma CountInserted(list: seq<string>, k: nat, x: string)
    requires k <= |list| && x !in list
    ensures Count(InsertAt(list, k, x), x) == 1
  {
    CountNone(list[..k], x);
    CountNone(list[k..], x);
    CountConcat(list[..k] + [x], list[k..], x);
    CountConcat(list[..k], [x], x);
  }

  /** The list of every layer of the chain has the entry exactly once. */
  lemma ChainHoldsOne(links: seq<string>, base: string, gearLink: string, gearWork: string)
    requires AllFree(links, ':') && Free(gearWork, ':') && gearLink !in links
    requires gearWork !in links && gearWork !in Split(base, ':')
    ensures Count(Split(Chain(links, base, gearLink, gearWork), ':'), gearWork) == 1
  {
    PlainParts(links, base);
    ChainIsEdit(links, base, gearLink, gearWork);
    var list := Split(Plain(links, base), ':');
    var k := FirstIndex(list, gearLink);
    InsertedParts(list, k, gearWork);
    CountInserted(list, k, gearWork);
  }
}
