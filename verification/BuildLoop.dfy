/** The monitor's loop: list the registry, work out which tags have no gear
    image yet, build and push those, start again. */
module BuildLoop {

  /** Repository -> tags, as the registry lists them. */
  type Registry = map<string, seq<string>>

  type Image = (string, string)

  predicate HasSuffix(s: string, suffix: string) {
    |suffix| <= |s| && s[|s| - |suffix|..] == suffix
  }

  function Gear(repo: string): string {
    repo + "-gear"
  }

  /** Neither a gear image nor one that carries its prefetch list. */
  predicate IsSource(repo: string) {
    !HasSuffix(repo, "-gearmd") && !HasSuffix(repo, "-gear")
  }

  /** Tags of `tags` that are not in `built`. */
  function MissingTags(tags: seq<string>, built: seq<string>): seq<string> {
    if tags == [] then []
    else MissingTags(tags[..|tags| - 1], built) +
         (if tags[|tags| - 1] in built then [] else [tags[|tags| - 1]])
  }

  /** The missing tags keep the order of the tag list, doubled ones included. */
  lemma {:induction false} MissingInOrder(a: seq<string>, tag: string, b: seq<string>, built: seq<string>)
    ensures MissingTags(a + b, built) == MissingTags(a, built) + MissingTags(b, built)
    ensures MissingTags([tag], built) == if tag in built then [] else [tag]
  {
    assert [tag][..0] == [];
    if b == [] {
      assert a + b == a;
    } else {
      assert (a + b)[..|a + b| - 1] == a + b[..|b| - 1];
      MissingInOrder(a, tag, b[..|b| - 1], built);
    }
  }

  function BuiltTags(reg: Registry, repo: string): seq<string> {
    if Gear(repo) in reg then reg[Gear(repo)] else []
  }

  function ToBeBuilt(reg: Registry): map<string, seq<string>> {
    map r | r in reg && IsSource(r) :: MissingTags(reg[r], BuiltTags(reg, r))
  }

  method Exist(list: seq<string>, element: string) returns (found: bool)
    ensures found <==> element in list
  {
    for k := 0 to |list|
      invariant element !in list[..k]
    {
      if list[k] == element {
        return true;
      }
    }
    assert list[..|list|] == list;
    found := false;
  }

  class Monitor {
    var haveBeenBuild: map<string, seq<string>>
    var toBeBuild: map<string, seq<string>>

    constructor () {
      haveBeenBuild, toBeBuild := map[], map[];
    }

    /** `repos` is the catalog, in the order the registry gives it. */
    method GetRepositories(reg: Registry, repos: seq<string>)
      requires forall r :: r in repos <==> r in reg
      modifies this
      ensures toBeBuild == ToBeBuilt(reg)
      ensures haveBeenBuild == map r | r in reg && HasSuffix(r, "-gear") :: reg[r]
    {
      var have: map<string, seq<string>> := map[];
      for k := 0 to |repos|
        invariant forall r :: r in have <==> r in repos[..k] && HasSuffix(r, "-gear")
        invariant forall r :: r in have ==> r in reg && have[r] == reg[r]
      {
        var repo := repos[k];
        assert repo in repos && repos[..k + 1] == repos[..k] + [repo];
        if HasSuffix(repo, "-gear") {
          have := have[repo := reg[repo]];
        }
      }
      assert repos[..|repos|] == repos;
      var todo: map<string, seq<string>> := map[];
      for k := 0 to |repos|
        invariant forall r :: r in todo <==> r in repos[..k] && IsSource(r)
        invariant forall r :: r in todo ==> r in reg && todo[r] == MissingTags(reg[r], BuiltTags(reg, r))
      {
        var repo := repos[k];
        assert repo in repos && repos[..k + 1] == repos[..k] + [repo];
        GearIsGear(repo);
        if !HasSuffix(repo, "-gearmd") && !HasSuffix(repo, "-gear") {
          var missing: seq<string> := [];
          if Gear(repo) !in have {
            MissingOfNone(reg[repo]);
            missing := reg[repo];
          } else {
            missing := KeepMissing(reg[repo], have[Gear(repo)]);
          }
          todo := todo[repo := missing];
        }
      }
      assert repos[..|repos|] == repos;
      haveBeenBuild, toBeBuild := have, todo;
    }

    /** The inner loop: the tags of one repository, in the order of the list. */
    method BuildTags(remote: Remote, repository: string, tags: seq<string>)
      requires remote as object != this
      modifies remote
      ensures remote.built == old(remote.built) + Images(repository, tags)
      ensures Pushed(old(remote.reg), remote.reg, Images(repository, tags))
    {
      for k := 0 to |tags|
        invariant remote.built == old(remote.built) + Images(repository, tags[..k])
        invariant Pushed(old(remote.reg), remote.reg, Images(repository, tags[..k]))
      {
        PushedNext(old(remote.reg), remote.reg, Images(repository, tags[..k]), (repository, tags[k]));
        ImagesNext(repository, tags, k);
        remote.DoBuild((repository, tags[k]));
      }
      assert tags[..|tags|] == tags;
    }

    /** Builds and pushes everything listed, repository after repository in an
        arbitrary order, with every push succeeding. */
    method BuildAll(remote: Remote)
      requires remote as object != this
      modifies remote
      ensures exists order ::
                ListsKeys(order, toBeBuild) && remote.built == old(remote.built) + InOrder(toBeBuild, order)
      ensures PushedListed(old(remote.reg), remote.reg, toBeBuild)
    {
      ghost var before, start := remote.reg, remote.built;
      ghost var news: seq<Image>, order: seq<string> := [], [];
      var left := toBeBuild.Keys;
      while left != {}
        invariant left <= toBeBuild.Keys && Distinct(order)
        invariant forall r :: r in order <==> r in toBeBuild && r !in left
        invariant remote.built == start + news && news == InOrder(toBeBuild, order)
        invariant Pushed(before, remote.reg, news)
      {
        var repository :| repository in left;
        var tags := toBeBuild[repository];
        ghost var reg := remote.reg;
        BuildTags(remote, repository, tags);
        InOrderNext(toBeBuild, order, repository);
        PushedBoth(before, reg, remote.reg, news, Images(repository, tags));
        news, order := news + Images(repository, tags), order + [repository];
        left := left - {repository};
      }
      AllPushed(before, remote.reg, toBeBuild, order);
    }
  }

  /** The registry, and what has been built for it. */
  class Remote {
    var reg: Registry
    var built: seq<Image>

    constructor (reg: Registry)
      ensures this.reg == reg && built == []
    {
      this.reg, built := reg, [];
    }

    method DoBuild(image: Image)
      modifies this
      ensures reg == AddTag(old(reg), Gear(image.0), image.1) && built == old(built) + [image]
    {
      var repo := Gear(image.0);
      if repo !in reg {
        reg := reg[repo := [image.1]];
      } else {
        var there := Exist(reg[repo], image.1);
        if !there {
          reg := reg[repo := reg[repo] + [image.1]];
        }
      }
      built := built + [image];
    }
  }

  function Images(repo: string, tags: seq<string>): (images: seq<Image>)
    ensures |images| == |tags|
    ensures forall k :: 0 <= k < |tags| ==> images[k] == (repo, tags[k])
  {
    seq(|tags|, k requires 0 <= k < |tags| => (repo, tags[k]))
  }

  /** All listed images, repository after repository. */
  function InOrder(todo: map<string, seq<string>>, order: seq<string>): seq<Image> {
    if order == [] then []
    else
      var r := order[|order| - 1];
      InOrder(todo, order[..|order| - 1]) + (if r in todo then Images(r, todo[r]) else [])
  }

  ghost predicate ListsKeys(order: seq<string>, todo: map<string, seq<string>>) {
    Distinct(order) && forall r :: r in order <==> r in todo
  }

  lemma ImagesNext(repo: string, tags: seq<string>, k: nat)
    requires k < |tags|
    ensures Images(repo, tags[..k + 1]) == Images(repo, tags[..k]) + [(repo, tags[k])]
  {
  }

  lemma InOrderNext(todo: map<string, seq<string>>, order: seq<string>, repo: string)
    requires repo in todo
    ensures InOrder(todo, order + [repo]) == InOrder(todo, order) + Images(repo, todo[repo])
  {
    assert (order + [repo])[..|order|] == order;
  }

  lemma {:induction false} InOrderHas(todo: map<string, seq<string>>, order: seq<string>, image: Image)
    ensures image in InOrder(todo, order) <==> image.0 in order && Listed(todo, image)
  {
    if order != [] {
      var front, r := order[..|order| - 1], order[|order| - 1];
      InOrderHas(todo, front, image);
      assert order == front + [r];
      if r in todo {
        ImagesHas(r, todo[r], image);
      }
    }
  }

  lemma ImagesHas(repo: string, tags: seq<string>, image: Image)
    ensures image in Images(repo, tags) <==> image.0 == repo && image.1 in tags
  {
    if image.0 == repo && image.1 in tags {
      var k :| 0 <= k < |tags| && tags[k] == image.1;
      assert Images(repo, tags)[k] == image;
    }
  }

  lemma ListedInOrder(todo: map<string, seq<string>>, order: seq<string>)
    requires ListsKeys(order, todo)
    ensures forall image :: image in InOrder(todo, order) <==> Listed(todo, image)
  {
    forall image
      ensures image in InOrder(todo, order) <==> Listed(todo, image)
    {
      InOrderHas(todo, order, image);
    }
  }

  lemma DistinctParts<T>(a: seq<T>, b: seq<T>)
    requires Distinct(a + b)
    ensures Distinct(a) && Distinct(b) && forall x :: x in a ==> x !in b
  {
    var s := a + b;
    forall i, j | 0 <= i < j < |a|
      ensures a[i] != a[j]
    {
      assert s[i] != s[j];
    }
    forall i, j | 0 <= i < j < |b|
      ensures b[i] != b[j]
    {
      assert s[|a| + i] != s[|a| + j];
    }
    forall x | x in a
      ensures x !in b
    {
      var k :| 0 <= k < |a| && a[k] == x;
      forall j | 0 <= j < |b|
        ensures b[j] != x
      {
        assert s[k] != s[|a| + j];
      }
    }
  }

  lemma DistinctConcat<T>(a: seq<T>, b: seq<T>)
    ensures Distinct(a + b) <==> Distinct(a) && Distinct(b) && forall x :: x in a ==> x !in b
  {
    if Distinct(a + b) {
      DistinctParts(a, b);
    }
    if Distinct(a) && Distinct(b) && forall x :: x in a ==> x !in b {
      forall i, j | 0 <= i < j < |a + b|
        ensures (a + b)[i] != (a + b)[j]
      {
        assert i < |a| ==> a[i] in a;
      }
    }
  }

  lemma DistinctImages(repo: string, tags: seq<string>)
    ensures Distinct(Images(repo, tags)) <==> Distinct(tags)
  {
    if Distinct(Images(repo, tags)) {
      forall i, j | 0 <= i < j < |tags|
        ensures tags[i] != tags[j]
      {
        assert Images(repo, tags)[i] != Images(repo, tags)[j];
      }
    }
  }

  /** One round builds each listed image once exactly when no list of the round
      has a tag twice. */
  lemma {:induction false} RoundBuildsOnceIff(todo: map<string, seq<string>>, order: seq<string>)
    requires Distinct(order) && forall r :: r in order ==> r in todo
    ensures Distinct(InOrder(todo, order)) <==> forall r :: r in order ==> Distinct(todo[r])
  {
    if order != [] {
      var front, last := order[..|order| - 1], order[|order| - 1];
      assert order == front + [last];
      RoundBuildsOnceIff(todo, front);
      DistinctConcat(InOrder(todo, front), Images(last, todo[last]));
      DistinctImages(last, todo[last]);
      forall image | image in InOrder(todo, front)
        ensures image !in Images(last, todo[last])
      {
        InOrderHas(todo, front, image);
        ImagesHas(last, todo[last], image);
      }
    }
  }

  ghost predicate Listed(todo: map<string, seq<string>>, image: Image) {
    image.0 in todo && image.1 in todo[image.0]
  }

  /** `after` is `before` with the gear tags of `images`. */
  ghost predicate Pushed(before: Registry, after: Registry, images: seq<Image>) {
    forall r, t :: HasTag(after, r, t) <==>
      HasTag(before, r, t) || exists image :: image in images && r == Gear(image.0) && t == image.1
  }

  /** `after` is `before` with the gear tag of every listed image. */
  ghost predicate PushedListed(before: Registry, after: Registry, todo: map<string, seq<string>>) {
    forall r, t :: HasTag(after, r, t) <==>
      HasTag(before, r, t) || exists image :: Listed(todo, image) && r == Gear(image.0) && t == image.1
  }

  lemma AllPushed(before: Registry, after: Registry, todo: map<string, seq<string>>, order: seq<string>)
    requires ListsKeys(order, todo) && Pushed(before, after, InOrder(todo, order))
    ensures PushedListed(before, after, todo)
  {
    ListedInOrder(todo, order);
  }

  lemma PushedNext(before: Registry, after: Registry, images: seq<Image>, image: Image)
    requires Pushed(before, after, images)
    ensures Pushed(before, AddTag(after, Gear(image.0), image.1), images + [image])
  {
    var after' := AddTag(after, Gear(image.0), image.1);
    forall r, t
      ensures HasTag(after', r, t) <==>
        HasTag(before, r, t) || exists i :: i in images + [image] && r == Gear(i.0) && t == i.1
    {
      AddTagKeeps(after, Gear(image.0), image.1, r, t);
      if i :| i in images && r == Gear(i.0) && t == i.1 {
        assert i in images + [image];
      }
      assert image in images + [image];
    }
  }

  lemma PushedBoth(before: Registry, middle: Registry, after: Registry, a: seq<Image>, b: seq<Image>)
    requires Pushed(before, middle, a) && Pushed(middle, after, b)
    ensures Pushed(before, after, a + b)
  {
    forall r, t
      ensures HasTag(after, r, t) <==>
        HasTag(before, r, t) || exists i :: i in a + b && r == Gear(i.0) && t == i.1
    {
      if i :| i in a && r == Gear(i.0) && t == i.1 {
        assert i in a + b;
      }
      if i :| i in b && r == Gear(i.0) && t == i.1 {
        assert i in a + b;
      }
      assert HasTag(middle, r, t) <==> HasTag(before, r, t) || exists i :: i in a && r == Gear(i.0) && t == i.1;
    }
  }

  method KeepMissing(tags: seq<string>, built: seq<string>) returns (missing: seq<string>)
    ensures missing == MissingTags(tags, built)
  {
    missing := [];
    for k := 0 to |tags|
      invariant missing == MissingTags(tags[..k], built)
    {
      assert tags[..k + 1][..k] == tags[..k];
      var found := Exist(built, tags[k]);
      if !found {
        missing := missing + [tags[k]];
      }
    }
    assert tags[..|tags|] == tags;
  }

  lemma {:induction false} MissingOfNone(tags: seq<string>)
    ensures MissingTags(tags, []) == tags
  {
    if tags != [] {
      MissingOfNone(tags[..|tags| - 1]);
      assert tags == tags[..|tags| - 1] + [tags[|tags| - 1]];
    }
  }

  lemma {:induction false} MissingHas(tags: seq<string>, built: seq<string>, t: string)
    ensures t in MissingTags(tags, built) <==> t in tags && t !in built
  {
    if tags != [] {
      MissingHas(tags[..|tags| - 1], built, t);
      assert tags == tags[..|tags| - 1] + [tags[|tags| - 1]];
    }
  }

  ghost predicate Distinct<T>(list: seq<T>) {
    forall i, j :: 0 <= i < j < |list| ==> list[i] != list[j]
  }

  /** A tag list without duplicates gives a build list without duplicates. */
  lemma {:induction false} MissingDistinct(tags: seq<string>, built: seq<string>)
    requires Distinct(tags)
    ensures Distinct(MissingTags(tags, built))
  {
    if tags != [] {
      var front, t := tags[..|tags| - 1], tags[|tags| - 1];
      MissingDistinct(front, built);
      MissingHas(front, built, t);
      assert t !in front;
    }
  }

  lemma GearIsGear(repo: string)
    ensures HasSuffix(Gear(repo), "-gear") && !IsSource(Gear(repo))
  {
    assert Gear(repo)[|repo|..] == "-gear";
  }

  /** In plain text: sources are the repositories that end in neither suffix. */
  lemma SourceIff(repo: string)
    ensures IsSource(repo) <==> forall x: string :: repo != x + "-gear" && repo != x + "-gearmd"
  {
    if !IsSource(repo) {
      var n := if HasSuffix(repo, "-gearmd") then |repo| - 7 else |repo| - 5;
      assert repo == repo[..n] + repo[n..];
    }
    forall x: string | repo == x + "-gear" || repo == x + "-gearmd"
      ensures !IsSource(repo)
    {
      assert repo[|x|..] == "-gear" || repo[|x|..] == "-gearmd";
    }
  }

  lemma GearInjective(a: string, b: string)
    requires Gear(a) == Gear(b)
    ensures a == b
  {
    assert |a| == |b|;
    assert Gear(a)[..|a|] == a && Gear(b)[..|b|] == b;
  }

  // ----- whole runs -----

  /** The images a round will build. */
  ghost predicate Wanted(reg: Registry, image: Image) {
    image.0 in ToBeBuilt(reg) && image.1 in ToBeBuilt(reg)[image.0]
  }

  /** Exactly the tags of source repositories that the gear twin does not have. */
  lemma WantedIff(reg: Registry, image: Image)
    ensures Wanted(reg, image) <==>
            && image.0 in reg && image.1 in reg[image.0]
            && (forall x: string :: image.0 != x + "-gear" && image.0 != x + "-gearmd")
            && (image.0 + "-gear" in reg ==> image.1 !in reg[image.0 + "-gear"])
  {
    SourceIff(image.0);
    if image.0 in reg {
      MissingHas(reg[image.0], BuiltTags(reg, image.0), image.1);
    }
  }

  function AddTag(reg: Registry, repo: string, tag: string): Registry {
    if repo !in reg then reg[repo := [tag]]
    else if tag in reg[repo] then reg
    else reg[repo := reg[repo] + [tag]]
  }

  /** `todo` holds, per repository, the tags still to build in this round. */
  datatype State = State(reg: Registry, todo: map<string, seq<string>>, built: seq<Image>)

  datatype Event =
    | Upload(repo: string, tag: string)     // anyone pushes any image
    | Round                                 // list the registry once all is built
    | Build(repo: string)                   // build and push the next tag of a repository

  ghost predicate AllBuilt(todo: map<string, seq<string>>) {
    forall r :: r in todo ==> todo[r] == []
  }

  ghost function Step(s: State, ev: Event): State {
    match ev
    case Upload(repo, tag) => s.(reg := AddTag(s.reg, repo, tag))
    case Round => if AllBuilt(s.todo) then s.(todo := ToBeBuilt(s.reg)) else s
    case Build(repo) =>
      if repo !in s.todo || s.todo[repo] == [] then s
      else
        var tags := s.todo[repo];
        State(AddTag(s.reg, Gear(repo), tags[0]), s.todo[repo := tags[1..]], s.built + [(repo, tags[0])])
  }

  ghost function Run(s: State, events: seq<Event>): State
    decreases |events|
  {
    if events == [] then s else Run(Step(s, events[0]), events[1..])
  }

  ghost predicate HasTag(reg: Registry, repo: string, tag: string) {
    repo in reg && tag in reg[repo]
  }

  /** No source repository lists a tag twice that its gear twin lacks. */
  ghost predicate NoDoubles(reg: Registry) {
    forall r :: r in reg && IsSource(r) ==> Distinct(MissingTags(reg[r], BuiltTags(reg, r)))
  }

  ghost predicate TodoOk(s: State, r: string, tags: seq<string>) {
    && IsSource(r) && Distinct(tags)
    && forall t :: t in tags ==> (r, t) !in s.built && HasTag(s.reg, r, t)
  }

  ghost predicate Inv(s: State) {
    && NoDoubles(s.reg) && Distinct(s.built)
    && (forall image :: image in s.built ==> IsSource(image.0) && HasTag(s.reg, Gear(image.0), image.1))
    && (forall r :: r in s.todo ==> TodoOk(s, r, s.todo[r]))
  }

  lemma AddTagKeeps(reg: Registry, repo: string, tag: string, r: string, t: string)
    ensures HasTag(AddTag(reg, repo, tag), r, t) <==> HasTag(reg, r, t) || (r == repo && t == tag)
  {
  }

  /** A longer list of built tags leaves a shorter list to build, in order. */
  lemma {:induction false} MissingShrinks(tags: seq<string>, built: seq<string>, more: seq<string>)
    requires Distinct(MissingTags(tags, built)) && forall t :: t in built ==> t in more
    ensures Distinct(MissingTags(tags, more))
  {
    if tags != [] {
      var front, t := tags[..|tags| - 1], tags[|tags| - 1];
      var m := MissingTags(front, built);
      assert m == MissingTags(tags, built)[..|m|];
      MissingShrinks(front, built, more);
      MissingHas(front, more, t);
      MissingHas(front, built, t);
      assert t !in built ==> MissingTags(tags, built)[|m|] == t;
    }
  }

  /** One more tag at the end of a list adds at most one missing tag. */
  lemma MissingExtended(tags: seq<string>, tag: string, built: seq<string>)
    requires Distinct(MissingTags(tags, built)) && tag !in tags
    ensures Distinct(MissingTags(tags + [tag], built))
  {
    assert (tags + [tag])[..|tags|] == tags;
    MissingHas(tags, built, tag);
  }

  lemma MoreBuilt(reg: Registry, repo: string, tag: string, r: string)
    ensures forall t :: t in BuiltTags(reg, r) ==> t in BuiltTags(AddTag(reg, repo, tag), r)
  {
  }

  lemma NoDoublesAt(reg: Registry, repo: string, tag: string, r: string)
    requires r in AddTag(reg, repo, tag)
    requires r in reg ==> Distinct(MissingTags(reg[r], BuiltTags(reg, r)))
    ensures var reg' := AddTag(reg, repo, tag); Distinct(MissingTags(reg'[r], BuiltTags(reg', r)))
  {
    var reg' := AddTag(reg, repo, tag);
    var tags := if r in reg then reg[r] else [];
    MoreBuilt(reg, repo, tag, r);
    MissingShrinks(tags, BuiltTags(reg, r), BuiltTags(reg', r));
    if reg'[r] != tags {
      assert reg'[r] == tags + [tag];
      MissingExtended(tags, tag, BuiltTags(reg', r));
    }
  }

  lemma NoDoublesKept(reg: Registry, repo: string, tag: string)
    requires NoDoubles(reg)
    ensures NoDoubles(AddTag(reg, repo, tag))
  {
    var reg' := AddTag(reg, repo, tag);
    forall r | r in reg' && IsSource(r)
      ensures Distinct(MissingTags(reg'[r], BuiltTags(reg', r)))
    {
      NoDoublesAt(reg, repo, tag, r);
    }
  }

  lemma BuildKeeps(s: State, repo: string)
    requires Inv(s) && repo in s.todo && s.todo[repo] != []
    ensures Inv(Step(s, Build(repo)))
  {
    var s', tag := Step(s, Build(repo)), s.todo[repo][0];
    assert TodoOk(s, repo, s.todo[repo]);
    NoDoublesKept(s.reg, Gear(repo), tag);
    forall image | image in s'.built
      ensures IsSource(image.0) && HasTag(s'.reg, Gear(image.0), image.1)
    {
      AddTagKeeps(s.reg, Gear(repo), tag, Gear(image.0), image.1);
    }
    forall r | r in s'.todo
      ensures TodoOk(s', r, s'.todo[r])
    {
      assert TodoOk(s, r, s.todo[r]);
      forall t | t in s'.todo[r]
        ensures (r, t) !in s'.built && HasTag(s'.reg, r, t)
      {
        assert t in s.todo[r];
        AddTagKeeps(s.reg, Gear(repo), tag, r, t);
      }
    }
  }

  lemma UploadKeeps(s: State, repo: string, tag: string)
    requires Inv(s)
    ensures Inv(Step(s, Upload(repo, tag)))
  {
    var s' := Step(s, Upload(repo, tag));
    NoDoublesKept(s.reg, repo, tag);
    forall r | r in s'.todo
      ensures TodoOk(s', r, s'.todo[r])
    {
      assert TodoOk(s, r, s.todo[r]);
    }
  }

  lemma RoundKeeps(s: State)
    requires Inv(s)
    ensures Inv(Step(s, Round))
  {
    var s' := Step(s, Round);
    if AllBuilt(s.todo) {
      forall r | r in s'.todo
        ensures TodoOk(s', r, s'.todo[r])
      {
        forall t | t in s'.todo[r]
          ensures (r, t) !in s'.built && HasTag(s'.reg, r, t)
        {
          WantedIff(s.reg, (r, t));
        }
      }
    }
  }

  lemma {:induction false} RunKeeps(s: State, events: seq<Event>)
    requires Inv(s)
    ensures Inv(Run(s, events))
    decreases |events|
  {
    if events != [] {
      match events[0] {
        case Upload(repo, tag) => UploadKeeps(s, repo, tag);
        case Round => RoundKeeps(s);
        case Build(repo) =>
          if repo in s.todo && s.todo[repo] != [] {
            BuildKeeps(s, repo);
          }
      }
      RunKeeps(Step(s, events[0]), events[1..]);
    }
  }

  function Builds(repo: string, n: nat): seq<Event> {
    if n == 0 then [] else [Build(repo)] + Builds(repo, n - 1)
  }

  /** Building the tags of one repository, one after the other. */
  lemma {:induction false} BuildsInOrder(s: State, repo: string, n: nat)
    requires repo in s.todo && n <= |s.todo[repo]|
    ensures var built := Run(s, Builds(repo, n)).built;
            && |built| == |s.built| + n
            && forall k :: 0 <= k < n ==> built[|s.built| + k] == (repo, s.todo[repo][k])
    ensures s.built <= Run(s, Builds(repo, n)).built
    decreases n
  {
    if n > 0 {
      var s' := Step(s, Build(repo));
      assert Builds(repo, n)[1..] == Builds(repo, n - 1);
      BuildsInOrder(s', repo, n - 1);
      var built := Run(s', Builds(repo, n - 1)).built;
      forall k | 0 <= k < n
        ensures built[|s.built| + k] == (repo, s.todo[repo][k])
      {
        if k > 0 {
          assert built[|s'.built| + (k - 1)] == (repo, s'.todo[repo][k - 1]);
        } else {
          assert built[|s.built|] == s'.built[|s.built|];
        }
      }
    }
  }

  lemma DoubleIsBuiltTwice(reg: Registry, r: string, i: nat, j: nat)
    requires r in ToBeBuilt(reg) && i < j < |ToBeBuilt(reg)[r]| && ToBeBuilt(reg)[r][i] == ToBeBuilt(reg)[r][j]
    ensures !Distinct(Run(State(reg, map[], []), [Round] + Builds(r, j + 1)).built)
  {
    var s := State(reg, map[], []);
    var events := [Round] + Builds(r, j + 1);
    assert events[1..] == Builds(r, j + 1);
    var s1 := Step(s, Round);
    BuildsInOrder(s1, r, j + 1);
    var built := Run(s1, Builds(r, j + 1)).built;
    assert built[|s1.built| + i] == built[|s1.built| + j];
  }

  /** Over any run of uploads, rounds and builds no image is built twice exactly
      when the registry the runs start from lists no missing tag twice. */
  lemma BuiltAtMostOnceIff(reg: Registry)
    ensures (forall events :: Distinct(Run(State(reg, map[], []), events).built)) <==> NoDoubles(reg)
  {
    if NoDoubles(reg) {
      forall events
        ensures Distinct(Run(State(reg, map[], []), events).built)
      {
        RunKeeps(State(reg, map[], []), events);
      }
    } else {
      var r :| r in reg && IsSource(r) && !Distinct(MissingTags(reg[r], BuiltTags(reg, r)));
      var tags := ToBeBuilt(reg)[r];
      var i, j :| 0 <= i < j < |tags| && tags[i] == tags[j];
      DoubleIsBuiltTwice(reg, r, i, j);
    }
  }

  /** What is listed and built are sources, and what is built is in the gear
      twin: this needs no assumption on the registry. */
  ghost predicate Sane(s: State) {
    && (forall r :: r in s.todo ==> IsSource(r))
    && (forall image :: image in s.built ==> IsSource(image.0) && HasTag(s.reg, Gear(image.0), image.1))
  }

  lemma AddTagGrows(reg: Registry, repo: string, tag: string)
    ensures forall r, t :: HasTag(reg, r, t) ==> HasTag(AddTag(reg, repo, tag), r, t)
    ensures HasTag(AddTag(reg, repo, tag), repo, tag)
  {
  }

  lemma SaneStep(s: State, ev: Event)
    requires Sane(s)
    ensures Sane(Step(s, ev))
  {
    match ev
    case Upload(repo, tag) => AddTagGrows(s.reg, repo, tag);
    case Round =>
    case Build(repo) =>
      if repo in s.todo && s.todo[repo] != [] {
        AddTagGrows(s.reg, Gear(repo), s.todo[repo][0]);
      }
  }

  lemma {:induction false} SaneRun(s: State, events: seq<Event>)
    requires Sane(s)
    ensures Sane(Run(s, events))
    decreases |events|
  {
    if events != [] {
      SaneStep(s, events[0]);
      SaneRun(Step(s, events[0]), events[1..]);
    }
  }

  /** No gear image is ever a source, and what is built is in the registry. */
  lemma BuiltFromSources(reg: Registry, events: seq<Event>, image: Image)
    requires image in Run(State(reg, map[], []), events).built
    ensures forall x: string :: image.0 != x + "-gear" && image.0 != x + "-gearmd"
    ensures HasTag(Run(State(reg, map[], []), events).reg, image.0 + "-gear", image.1)
  {
    SaneRun(State(reg, map[], []), events);
    SourceIff(image.0);
  }

  /** Building one image removes just that one from the wanted ones. */
  lemma BuildRemoves(reg: Registry, image: Image, other: Image)
    requires IsSource(image.0)
    ensures Wanted(AddTag(reg, Gear(image.0), image.1), other) <==> Wanted(reg, other) && other != image
  {
    var reg' := AddTag(reg, Gear(image.0), image.1);
    WantedIff(reg, other);
    WantedIff(reg', other);
    GearIsGear(image.0);
    if Gear(other.0) == Gear(image.0) {
      GearInjective(other.0, image.0);
    }
    AddTagKeeps(reg, Gear(image.0), image.1, other.0, other.1);
    AddTagKeeps(reg, Gear(image.0), image.1, Gear(other.0), other.1);
  }

  ghost predicate OnlyBuilds(events: seq<Event>) {
    forall ev :: ev in events ==> ev.Build?
  }

  /** Every image that a round would list is still to be built in this one. */
  ghost predicate Covered(s: State) {
    forall image :: Wanted(s.reg, image) ==> Listed(s.todo, image)
  }

  lemma BuildCovers(s: State, repo: string)
    requires Covered(s) && repo in s.todo && s.todo[repo] != [] && IsSource(repo)
    ensures Covered(Step(s, Build(repo)))
  {
    var tags, s' := s.todo[repo], Step(s, Build(repo));
    forall other | Wanted(s'.reg, other)
      ensures Listed(s'.todo, other)
    {
      BuildRemoves(s.reg, (repo, tags[0]), other);
      assert Listed(s.todo, other);
      assert tags == [tags[0]] + tags[1..];
    }
  }

  lemma {:induction false} RoundCovers(s: State, builds: seq<Event>)
    requires Covered(s) && OnlyBuilds(builds) && forall r :: r in s.todo ==> IsSource(r)
    ensures Covered(Run(s, builds))
    decreases |builds|
  {
    if builds != [] {
      var ev := builds[0];
      assert ev in builds;
      if ev.repo in s.todo && s.todo[ev.repo] != [] {
        BuildCovers(s, ev.repo);
      }
      RoundCovers(Step(s, ev), builds[1..]);
    }
  }

  /** A round that has built everything it listed, with no upload meanwhile,
      leaves nothing to build: the next round lists nothing. */
  lemma RoundConverges(s: State, builds: seq<Event>, image: Image)
    requires AllBuilt(s.todo) && OnlyBuilds(builds)
    requires AllBuilt(Run(Step(s, Round), builds).todo)
    ensures !Wanted(Run(Step(s, Round), builds).reg, image)
  {
    RoundCovers(Step(s, Round), builds);
  }

  lemma {:induction false} TagsStay(s: State, events: seq<Event>, r: string, t: string)
    requires HasTag(s.reg, r, t)
    ensures HasTag(Run(s, events).reg, r, t)
    decreases |events|
  {
    if events != [] {
      TagsStay(Step(s, events[0]), events[1..], r, t);
    }
  }

  /** An image that is pushed while nothing is left to build is in its gear
      repository as soon as the next round has built everything it listed. */
  lemma UploadedIsBuilt(s: State, repo: string, tag: string, builds: seq<Event>)
    requires AllBuilt(s.todo) && OnlyBuilds(builds)
    requires forall x: string :: repo != x + "-gear" && repo != x + "-gearmd"
    requires AllBuilt(Run(Step(Step(s, Upload(repo, tag)), Round), builds).todo)
    ensures HasTag(Run(Step(Step(s, Upload(repo, tag)), Round), builds).reg, repo + "-gear", tag)
  {
    var uploaded := Step(s, Upload(repo, tag));
    var end := Run(Step(uploaded, Round), builds);
    RoundConverges(uploaded, builds, (repo, tag));
    TagsStay(Step(uploaded, Round), builds, repo, tag);
    WantedIff(end.reg, (repo, tag));
  }
}
