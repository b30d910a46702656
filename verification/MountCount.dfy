/** Reference counting of the FUSE mounts. `Get` of a container layer counts and
    mounts, `Put` of any layer with a gear link counts down and unmounts. */
module MountCount {

  type Dir = string

  /** What the files of a layer directory make it: without a gear link, a gear
      image, or a container of the image mounted at `dir`. */
  datatype Layer = Plain | Image(dir: Dir) | Container(dir: Dir)

  datatype Op = Get(layer: Layer) | Put(layer: Layer)

  datatype State = State(gearCtr: map<Dir, int>, mounted: set<Dir>)

  function Counter(s: State, d: Dir): int {
    if d in s.gearCtr then s.gearCtr[d] else 0
  }

  function Step(s: State, op: Op): State {
    match op
    case Get(Container(d)) =>
      if d in s.gearCtr then s.(gearCtr := s.gearCtr[d := s.gearCtr[d] + 1])
      else State(s.gearCtr[d := 1], s.mounted + {d})
    case Get(_) => s
    case Put(Plain) => s
    case Put(layer) =>
      if Counter(s, layer.dir) <= 1 then State(s.gearCtr - {layer.dir}, s.mounted - {layer.dir})
      else s.(gearCtr := s.gearCtr[layer.dir := s.gearCtr[layer.dir] - 1])
  }

  function Run(ops: seq<Op>): State {
    if ops == [] then State(map[], {}) else Step(Run(ops[..|ops| - 1]), ops[|ops| - 1])
  }

  class Driver {
    var gearCtr: map<Dir, int>
    var mounted: set<Dir>

    function Value(): State
      reads this
    {
      State(gearCtr, mounted)
    }

    constructor ()
      ensures Value() == State(map[], {})
    {
      gearCtr, mounted := map[], {};
    }

    method DoGet(layer: Layer)
      modifies this
      ensures Value() == Step(old(Value()), Get(layer))
    {
      match layer {
        case Container(gearDiffDir) =>
          if gearDiffDir !in gearCtr {
            gearCtr := gearCtr[gearDiffDir := 1];
            mounted := mounted + {gearDiffDir};
          } else {
            gearCtr := gearCtr[gearDiffDir := gearCtr[gearDiffDir] + 1];
          }
        case _ =>
      }
    }

    method DoPut(layer: Layer)
      modifies this
      ensures Value() == Step(old(Value()), Put(layer))
    {
      if layer != Plain {
        var gearDiffDir := layer.dir;
        var ctr := if gearDiffDir in gearCtr then gearCtr[gearDiffDir] else 0;
        if ctr <= 1 {
          gearCtr := gearCtr - {gearDiffDir};
          mounted := mounted - {gearDiffDir};
        } else {
          gearCtr := gearCtr[gearDiffDir := gearCtr[gearDiffDir] - 1];
        }
      }
    }
  }

  /** Gets of containers of `d` minus puts of its layers, never below zero. */
  function Saturating(ops: seq<Op>, d: Dir): nat {
    if ops == [] then 0
    else
      var c := Saturating(ops[..|ops| - 1], d);
      match ops[|ops| - 1]
      case Get(layer) => if layer == Container(d) then c + 1 else c
      case Put(layer) => if layer != Plain && layer.dir == d && c > 0 then c - 1 else c
  }

  /** Over every sequence of calls, balanced or not: the key is present exactly
      when the saturating count is positive, it then holds that count, and the
      directory is mounted exactly then. */
  lemma {:induction false} CountIsSaturating(ops: seq<Op>, d: Dir)
    ensures var s := Run(ops);
            && (d in s.gearCtr <==> Saturating(ops, d) > 0)
            && (d in s.gearCtr ==> s.gearCtr[d] == Saturating(ops, d))
            && (d in s.mounted <==> d in s.gearCtr)
  {
    if ops != [] {
      var front := ops[..|ops| - 1];
      CountIsSaturating(front, d);
    }
  }

  /** Container gets minus container puts. */
  function Outstanding(ops: seq<Op>, d: Dir): int {
    if ops == [] then 0
    else
      var c := Outstanding(ops[..|ops| - 1], d);
      match ops[|ops| - 1]
      case Get(layer) => if layer == Container(d) then c + 1 else c
      case Put(layer) => if layer == Container(d) then c - 1 else c
  }

  /** No container is put more often than it was got. */
  ghost predicate Balanced(ops: seq<Op>, d: Dir) {
    forall k :: 0 <= k <= |ops| ==> Outstanding(ops[..k], d) >= 0
  }

  ghost predicate Tracks(ops: seq<Op>, d: Dir) {
    forall k :: 0 <= k <= |ops| ==> Counter(Run(ops[..k]), d) == Outstanding(ops[..k], d)
  }

  /** The image directory is put only while no container is outstanding. */
  ghost predicate ImagePutsIdle(ops: seq<Op>, d: Dir) {
    forall k :: 0 <= k < |ops| && ops[k] == Put(Image(d)) ==> Outstanding(ops[..k], d) == 0
  }

  lemma {:induction false} IdleTracks(ops: seq<Op>, d: Dir, k: nat)
    requires Balanced(ops, d) && ImagePutsIdle(ops, d) && k <= |ops|
    ensures Saturating(ops[..k], d) == Outstanding(ops[..k], d)
  {
    if k > 0 {
      IdleTracks(ops, d, k - 1);
      assert ops[..k][..k - 1] == ops[..k - 1];
      assert ops[..k][k - 1] == ops[k - 1];
      assert Outstanding(ops[..k], d) >= 0;
    }
  }

  /** The counter is the number of outstanding containers all along exactly when
      the image directory itself is only put while there are none, because its
      put counts down although its get does not count. */
  lemma TracksIff(ops: seq<Op>, d: Dir)
    requires Balanced(ops, d)
    ensures Tracks(ops, d) <==> ImagePutsIdle(ops, d)
  {
    if ImagePutsIdle(ops, d) {
      forall k | 0 <= k <= |ops|
        ensures Counter(Run(ops[..k]), d) == Outstanding(ops[..k], d)
      {
        IdleTracks(ops, d, k);
        CountIsSaturating(ops[..k], d);
      }
    }
    if Tracks(ops, d) {
      forall k | 0 <= k < |ops| && ops[k] == Put(Image(d))
        ensures Outstanding(ops[..k], d) == 0
      {
        assert ops[..k + 1][..k] == ops[..k];
        CountIsSaturating(ops[..k], d);
        CountIsSaturating(ops[..k + 1], d);
        assert Counter(Run(ops[..k + 1]), d) == Outstanding(ops[..k + 1], d);
        assert Counter(Run(ops[..k]), d) == Outstanding(ops[..k], d);
        assert Outstanding(ops[..k], d) >= 0;
      }
    }
  }

  /** Then the mount is there exactly while some container is outstanding. */
  lemma MountedWhileOutstanding(ops: seq<Op>, d: Dir)
    requires Balanced(ops, d) && ImagePutsIdle(ops, d)
    ensures d in Run(ops).mounted <==> Outstanding(ops, d) > 0
  {
    assert ops[..|ops|] == ops;
    IdleTracks(ops, d, |ops|);
    CountIsSaturating(ops, d);
  }

  /** Getting and putting the image directory beside a running container takes
      the mount away from under it. */
  lemma ImagePutUnmounts(d: Dir)
    ensures var ops := [Get(Container(d)), Get(Image(d)), Put(Image(d))];
            Outstanding(ops, d) == 1 && d !in Run(ops).mounted
  {
    var ops := [Get(Container(d)), Get(Image(d)), Put(Image(d))];
    var two, one := [Get(Container(d)), Get(Image(d))], [Get(Container(d))];
    assert ops[..2] == two && two[..1] == one && one[..0] == [];
    assert Run(one) == Step(Run([]), Get(Container(d)));
    assert Outstanding(one, d) == 1;
    assert Run(two) == Run(one) && Outstanding(two, d) == 1;
  }
}
