/** Pushing a directory of content files: ask the manager which are there,
    upload the rest, remove the directory. One pusher as it runs, and any number
    of them interleaved over one store. */
module Push {
  import opened Text
  import opened Store

  class Pusher {
    /** The directory, flat and named by cid; empty once it is removed. */
    var gFilesDir: map<string, Bytes>
    var filesToSent: set<string>
    const doNotClean: bool

    constructor (dir: map<string, Bytes>, doNotClean: bool)
      ensures gFilesDir == dir && filesToSent == {} && this.doNotClean == doNotClean
    {
      gFilesDir, filesToSent, this.doNotClean := dir, {}, doNotClean;
    }

    /** Every local file is in the store afterwards; what was there stays. */
    method Push(manager: Manager)
      requires manager as object != this
      modifies this, manager
      ensures manager.storage == old(gFilesDir) + old(manager.storage)
      ensures gFilesDir == if doNotClean then old(gFilesDir) else map[]
    {
      filesToSent := gFilesDir.Keys;
      var toDelete: set<string> := {};
      var left := filesToSent;
      while left != {}
        invariant left <= filesToSent == gFilesDir.Keys && gFilesDir == old(gFilesDir)
        invariant manager.storage == old(manager.storage)
        invariant forall c :: c in toDelete <==> c in filesToSent && c !in left && c in manager.storage
      {
        var cid :| cid in left;
        var status := manager.HandleQuery(cid);
        if status == Ok {
          toDelete := toDelete + {cid};
        }
        left := left - {cid};
      }
      filesToSent := filesToSent - toDelete;
      left := filesToSent;
      while left != {}
        invariant left <= filesToSent <= gFilesDir.Keys && gFilesDir == old(gFilesDir)
        invariant forall c :: c in gFilesDir ==> (c in filesToSent <==> c !in old(manager.storage))
        invariant forall c :: c in manager.storage <==> c in old(manager.storage) || (c in filesToSent && c !in left)
        invariant forall c :: c in manager.storage ==>
                    manager.storage[c] == (if c in old(manager.storage) then old(manager.storage)[c] else gFilesDir[c])
      {
        var cid :| cid in left;
        var status := manager.HandlePush(cid, gFilesDir[cid]);
        left := left - {cid};
      }
      assert manager.storage == gFilesDir + old(manager.storage);
      if !doNotClean {
        gFilesDir := map[];
      }
    }
  }

  // ----- any number of pushers over one store -----

  datatype Phase =
    | Querying(pending: set<string>, absent: set<string>)
    | Uploading(pending: set<string>)
    | Finished

  /** `files` is what the directory held at the start; `onDisk` tells whether
      it is still there. */
  datatype Worker = Worker(files: map<string, Bytes>, onDisk: bool, doNotClean: bool, phase: Phase)

  datatype State = State(store: map<string, Bytes>, workers: seq<Worker>)

  datatype Event =
    | Query(k: nat, cid: string)
    | EndQueries(k: nat)
    | Upload(k: nat, cid: string)
    | Finish(k: nat)

  function Step(s: State, ev: Event): State {
    if ev.k >= |s.workers| then s
    else
      var w := s.workers[ev.k];
      match (w.phase, ev)
      case (Querying(pending, absent), Query(k, cid)) =>
        if cid !in pending then s
        else
          var absent' := if cid in s.store then absent else absent + {cid};
          s.(workers := s.workers[k := w.(phase := Querying(pending - {cid}, absent'))])
      case (Querying(pending, absent), EndQueries(k)) =>
        if pending != {} then s
        else s.(workers := s.workers[k := w.(phase := Uploading(absent))])
      case (Uploading(pending), Upload(k, cid)) =>
        if cid !in pending || cid !in w.files then s
        else State(Pushed(s.store, cid, w.files[cid]),
                   s.workers[k := w.(phase := Uploading(pending - {cid}))])
      case (Uploading(pending), Finish(k)) =>
        if pending != {} then s
        else s.(workers := s.workers[k := w.(onDisk := w.doNotClean, phase := Finished)])
      case _ => s
  }

  function Run(s: State, events: seq<Event>): State
    decreases |events|
  {
    if events == [] then s else Run(Step(s, events[0]), events[1..])
  }

  ghost predicate Ready(w: Worker) {
    w.onDisk && w.phase == Querying(w.files.Keys, {})
  }

  ghost predicate Initial(s: State) {
    forall k :: 0 <= k < |s.workers| ==> Ready(s.workers[k])
  }

  ghost predicate Accounted(store: map<string, Bytes>, w: Worker) {
    && (!w.onDisk ==> w.phase == Finished)
    && match w.phase
       case Querying(pending, absent) =>
         && pending <= w.files.Keys && absent <= w.files.Keys
         && forall c :: c in w.files ==> c in pending || c in absent || c in store
       case Uploading(pending) =>
         && pending <= w.files.Keys
         && forall c :: c in w.files ==> c in pending || c in store
       case Finished => w.onDisk == w.doNotClean && forall c :: c in w.files ==> c in store
  }

  /** What is going to be uploaded was not in the store at the start. */
  ghost predicate OnlyNew(before: map<string, Bytes>, w: Worker) {
    match w.phase
    case Querying(_, absent) => absent !! before.Keys
    case Uploading(pending) => pending !! before.Keys
    case Finished => true
  }

  ghost predicate SameFiles(a: seq<Worker>, b: seq<Worker>) {
    |a| == |b| && forall k :: 0 <= k < |a| ==> a[k].files == b[k].files && a[k].doNotClean == b[k].doNotClean
  }

  ghost predicate From(c: string, bytes: Bytes, workers: seq<Worker>) {
    exists k :: 0 <= k < |workers| && c in workers[k].files && workers[k].files[c] == bytes
  }

  ghost predicate Inv(s0: State, s: State) {
    && SameFiles(s0.workers, s.workers)
    && (forall k :: 0 <= k < |s.workers| ==> Accounted(s.store, s.workers[k]) && OnlyNew(s0.store, s.workers[k]))
    && (forall c :: c in s0.store ==> c in s.store && s.store[c] == s0.store[c])
    && (forall c :: c in s.store && c !in s0.store ==> From(c, s.store[c], s0.workers))
  }

  /** Entries of the store never change. */
  ghost predicate Extends(store: map<string, Bytes>, store': map<string, Bytes>) {
    forall c :: c in store ==> c in store' && store'[c] == store[c]
  }

  lemma AccountedLater(store: map<string, Bytes>, store': map<string, Bytes>, w: Worker)
    requires Accounted(store, w) && Extends(store, store')
    ensures Accounted(store', w)
  {
  }

  /** What one event does to its own worker and to the store. */
  lemma StepOwn(s: State, ev: Event, before: map<string, Bytes>)
    requires ev.k < |s.workers| && Accounted(s.store, s.workers[ev.k])
    requires OnlyNew(before, s.workers[ev.k]) && Extends(before, s.store)
    ensures var s' := Step(s, ev);
            && |s'.workers| == |s.workers| && Extends(s.store, s'.store)
            && s'.workers[ev.k].files == s.workers[ev.k].files
            && s'.workers[ev.k].doNotClean == s.workers[ev.k].doNotClean
            && (forall k :: 0 <= k < |s.workers| && k != ev.k ==> s'.workers[k] == s.workers[k])
            && (forall c :: c in s'.store && c !in s.store ==>
                  c in s.workers[ev.k].files && s'.store[c] == s.workers[ev.k].files[c])
            && Accounted(s'.store, s'.workers[ev.k]) && OnlyNew(before, s'.workers[ev.k])
  {
  }

  lemma StepKeeps(s0: State, s: State, ev: Event)
    requires Inv(s0, s)
    ensures Inv(s0, Step(s, ev)) && Extends(s.store, Step(s, ev).store)
  {
    var s' := Step(s, ev);
    if ev.k < |s.workers| {
      StepOwn(s, ev, s0.store);
      assert s0.workers[ev.k].files == s.workers[ev.k].files;
      forall k | 0 <= k < |s'.workers|
        ensures Accounted(s'.store, s'.workers[k]) && OnlyNew(s0.store, s'.workers[k])
      {
        if k != ev.k {
          AccountedLater(s.store, s'.store, s.workers[k]);
        }
      }
      forall c | c in s'.store && c !in s0.store
        ensures From(c, s'.store[c], s0.workers)
      {
        if c !in s.store {
          assert s0.workers[ev.k].files[c] == s'.store[c];
        }
      }
    }
  }

  lemma {:induction false} RunKeeps(s0: State, s: State, events: seq<Event>)
    requires Inv(s0, s)
    ensures Inv(s0, Run(s, events)) && Extends(s.store, Run(s, events).store)
    decreases |events|
  {
    if events != [] {
      StepKeeps(s0, s, events[0]);
      RunKeeps(s0, Step(s, events[0]), events[1..]);
    }
  }

  ghost predicate Done(s: State) {
    forall k :: 0 <= k < |s.workers| ==> s.workers[k].phase == Finished
  }

  /** In every reachable state no content is lost: each local file is still in
      its directory or already in the store, whose old entries are untouched
      and whose new ones come from some pusher. */
  lemma NothingIsLost(s0: State, events: seq<Event>, k: nat, c: string)
    requires Initial(s0) && k < |s0.workers| && c in s0.workers[k].files
    ensures var s := Run(s0, events);
            && SameFiles(s0.workers, s.workers)
            && (s.workers[k].onDisk || c in s.store)
            && Extends(s0.store, s.store)
            && (c in s.store && c !in s0.store ==> From(c, s.store[c], s0.workers))
  {
    InitialInv(s0);
    RunKeeps(s0, s0, events);
    var s := Run(s0, events);
    assert Accounted(s.store, s.workers[k]);
  }

  lemma InitialInv(s0: State)
    requires Initial(s0)
    ensures Inv(s0, s0)
  {
    forall k | 0 <= k < |s0.workers|
      ensures Accounted(s0.store, s0.workers[k]) && OnlyNew(s0.store, s0.workers[k])
    {
      assert Ready(s0.workers[k]);
    }
  }

  /** No pusher ever has a file to upload that the store had from the start, and
      a finished one has removed its directory unless told otherwise. */
  lemma UploadsOnlyNew(s0: State, events: seq<Event>, k: nat)
    requires Initial(s0) && k < |s0.workers|
    ensures var s := Run(s0, events);
            && |s.workers| == |s0.workers|
            && (s.workers[k].phase.Uploading? ==> s.workers[k].phase.pending !! s0.store.Keys)
            && (s.workers[k].phase.Finished? ==> s.workers[k].onDisk == s0.workers[k].doNotClean)
  {
    InitialInv(s0);
    RunKeeps(s0, s0, events);
    var s := Run(s0, events);
    assert Accounted(s.store, s.workers[k]) && OnlyNew(s0.store, s.workers[k]);
  }

  /** When all pushers have finished, in whatever interleaving, the store holds
      the old entries and every local cid, and nothing else. */
  lemma FinalStore(s0: State, events: seq<Event>, c: string)
    requires Initial(s0) && Done(Run(s0, events))
    ensures var store := Run(s0, events).store;
            && (c in store <==> c in s0.store || exists k :: 0 <= k < |s0.workers| && c in s0.workers[k].files)
            && (c in s0.store ==> store[c] == s0.store[c])
            && (c in store && c !in s0.store ==> From(c, store[c], s0.workers))
  {
    InitialInv(s0);
    RunKeeps(s0, s0, events);
    var s := Run(s0, events);
    if k :| 0 <= k < |s0.workers| && c in s0.workers[k].files {
      assert Accounted(s.store, s.workers[k]);
    }
  }

  ghost predicate Agree(s0: State) {
    forall i, j, c |
      0 <= i < |s0.workers| && 0 <= j < |s0.workers| && c in s0.workers[i].files && c in s0.workers[j].files ::
      c in s0.store || s0.workers[i].files[c] == s0.workers[j].files[c]
  }

  /** Every new cid ends with the bytes each of its pushers has, exactly when
      pushers of one new cid agree on its bytes. */
  lemma FinalBytesIff(s0: State, events: seq<Event>)
    requires Initial(s0) && Done(Run(s0, events))
    ensures (forall k, c :: 0 <= k < |s0.workers| && c in s0.workers[k].files && c !in s0.store ==>
               c in Run(s0, events).store && Run(s0, events).store[c] == s0.workers[k].files[c])
            <==> Agree(s0)
  {
    var store := Run(s0, events).store;
    if Agree(s0) {
      forall k, c | 0 <= k < |s0.workers| && c in s0.workers[k].files && c !in s0.store
        ensures c in store && store[c] == s0.workers[k].files[c]
      {
        FinalStore(s0, events, c);
      }
    }
  }

  // ----- every pusher can finish -----

  lemma {:induction false} RunConcat(s: State, a: seq<Event>, b: seq<Event>)
    ensures Run(s, a + b) == Run(Run(s, a), b)
    decreases |a|
  {
    if a == [] {
      assert a + b == b;
    } else {
      assert (a + b)[1..] == a[1..] + b;
      RunConcat(Step(s, a[0]), a[1..], b);
    }
  }

  lemma RunCons(s: State, ev: Event, events: seq<Event>)
    ensures Run(s, [ev] + events) == Run(Step(s, ev), events)
  {
    assert ([ev] + events)[1..] == events;
  }

  lemma {:induction false} CanUpload(s: State, k: nat) returns (events: seq<Event>)
    requires k < |s.workers| && s.workers[k].phase.Uploading?
    requires s.workers[k].phase.pending <= s.workers[k].files.Keys
    ensures |Run(s, events).workers| == |s.workers| && Run(s, events).workers[k].phase == Finished
    decreases |s.workers[k].phase.pending|
  {
    var pending := s.workers[k].phase.pending;
    if pending == {} {
      events := [Finish(k)];
      RunCons(s, Finish(k), []);
    } else {
      var cid :| cid in pending;
      assert pending - {cid} < pending;
      var rest := CanUpload(Step(s, Upload(k, cid)), k);
      events := [Upload(k, cid)] + rest;
      RunCons(s, Upload(k, cid), rest);
    }
  }

  lemma {:induction false} CanQuery(s: State, k: nat) returns (events: seq<Event>)
    requires k < |s.workers| && s.workers[k].phase.Querying?
    requires s.workers[k].phase.pending <= s.workers[k].files.Keys
    requires s.workers[k].phase.absent <= s.workers[k].files.Keys
    ensures |Run(s, events).workers| == |s.workers| && Run(s, events).workers[k].phase == Finished
    decreases |s.workers[k].phase.pending|
  {
    var pending := s.workers[k].phase.pending;
    if pending == {} {
      var rest := CanUpload(Step(s, EndQueries(k)), k);
      events := [EndQueries(k)] + rest;
      RunCons(s, EndQueries(k), rest);
    } else {
      var cid :| cid in pending;
      assert pending - {cid} < pending;
      var rest := CanQuery(Step(s, Query(k, cid)), k);
      events := [Query(k, cid)] + rest;
      RunCons(s, Query(k, cid), rest);
    }
  }

  /** Whatever has happened, any pusher can still finish. */
  lemma CanFinish(s0: State, before: seq<Event>, k: nat)
    requires Initial(s0) && k < |s0.workers|
    ensures exists after ::
              |Run(s0, before + after).workers| == |s0.workers| && Run(s0, before + after).workers[k].phase == Finished
  {
    InitialInv(s0);
    RunKeeps(s0, s0, before);
    var s := Run(s0, before);
    assert Accounted(s.store, s.workers[k]);
    var after: seq<Event> := [];
    match s.workers[k].phase {
      case Querying(_, _) => after := CanQuery(s, k);
      case Uploading(_) => after := CanUpload(s, k);
      case Finished =>
    }
    RunConcat(s0, before, after);
  }
}
