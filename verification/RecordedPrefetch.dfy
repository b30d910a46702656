/** From the records of a first run to the caches of the next one. */
module RecordedPrefetch {
  import opened Text
  import opened Overlay
  import opened LazyCache
  import opened TemplateLinks
  import opened GearWork
  import Recorder
  import Store

  /** A lookup through the mount of image `i` reports the cid in its index. */
  ghost predicate ReportedBy(w: World, i: Image, access: Recorder.Access) {
    FromIndex(w, i, (PathOf(access.0), access.1))
  }

  /** The whole parsed template, in some order of the map. */
  ghost predicate OrderOf(order: Template, template: map<string, string>) {
    && (forall e :: e in order ==> exists p :: p in template && e == (PathOf(p), template[p]))
    && (forall p :: p in template ==> (PathOf(p), template[p]) in order)
  }

  lemma {:induction false} FirstHashIsAccess(accesses: seq<Recorder.Access>, p: string)
    requires p in Recorder.FirstHash(accesses)
    ensures (p, Recorder.FirstHash(accesses)[p]) in accesses
  {
    var front, last := accesses[..|accesses| - 1], accesses[|accesses| - 1];
    assert accesses == front + [last];
    if p in Recorder.FirstHash(front) {
      FirstHashIsAccess(front, p);
    } else {
      assert last == (p, Recorder.FirstHash(accesses)[p]);
      assert last in accesses;
    }
  }

  lemma TemplateIsOwn(w: World, i: Image, accesses: seq<Recorder.Access>, order: Template)
    requires forall a :: a in accesses ==> ReportedBy(w, i, a)
    requires OrderOf(order, Recorder.FirstHash(accesses))
    ensures AllOwn(w, i, order)
  {
    var first := Recorder.FirstHash(accesses);
    forall e | e in order
      ensures FromIndex(w, i, e)
    {
      var p :| p in first && e == (PathOf(p), first[p]);
      FirstHashIsAccess(accesses, p);
      assert ReportedBy(w, i, (p, first[p]));
    }
  }

  /** What a prefetch leaves in the public cache and in gear-work. */
  lemma PrefetchedIsPublic(w: World, d: Disk, i: Image, files: seq<string>, order: Template)
    requires Inv(w, d) && AllOwn(w, i, order)
    ensures var (ok, d') := Prefetch(w, d, i, files, order);
            && ok && Kept(w, d, d')
            && (forall c :: c in d'.pub <==> c in d.pub || (c in files && c in d.storage))
            && (forall e :: e in order && e.1 in d'.pub ==> (i, e.0) in d'.work)
  {
    PrefetchKeeps(w, d, i, files, order);
    PrefetchTransfer(w, d, i, files);
    LinkTemplateKeeps(w, Unpacked(w, d, i, files), i, order);
  }

  lemma SessionFiles(s: Recorder.Session, first: map<string, string>, p: string)
    requires Recorder.Matches(s, first) && p in first
    ensures first[p] in Recorder.DistinctOf(s.hashes)
  {
    Recorder.DistinctOfIsDistinct(s.hashes);
    assert p in s.names;
  }

  lemma OwnNode(w: World, d: Disk, i: Image, e: (Path, string))
    requires Inv(w, d) && FromIndex(w, i, e) && (i, e.0) in d.work
    ensures e.1 in d.pub && d.work[(i, e.0)] == Hard(d.pub[e.1])
  {
    assert NodeOk(w, d, (i, e.0), d.work[(i, e.0)]);
    WorkIsHard(w, d, (i, e.0));
  }

  /** Record a first run of an image, print, parse, prefetch: as long as the
      records are the image's own and clean, the prefetch never fails, keeps
      every cache right, and afterwards every recorded file that the manager has
      is in the public cache and in gear-work. */
  lemma RecordedPrefetchWorks(w: World, d: Disk, i: Image, accesses: seq<Recorder.Access>, stop: Recorder.Event,
                              rest: seq<Recorder.Event>, order: Template)
    requires Inv(w, d) && accesses != [] && !stop.Accessed?
    requires forall a :: a in accesses ==> ReportedBy(w, i, a)
    requires Recorder.AllCleanPairs(Recorder.FirstHash(accesses))
    requires OrderOf(order, Recorder.FirstHash(accesses))
    ensures var first := Recorder.FirstHash(accesses);
            var s := Recorder.Run(Recorder.START, Recorder.Events(accesses) + [stop] + rest);
            s.text.Some? &&
            var g := Recorder.Parse(s.text.value);
            g.Some? && g.value.template == first &&
            var (ok, d') := Prefetch(w, d, i, g.value.files, order);
            && ok && Kept(w, d, d')
            && forall p :: p in first && first[p] in d.storage ==>
                 && first[p] in d'.pub
                 && (i, PathOf(p)) in d'.work && d'.work[(i, PathOf(p))] == Hard(d'.pub[first[p]])
  {
    var first := Recorder.FirstHash(accesses);
    Recorder.PipelineIff(accesses, stop, rest);
    Recorder.SessionEnds(accesses, stop, rest);
    var s := Recorder.Run(Recorder.START, Recorder.Events(accesses) + [stop] + rest);
    TemplateIsOwn(w, i, accesses, order);
    PrefetchedIsPublic(w, d, i, Recorder.DistinctOf(s.hashes), order);
    forall p | p in first
      ensures first[p] in Recorder.DistinctOf(s.hashes)
    {
      SessionFiles(s, first, p);
    }
    var after := Prefetch(w, d, i, Recorder.DistinctOf(s.hashes), order).1;
    forall p | p in first && first[p] in d.storage
      ensures first[p] in after.pub
      ensures (i, PathOf(p)) in after.work && after.work[(i, PathOf(p))] == Hard(after.pub[first[p]])
    {
      var e := (PathOf(p), first[p]);
      assert e in order && e.1 in after.pub;
      OwnNode(w, after, i, e);
    }
  }
}
