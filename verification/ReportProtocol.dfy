/** The client's record of which files an image fetched on its first run: it is
    asked whether an image is recorded, told about files, and told to report. */
module ReportProtocol {

  type Image = string
  type Cid = string

  datatype Request = Recorded(image: Image) | Record(image: Image, cid: Cid) | ReportNow(image: Image)

  datatype Reply = Ok | Created | FromMonitor(status: nat)

  datatype State = State(
    recordedImages: map<Image, bool>,             // true until the report is sent
    imageFetchedFiles: map<Image, set<Cid>>,
    sent: seq<(Image, set<Cid>)>)

  function Step(s: State, r: Request): State {
    match r
    case Recorded(i) =>
      if i in s.recordedImages then s
      else s.(recordedImages := s.recordedImages[i := true], imageFetchedFiles := s.imageFetchedFiles[i := {}])
    case Record(i, cid) =>
      if i in s.recordedImages && s.recordedImages[i] && i in s.imageFetchedFiles
      then s.(imageFetchedFiles := s.imageFetchedFiles[i := s.imageFetchedFiles[i] + {cid}])
      else s
    case ReportNow(i) =>
      if i in s.recordedImages && s.recordedImages[i] && i in s.imageFetchedFiles
      then s.(recordedImages := s.recordedImages[i := false], sent := s.sent + [(i, s.imageFetchedFiles[i])])
      else s
  }

  function Run(rs: seq<Request>): State {
    if rs == [] then State(map[], map[], []) else Step(Run(rs[..|rs| - 1]), rs[|rs| - 1])
  }

  class Client {
    var recordedImages: map<Image, bool>
    var imageFetchedFiles: map<Image, set<Cid>>
    var sent: seq<(Image, set<Cid>)>

    function Value(): State
      reads this
    {
      State(recordedImages, imageFetchedFiles, sent)
    }

    /** Every image that is known has its inner set. */
    ghost predicate Valid()
      reads this
    {
      recordedImages.Keys == imageFetchedFiles.Keys
    }

    constructor ()
      ensures Valid() && Value() == Run([])
    {
      recordedImages, imageFetchedFiles, sent := map[], map[], [];
    }

    method HandleRecorded(image: Image) returns (reply: Reply)
      requires Valid()
      modifies this
      ensures Valid() && Value() == Step(old(Value()), Recorded(image))
      ensures reply == if image in old(recordedImages) then Created else Ok
    {
      if image !in recordedImages {
        recordedImages := recordedImages[image := true];
        imageFetchedFiles := imageFetchedFiles[image := {}];
        return Ok;
      }
      return Created;
    }

    method HandleRecord(image: Image, cid: Cid) returns (reply: Reply)
      requires Valid()
      modifies this
      ensures Valid() && Value() == Step(old(Value()), Record(image, cid)) && reply == Ok
    {
      if image in recordedImages && !recordedImages[image] {
        return Ok;
      }
      if image in recordedImages {
        if cid !in imageFetchedFiles[image] {
          imageFetchedFiles := imageFetchedFiles[image := imageFetchedFiles[image] + {cid}];
        } else {
          assert imageFetchedFiles[image] + {cid} == imageFetchedFiles[image];
          assert imageFetchedFiles[image := imageFetchedFiles[image]] == imageFetchedFiles;
        }
      }
      return Ok;
    }

    /** `status` is what the monitor answers, if it is asked at all. */
    method HandleReport(image: Image, status: nat) returns (reply: Reply)
      requires Valid()
      modifies this
      ensures Valid() && Value() == Step(old(Value()), ReportNow(image))
      ensures reply == if PhaseOf(old(Value()), image) == Recording then FromMonitor(status) else Ok
      ensures reply == Ok <==> sent == old(sent)
    {
      if image in recordedImages && recordedImages[image] {
        recordedImages := recordedImages[image := false];
        sent := sent + [(image, imageFetchedFiles[image])];
        return FromMonitor(status);
      }
      return Ok;
    }
  }

  /** Both maps know the same images, so no write meets a missing inner map. */
  lemma {:induction false} SameKeys(rs: seq<Request>)
    ensures Run(rs).recordedImages.Keys == Run(rs).imageFetchedFiles.Keys
  {
    if rs != [] {
      SameKeys(rs[..|rs| - 1]);
    }
  }

  datatype Phase = Absent | Recording | Reported

  function PhaseOf(s: State, i: Image): Phase {
    if i !in s.recordedImages then Absent else if s.recordedImages[i] then Recording else Reported
  }

  function Rank(p: Phase): nat {
    match p
    case Absent => 0
    case Recording => 1
    case Reported => 2
  }

  /** An image goes from absent over recording to reported, one step at a time
      and never back. */
  lemma PhasesAdvance(s: State, r: Request, i: Image)
    ensures Rank(PhaseOf(s, i)) <= Rank(PhaseOf(Step(s, r), i)) <= Rank(PhaseOf(s, i)) + 1
  {
  }

  /** Payloads of the reports sent for `i`. */
  function SentFor(sent: seq<(Image, set<Cid>)>, i: Image): seq<set<Cid>> {
    if sent == [] then []
    else SentFor(sent[..|sent| - 1], i) +
         (if sent[|sent| - 1].0 == i then [sent[|sent| - 1].1] else [])
  }

  function CidsOf(rs: seq<Request>, i: Image): set<Cid> {
    set r | r in rs && r.Record? && r.image == i :: r.cid
  }

  lemma SentAppend(sent: seq<(Image, set<Cid>)>, last: (Image, set<Cid>), i: Image)
    ensures SentFor(sent + [last], i) == SentFor(sent, i) + (if last.0 == i then [last.1] else [])
  {
    assert (sent + [last])[..|sent|] == sent;
  }

  lemma SentStep(s: State, r: Request, i: Image)
    ensures SentFor(Step(s, r).sent, i) ==
            SentFor(s.sent, i) +
            (if r == ReportNow(i) && PhaseOf(s, i) == Recording && i in s.imageFetchedFiles
             then [s.imageFetchedFiles[i]] else [])
  {
    if r.ReportNow? && PhaseOf(s, r.image) == Recording && r.image in s.imageFetchedFiles {
      SentAppend(s.sent, (r.image, s.imageFetchedFiles[r.image]), i);
    }
  }

  lemma ReportStep(s: State, r: Request, i: Image)
    requires s.recordedImages.Keys == s.imageFetchedFiles.Keys
    ensures PhaseOf(s, i) == Reported ==> PhaseOf(Step(s, r), i) == Reported
    ensures |SentFor(Step(s, r).sent, i)| ==
            |SentFor(s.sent, i)| + (if PhaseOf(s, i) != Reported && PhaseOf(Step(s, r), i) == Reported then 1 else 0)
  {
    SentStep(s, r, i);
  }

  /** Over every sequence of requests at most one report is sent per image, and
      it has been sent exactly when the image counts as reported. */
  lemma {:induction false} AtMostOneReport(rs: seq<Request>, i: Image)
    ensures |SentFor(Run(rs).sent, i)| == if PhaseOf(Run(rs), i) == Reported then 1 else 0
  {
    if rs != [] {
      var front, last := rs[..|rs| - 1], rs[|rs| - 1];
      AtMostOneReport(front, i);
      SameKeys(front);
      ReportStep(Run(front), last, i);
    }
  }

  /** Before the first question about an image nothing is kept for it. */
  lemma {:induction false} NothingBefore(rs: seq<Request>, i: Image)
    requires Recorded(i) !in rs
    ensures PhaseOf(Run(rs), i) == Absent && SentFor(Run(rs).sent, i) == []
  {
    if rs != [] {
      var front, last := rs[..|rs| - 1], rs[|rs| - 1];
      assert last in rs;
      NothingBefore(front, i);
      SentStep(Run(front), last, i);
    }
  }

  lemma RecordingStep(s: State, r: Request, i: Image)
    requires PhaseOf(s, i) == Recording && i in s.imageFetchedFiles && r != ReportNow(i)
    ensures var s' := Step(s, r);
            && PhaseOf(s', i) == Recording && i in s'.imageFetchedFiles
            && s'.imageFetchedFiles[i] == s.imageFetchedFiles[i] + (if r.Record? && r.image == i then {r.cid} else {})
  {
  }

  /** While an image is recording, its set is what was recorded since. */
  lemma {:induction false} RecordingSince(a: seq<Request>, b: seq<Request>, i: Image)
    requires Recorded(i) !in a && ReportNow(i) !in b
    ensures var s := Run(a + [Recorded(i)] + b);
            && PhaseOf(s, i) == Recording && SentFor(s.sent, i) == []
            && i in s.imageFetchedFiles && s.imageFetchedFiles[i] == CidsOf(b, i)
  {
    var rs := a + [Recorded(i)] + b;
    if b == [] {
      assert rs[..|rs| - 1] == a && rs[|rs| - 1] == Recorded(i);
      NothingBefore(a, i);
    } else {
      var front, last := b[..|b| - 1], b[|b| - 1];
      assert rs[..|rs| - 1] == a + [Recorded(i)] + front && rs[|rs| - 1] == last;
      assert last in b;
      RecordingSince(a, front, i);
      RecordingStep(Run(a + [Recorded(i)] + front), last, i);
      SentStep(Run(a + [Recorded(i)] + front), last, i);
      CidsOfLast(b, i);
    }
  }

  lemma CidsOfLast(b: seq<Request>, i: Image)
    requires b != []
    ensures var front, last := b[..|b| - 1], b[|b| - 1];
            CidsOf(b, i) == CidsOf(front, i) + (if last.Record? && last.image == i then {last.cid} else {})
  {
    var front, last := b[..|b| - 1], b[|b| - 1];
    assert b == front + [last];
  }

  lemma FrozenStep(s: State, r: Request, i: Image)
    requires PhaseOf(s, i) == Reported && i in s.imageFetchedFiles
    ensures PhaseOf(Step(s, r), i) == Reported
    ensures i in Step(s, r).imageFetchedFiles && Step(s, r).imageFetchedFiles[i] == s.imageFetchedFiles[i]
  {
  }

  lemma {:induction false} NothingAfter(rs: seq<Request>, c: seq<Request>, i: Image)
    requires PhaseOf(Run(rs), i) == Reported && i in Run(rs).imageFetchedFiles
    ensures PhaseOf(Run(rs + c), i) == Reported && SentFor(Run(rs + c).sent, i) == SentFor(Run(rs).sent, i)
    ensures i in Run(rs + c).imageFetchedFiles
    ensures Run(rs + c).imageFetchedFiles[i] == Run(rs).imageFetchedFiles[i]
  {
    if c == [] {
      assert rs + c == rs;
    } else {
      var front, last := c[..|c| - 1], c[|c| - 1];
      assert (rs + c)[..|rs + c| - 1] == rs + front && (rs + c)[|rs + c| - 1] == last;
      NothingAfter(rs, front, i);
      SentStep(Run(rs + front), last, i);
      FrozenStep(Run(rs + front), last, i);
    }
  }

  /** Whatever is asked before and after, one report is sent per image, at the
      first report request after the first question, and it holds exactly the
      cids recorded between the two; what comes later is not even kept. */
  lemma OneReport(a: seq<Request>, b: seq<Request>, c: seq<Request>, i: Image)
    requires Recorded(i) !in a && ReportNow(i) !in b
    ensures var s := Run(a + [Recorded(i)] + b + [ReportNow(i)] + c);
            SentFor(s.sent, i) == [CidsOf(b, i)] &&
            i in s.imageFetchedFiles && s.imageFetchedFiles[i] == CidsOf(b, i)
  {
    var before := a + [Recorded(i)] + b;
    RecordingSince(a, b, i);
    var rs := before + [ReportNow(i)];
    assert rs[..|rs| - 1] == before && rs[|rs| - 1] == ReportNow(i);
    SentStep(Run(before), ReportNow(i), i);
    NothingAfter(rs, c, i);
    assert a + [Recorded(i)] + b + [ReportNow(i)] + c == rs + c;
  }
}
