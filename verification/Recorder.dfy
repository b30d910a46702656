/** The monitoring session of a first run, the `RecordFiles` text it leaves, and
    the parser that a later run feeds its prefetch from. */
module Recorder {
  import opened Text

  /** A file that was looked up: its path in the image and its content hash. */
  type Access = (string, string)

  datatype Event = Accessed(path: string, hash: string) | Timer | Unmount

  datatype Phase = Recording | Reported | Crashed

  datatype Report = Report(files: seq<string>, filenames: seq<string>)

  datatype Session = Session(
    names: seq<string>,
    hashes: seq<string>,
    reports: seq<Report>,
    text: Option<string>,
    phase: Phase)

  // ----- the text -----

  function Line(name: string, hash: string): string {
    name + " " + hash
  }

  function Lines(names: seq<string>, hashes: seq<string>): (lines: seq<string>)
    requires |names| == |hashes|
    ensures |lines| == |names|
  {
    if names == [] then []
    else
      var m := |names| - 1;
      Lines(names[..m], hashes[..m]) + [Line(names[m], hashes[m])]
  }

  method PrintRecord(names: seq<string>, hashes: seq<string>) returns (content: string)
    requires |names| == |hashes| > 0
    ensures content == Join(Lines(names, hashes), '\n')
  {
    content := "";
    var last := |hashes| - 1;
    for i := 0 to last
      invariant i == 0 ==> content == ""
      invariant i > 0 ==> content == Join(Lines(names[..i], hashes[..i]), '\n') + "\n"
    {
      assert names[..i + 1][..i] == names[..i] && hashes[..i + 1][..i] == hashes[..i];
      JoinLast(Lines(names[..i], hashes[..i]), Line(names[i], hashes[i]));
      content := content + (names[i] + " " + hashes[i]) + "\n";
    }
    JoinLast(Lines(names[..last], hashes[..last]), Line(names[last], hashes[last]));
    content := content + (names[last] + " " + hashes[last]);
  }

  lemma JoinLast(lines: seq<string>, line: string)
    ensures Join(lines + [line], '\n') == if lines == [] then line else Join(lines, '\n') + "\n" + line
  {
    if lines == [] {
      assert [] + [line] == [line];
    } else {
      JoinConcat(lines, [line], '\n');
    }
  }

  /** What the parser has gathered; None stands for the out-of-range index on a
      line without a space. */
  datatype Gathered = Gathered(files: seq<string>, template: map<string, string>)

  function ParseLine(g: Gathered, line: string): Option<Gathered> {
    var c := Split(line, ' ');
    if |c| < 2 then None
    else if c[1] == "" then Some(g)
    else Some(Gathered(
                if c[1] in g.files then g.files else g.files + [c[1]],
                if c[0] in g.template then g.template else g.template[c[0] := c[1]]))
  }

  /** A line is read word by word: the second word counts as the hash of the
      first, whatever follows; without a second word nothing is gathered, and
      without a space the parser fails. So a recorded path with a space stands
      for its first word, with its second as the hash. */
  lemma WordsOfLine(g: Gathered, a: string, b: string, rest: string)
    requires Free(a, ' ') && Free(b, ' ')
    ensures ParseLine(g, a) == None
    ensures ParseLine(g, a + " " + b) == ParseLine(g, a + " " + b + " " + rest)
    ensures b == "" ==> ParseLine(g, a + " " + b) == Some(g)
    ensures b != "" ==>
              var r := ParseLine(g, a + " " + b);
              && r.Some?
              && r.value.files == g.files + (if b in g.files then [] else [b])
              && r.value.template == if a in g.template then g.template else g.template[a := b]
  {
    SplitAtFirst(a, ' ', b);
    SplitAtFirst(a, ' ', b + " " + rest);
    SplitAtFirst(b, ' ', rest);
    assert a + " " + b + " " + rest == a + " " + (b + " " + rest);
    assert g.files + [] == g.files;
  }

  function ParseLines(lines: seq<string>): Option<Gathered> {
    if lines == [] then Some(Gathered([], map[]))
    else
      match ParseLines(lines[..|lines| - 1])
      case None => None
      case Some(g) => ParseLine(g, lines[|lines| - 1])
  }

  function Parse(text: string): Option<Gathered> {
    ParseLines(Split(text, '\n'))
  }

  method ParseRecord(values: string) returns (r: Option<Gathered>)
    ensures r == Parse(values)
  {
    var nameAndFiles := Split(values, '\n');
    var dedup: set<string> := {};
    var files: seq<string> := [];
    var template: map<string, string> := map[];
    for k := 0 to |nameAndFiles|
      invariant ParseLines(nameAndFiles[..k]) == Some(Gathered(files, template))
      invariant forall f :: f in dedup <==> f in files
    {
      assert nameAndFiles[..k + 1][..k] == nameAndFiles[..k];
      var c := Split(nameAndFiles[k], ' ');
      if |c| < 2 {
        ParseStops(nameAndFiles, k + 1);
        return None;
      }
      if c[1] != "" {
        if c[1] !in dedup {
          dedup := dedup + {c[1]};
          files := files + [c[1]];
        }
        if c[0] !in template {
          template := template[c[0] := c[1]];
        }
      }
    }
    assert nameAndFiles[..|nameAndFiles|] == nameAndFiles;
    r := Some(Gathered(files, template));
  }

  lemma {:induction false} ParseStops(lines: seq<string>, k: nat)
    requires k <= |lines| && ParseLines(lines[..k]) == None
    ensures ParseLines(lines) == None
  {
    if k == |lines| {
      assert lines[..k] == lines;
    } else {
      var front := lines[..|lines| - 1];
      assert front[..k] == lines[..k];
      ParseStops(front, k);
    }
  }

  // ----- the session -----

  function Stop(s: Session): Session {
    if |s.hashes| != |s.names| then s.(reports := s.reports + [Report(s.hashes, s.names)], phase := Reported)
    else if |s.hashes| == 0 then s.(phase := Crashed)
    else Session(s.names, s.hashes, s.reports + [Report(s.hashes, s.names)],
                 Some(Join(Lines(s.names, s.hashes), '\n')), Reported)
  }

  function Record(s: Session, path: string, hash: string): Session {
    if path in s.names then s else s.(names := s.names + [path], hashes := s.hashes + [hash])
  }

  function Step(s: Session, ev: Event): Session {
    if s.phase != Recording then s
    else
      match ev
      case Accessed(path, hash) => Record(s, path, hash)
      case _ => Stop(s)
  }

  function Run(s: Session, events: seq<Event>): Session {
    if events == [] then s else Step(Run(s, events[..|events| - 1]), events[|events| - 1])
  }

  const START := Session([], [], [], None, Recording)

  /** The select loop of one session. */
  class Monitor {
    var dupFiles: set<string>
    var recordFiles: seq<string>
    var recordFileNames: seq<string>
    var reports: seq<Report>
    var recordText: Option<string>
    var phase: Phase

    function Value(): Session
      reads this
    {
      Session(recordFileNames, recordFiles, reports, recordText, phase)
    }

    ghost predicate Valid()
      reads this
    {
      && (forall n :: n in dupFiles <==> n in recordFileNames)
      && |recordFiles| == |recordFileNames|
    }

    constructor ()
      ensures Valid() && Value() == START
    {
      dupFiles, recordFiles, recordFileNames := {}, [], [];
      reports, recordText, phase := [], None, Recording;
    }

    /** One turn of the select loop. */
    method Handle(ev: Event)
      requires Valid() && phase == Recording
      modifies this
      ensures Valid() && Value() == Step(old(Value()), ev)
    {
      match ev {
        case Accessed(path, hash) =>
          if path !in dupFiles {
            dupFiles := dupFiles + {path};
            recordFiles := recordFiles + [hash];
            recordFileNames := recordFileNames + [path];
          }
        case _ =>
          if |recordFiles| == 0 {
            phase := Crashed;
          } else {
            var content := PrintRecord(recordFileNames, recordFiles);
            recordText := Some(content);
            reports := reports + [Report(recordFiles, recordFileNames)];
            phase := Reported;
          }
      }
    }

    /** Serves events until the session has reported or crashed. */
    method Serve(events: seq<Event>)
      requires Valid() && phase == Recording
      modifies this
      ensures Valid() && Value() == Run(old(Value()), events)
    {
      ghost var s := Value();
      var k := 0;
      while k < |events| && phase == Recording
        invariant 0 <= k <= |events| && Valid()
        invariant Value() == Run(s, events[..k])
        decreases |events| - k
      {
        assert events[..k + 1][..k] == events[..k];
        Handle(events[k]);
        k := k + 1;
      }
      if k < |events| {
        RunEnded(s, events, k);
      } else {
        assert events[..k] == events;
      }
    }
  }

  /** A session that has ended takes no notice of later events. */
  lemma {:induction false} RunEnded(s: Session, events: seq<Event>, k: nat)
    requires k <= |events| && Run(s, events[..k]).phase != Recording
    ensures Run(s, events) == Run(s, events[..k])
  {
    if k == |events| {
      assert events[..k] == events;
    } else {
      var front := events[..|events| - 1];
      assert front[..k] == events[..k];
      RunEnded(s, front, k);
    }
  }

  ghost predicate Distinct(list: seq<string>) {
    forall i, j :: 0 <= i < j < |list| ==> list[i] != list[j]
  }

  /** First hash of every path of a stream. */
  function FirstHash(accesses: seq<Access>): map<string, string> {
    if accesses == [] then map[]
    else
      var m, (path, hash) := FirstHash(accesses[..|accesses| - 1]), accesses[|accesses| - 1];
      if path in m then m else m[path := hash]
  }

  function DistinctOf(list: seq<string>): seq<string> {
    if list == [] then []
    else
      var d, x := DistinctOf(list[..|list| - 1]), list[|list| - 1];
      if x in d then d else d + [x]
  }

  function Events(accesses: seq<Access>): (events: seq<Event>)
    ensures |events| == |accesses|
  {
    if accesses == [] then []
    else
      var last := accesses[|accesses| - 1];
      Events(accesses[..|accesses| - 1]) + [Accessed(last.0, last.1)]
  }

  /** The lists stay in step, names are distinct, and each hash is the first
      one seen for its path. */
  ghost predicate Matches(s: Session, first: map<string, string>) {
    && |s.names| == |s.hashes| && Distinct(s.names)
    && (forall k :: 0 <= k < |s.names| ==> s.names[k] in first && first[s.names[k]] == s.hashes[k])
    && (forall p :: p in first ==> p in s.names)
  }

  lemma {:induction false} RecordingMatches(accesses: seq<Access>)
    ensures var s := Run(START, Events(accesses));
            Matches(s, FirstHash(accesses)) && s.phase == Recording && s.reports == [] && s.text == None
  {
    if accesses != [] {
      var front := accesses[..|accesses| - 1];
      RecordingMatches(front);
      assert Events(accesses)[..|accesses| - 1] == Events(front);
    }
  }

  /** For every order of events: the lists stay in step, so the mismatch branch
      is never taken, names are distinct, and at most one report is sent. */
  lemma {:induction false} SessionInvariant(events: seq<Event>)
    ensures var s := Run(START, events);
            && |s.names| == |s.hashes| && Distinct(s.names) && |s.reports| <= 1
            && (s.phase == Reported <==> |s.reports| == 1) && (s.text.Some? <==> s.phase == Reported)
  {
    if events != [] {
      SessionInvariant(events[..|events| - 1]);
    }
  }

  /** How any session ends: the first timer or unmount event makes it report
      once, with everything recorded before, and nothing later counts. Without
      a record before, it fails instead and reports nothing. */
  lemma SessionEnds(accesses: seq<Access>, stop: Event, rest: seq<Event>)
    requires !stop.Accessed?
    ensures var recorded := Run(START, Events(accesses));
            var s := Run(START, Events(accesses) + [stop] + rest);
            if accesses == [] then s.phase == Crashed && s.reports == [] && s.text == None
            else && s.phase == Reported
                 && s.names == recorded.names && s.hashes == recorded.hashes
                 && s.reports == [Report(s.hashes, s.names)]
                 && Matches(s, FirstHash(accesses))
                 && s.text == Some(Join(Lines(s.names, s.hashes), '\n'))
  {
    var events := Events(accesses) + [stop] + rest;
    var k := |accesses|;
    assert events[..k + 1] == Events(accesses) + [stop];
    assert (Events(accesses) + [stop])[..k] == Events(accesses);
    RecordingMatches(accesses);
    var recorded := Run(START, Events(accesses));
    if accesses != [] {
      var last := accesses[k - 1];
      assert last.0 in FirstHash(accesses);
    }
    RunEnded(START, events, k + 1);
  }

  // ----- recorder, printer and parser together -----

  ghost predicate CleanAccess(path: string, hash: string) {
    && Free(path, ' ') && Free(path, '\n')
    && Free(hash, ' ') && Free(hash, '\n') && hash != ""
  }

  ghost predicate AllCleanPairs(m: map<string, string>) {
    forall p :: p in m ==> CleanAccess(p, m[p])
  }

  lemma ParseCleanLine(g: Gathered, path: string, hash: string)
    requires CleanAccess(path, hash)
    ensures Free(Line(path, hash), '\n')
    ensures ParseLine(g, Line(path, hash)) ==
            Some(Gathered(if hash in g.files then g.files else g.files + [hash],
                          if path in g.template then g.template else g.template[path := hash]))
  {
    SplitAtFirst(path, ' ', hash);
    assert Line(path, hash) == path + [' '] + hash;
  }

  function Zip(names: seq<string>, hashes: seq<string>): map<string, string>
    requires |names| == |hashes|
  {
    if names == [] then map[]
    else
      var m := |names| - 1;
      Zip(names[..m], hashes[..m])[names[m] := hashes[m]]
  }

  lemma {:induction false} ZipKeys(names: seq<string>, hashes: seq<string>)
    requires |names| == |hashes|
    ensures forall p :: p in Zip(names, hashes) <==> p in names
  {
    if names != [] {
      var m := |names| - 1;
      ZipKeys(names[..m], hashes[..m]);
      assert names == names[..m] + [names[m]];
    }
  }

  lemma LinesLast(names: seq<string>, hashes: seq<string>)
    requires |names| == |hashes| > 0
    ensures var m := |names| - 1;
            var lines := Lines(names, hashes);
            lines[..m] == Lines(names[..m], hashes[..m]) && lines[m] == Line(names[m], hashes[m])
  {
  }

  lemma {:induction false} ParseCleanLines(names: seq<string>, hashes: seq<string>)
    requires |names| == |hashes| && Distinct(names)
    requires forall k :: 0 <= k < |names| ==> CleanAccess(names[k], hashes[k])
    ensures AllFree(Lines(names, hashes), '\n')
    ensures ParseLines(Lines(names, hashes)) == Some(Gathered(DistinctOf(hashes), Zip(names, hashes)))
  {
    if names != [] {
      var m := |names| - 1;
      ParseCleanLines(names[..m], hashes[..m]);
      ZipKeys(names[..m], hashes[..m]);
      LinesLast(names, hashes);
      assert names[m] !in names[..m];
      ParseCleanLine(Gathered(DistinctOf(hashes[..m]), Zip(names[..m], hashes[..m])), names[m], hashes[m]);
    }
  }

  /** Whatever the parser gathers is clean. */
  lemma {:induction false} GatheredIsClean(lines: seq<string>)
    requires AllFree(lines, '\n')
    ensures ParseLines(lines).Some? ==> AllCleanPairs(ParseLines(lines).value.template)
  {
    if lines != [] {
      var line := lines[|lines| - 1];
      GatheredIsClean(lines[..|lines| - 1]);
      assert Free(line, '\n');
      SplitKeepsFree(line, ' ', '\n');
      var c := Split(line, ' ');
      if |c| >= 2 {
        assert Free(c[0], '\n') && Free(c[1], '\n');
      }
    }
  }

  lemma {:induction false} ZipIsFirst(names: seq<string>, hashes: seq<string>, k: nat)
    requires |names| == |hashes| && Distinct(names) && k < |names|
    ensures names[k] in Zip(names, hashes) && Zip(names, hashes)[names[k]] == hashes[k]
  {
    var m := |names| - 1;
    if k < m {
      assert names[k] != names[m];
      ZipIsFirst(names[..m], hashes[..m], k);
    }
  }

  lemma MatchesZip(s: Session, first: map<string, string>)
    requires Matches(s, first)
    ensures Zip(s.names, s.hashes) == first
  {
    ZipKeys(s.names, s.hashes);
    forall p | p in first
      ensures p in Zip(s.names, s.hashes) && Zip(s.names, s.hashes)[p] == first[p]
    {
      var k :| 0 <= k < |s.names| && s.names[k] == p;
      ZipIsFirst(s.names, s.hashes, k);
    }
  }

  /** The whole pipeline. What the parser makes of the text of a session is the
      first hash of every path and the distinct ones of those hashes in order,
      exactly when no recorded path holds a space or a newline and no recorded
      hash does or is empty. */
  lemma PipelineIff(accesses: seq<Access>, stop: Event, rest: seq<Event>)
    requires accesses != [] && !stop.Accessed?
    ensures var s := Run(START, Events(accesses) + [stop] + rest);
            s.text.Some? &&
            (Parse(s.text.value) == Some(Gathered(DistinctOf(s.hashes), FirstHash(accesses)))
             <==> AllCleanPairs(FirstHash(accesses)))
  {
    var first := FirstHash(accesses);
    SessionEnds(accesses, stop, rest);
    assert accesses[|accesses| - 1].0 in first;
    var s := Run(START, Events(accesses) + [stop] + rest);
    var text := s.text.value;
    if AllCleanPairs(first) {
      CleanSessionParses(s, first);
    }
    assert AllFree(Split(text, '\n'), '\n');
    GatheredIsClean(Split(text, '\n'));
  }

  lemma CleanSessionParses(s: Session, first: map<string, string>)
    requires Matches(s, first) && AllCleanPairs(first) && |s.names| >= 1
    ensures Parse(Join(Lines(s.names, s.hashes), '\n')) == Some(Gathered(DistinctOf(s.hashes), first))
  {
    forall k | 0 <= k < |s.names|
      ensures CleanAccess(s.names[k], s.hashes[k])
    {
      assert s.names[k] in first;
    }
    ParseCleanLines(s.names, s.hashes);
    SplitJoin(Lines(s.names, s.hashes), '\n');
    MatchesZip(s, first);
  }

  /** The list of distinct hashes has each recorded hash once. */
  lemma {:induction false} DistinctOfIsDistinct(list: seq<string>)
    ensures Distinct(DistinctOf(list))
    ensures forall x :: x in DistinctOf(list) <==> x in list
  {
    if list != [] {
      DistinctOfIsDistinct(list[..|list| - 1]);
      assert list == list[..|list| - 1] + [list[|list| - 1]];
    }
  }
}
