/** Several processes fill one file of the public cache at once: each looks
    whether the name exists, creates (and so truncates) it, writes the content
    piece by piece at its own offset, closes and hard-links it. All of them
    write the same content and share one inode. The manager fills a file of its
    store in the same way on a push. */
module ConcurrentFill {
  import opened Text

  datatype Pc =
    | Start
    | SawMissing
    | Writing(offset: nat)
    | Closed
    | Linked

  /** `latest` remembers which process truncated the file last. */
  datatype State = State(file: Option<Bytes>, procs: seq<Pc>, latest: nat)

  datatype Event =
    | Stat(k: nat)
    | Create(k: nat)
    | Write(k: nat, n: nat)
    | Close(k: nat)
    | Link(k: nat)

  const ZERO: char := '\0'

  function Zeros(n: nat): (s: Bytes)
    ensures |s| == n && forall j :: 0 <= j < n ==> s[j] == ZERO
  {
    seq(n, _ => ZERO)
  }

  /** A write past the end leaves a hole of zero bytes. */
  function WriteAt(f: Bytes, offset: nat, chunk: Bytes): Bytes {
    var padded := if |f| < offset then f + Zeros(offset - |f|) else f;
    padded[..offset] + chunk + (if offset + |chunk| < |f| then f[offset + |chunk|..] else "")
  }

  /** One step of one process; None is the fatal link to a missing file. An
      event that the process is not ready for does nothing. */
  function Step(content: Bytes, s: State, ev: Event): Option<State> {
    if ev.k >= |s.procs| then Some(s)
    else
      match (s.procs[ev.k], ev)
      case (Start, Stat(k)) => Some(s.(procs := s.procs[k := if s.file.Some? then Closed else SawMissing]))
      case (SawMissing, Create(k)) => Some(State(Some(""), s.procs[k := Writing(0)], k))
      case (Writing(offset), Write(k, n)) =>
        if s.file.Some? && offset + n <= |content|
        then Some(s.(file := Some(WriteAt(s.file.value, offset, content[offset..offset + n])),
                     procs := s.procs[k := Writing(offset + n)]))
        else Some(s)
      case (Writing(offset), Close(k)) =>
        if offset == |content| then Some(s.(procs := s.procs[k := Closed])) else Some(s)
      case (Closed, Link(k)) =>
        if s.file.Some? then Some(s.(procs := s.procs[k := Linked])) else None
      case _ => Some(s)
  }

  function Run(content: Bytes, s: State, events: seq<Event>): Option<State>
    decreases |events|
  {
    if events == [] then Some(s)
    else
      match Step(content, s, events[0])
      case Some(next) => Run(content, next, events[1..])
      case None => None
  }

  function Fresh(n: nat): State {
    State(None, seq(n, _ => Start), 0)
  }

  /** How far the process has written, once it has created the file. */
  function Progress(content: Bytes, pc: Pc): nat {
    match pc
    case Writing(offset) => offset
    case Closed => |content|
    case Linked => |content|
    case _ => 0
  }

  ghost predicate Waiting(pc: Pc) {
    pc == Start || pc == SawMissing
  }

  /** Up to where the latest truncating process has written, the file is right;
      every other byte is right or zero. */
  ghost predicate Inv(content: Bytes, s: State) {
    && (forall k :: 0 <= k < |s.procs| ==> Progress(content, s.procs[k]) <= |content|)
    && (s.file.None? ==> forall k :: 0 <= k < |s.procs| ==> Waiting(s.procs[k]))
    && (s.file.Some? ==>
          && s.latest < |s.procs| && !Waiting(s.procs[s.latest])
          && FilledTo(content, s.file.value, Progress(content, s.procs[s.latest])))
  }

  ghost predicate FilledTo(content: Bytes, f: Bytes, n: nat) {
    && n <= |f| <= |content|
    && (forall j :: 0 <= j < |f| ==> f[j] == content[j] || f[j] == ZERO)
    && (forall j :: 0 <= j < n ==> f[j] == content[j])
  }

  /** The bytes of a file after a write. */
  lemma WriteAtBytes(f: Bytes, offset: nat, chunk: Bytes)
    ensures var r := WriteAt(f, offset, chunk);
            && |r| == (if |f| < offset + |chunk| then offset + |chunk| else |f|)
            && forall j :: 0 <= j < |r| ==>
                 r[j] == if offset <= j < offset + |chunk| then chunk[j - offset]
                         else if j < |f| then f[j] else ZERO
  {
    var padded := if |f| < offset then f + Zeros(offset - |f|) else f;
    var tail := if offset + |chunk| < |f| then f[offset + |chunk|..] else "";
    assert WriteAt(f, offset, chunk) == padded[..offset] + chunk + tail;
  }

  lemma WriteKeeps(content: Bytes, f: Bytes, n: nat, offset: nat, len: nat)
    requires FilledTo(content, f, n) && offset + len <= |content|
    ensures FilledTo(content, WriteAt(f, offset, content[offset..offset + len]), n)
    ensures n == offset ==> FilledTo(content, WriteAt(f, offset, content[offset..offset + len]), offset + len)
  {
    WriteAtBytes(f, offset, content[offset..offset + len]);
  }

  lemma WriteStepKeeps(content: Bytes, s: State, k: nat, n: nat)
    requires Inv(content, s) && k < |s.procs| && s.procs[k].Writing?
    requires s.file.Some? && s.procs[k].offset + n <= |content|
    ensures Inv(content, Step(content, s, Write(k, n)).value)
  {
    WriteKeeps(content, s.file.value, Progress(content, s.procs[s.latest]), s.procs[k].offset, n);
  }

  lemma StepKeeps(content: Bytes, s: State, ev: Event)
    requires Inv(content, s)
    ensures Step(content, s, ev).Some? && Inv(content, Step(content, s, ev).value)
  {
    if ev.k < |s.procs| {
      assert Progress(content, s.procs[ev.k]) <= |content|;
      if s.procs[ev.k].Writing? && ev.Write? {
        if s.file.Some? && s.procs[ev.k].offset + ev.n <= |content| {
          WriteStepKeeps(content, s, ev.k, ev.n);
        }
      }
    }
  }

  lemma {:induction false} RunKeeps(content: Bytes, s: State, events: seq<Event>)
    requires Inv(content, s)
    ensures Run(content, s, events).Some? && Inv(content, Run(content, s, events).value)
    decreases |events|
  {
    if events != [] {
      StepKeeps(content, s, events[0]);
      RunKeeps(content, Step(content, s, events[0]).value, events[1..]);
    }
  }

  ghost predicate InFlight(s: State) {
    exists k :: 0 <= k < |s.procs| && s.procs[k].Writing?
  }

  /** Any number of processes, any interleaving: no link is ever fatal, and
      whenever no write is in flight the file is absent or complete. */
  lemma Quiescent(content: Bytes, n: nat, events: seq<Event>)
    ensures var r := Run(content, Fresh(n), events);
            r.Some? && (!InFlight(r.value) ==> r.value.file == None || r.value.file == Some(content))
  {
    RunKeeps(content, Fresh(n), events);
    var s := Run(content, Fresh(n), events).value;
    if !InFlight(s) && s.file.Some? {
      assert !s.procs[s.latest].Writing?;
      assert s.file.value == content;
    }
  }

  /** A process that has its link reads the whole content as soon as the latest
      truncating process has written everything, whoever is still writing. */
  lemma LatestDone(content: Bytes, n: nat, events: seq<Event>, k: nat)
    ensures var r := Run(content, Fresh(n), events);
            r.Some? &&
            (k < |r.value.procs| && r.value.procs[k].Linked? ==>
               && r.value.file.Some? && r.value.latest < |r.value.procs|
               && (Progress(content, r.value.procs[r.value.latest]) == |content| ==> r.value.file == Some(content)))
  {
    RunKeeps(content, Fresh(n), events);
    var s := Run(content, Fresh(n), events).value;
    if k < |s.procs| && s.procs[k].Linked? {
      assert s.file.Some?;
      if Progress(content, s.procs[s.latest]) == |content| {
        assert s.file.value == content;
      }
    }
  }

  // ----- a torn read -----

  lemma RunCons(content: Bytes, s: State, ev: Event, events: seq<Event>)
    requires Step(content, s, ev).Some?
    ensures Run(content, s, [ev] + events) == Run(content, Step(content, s, ev).value, events)
  {
    assert ([ev] + events)[1..] == events;
  }

  lemma {:induction false} RunConcat(content: Bytes, s: State, a: seq<Event>, b: seq<Event>)
    requires Run(content, s, a).Some?
    ensures Run(content, s, a + b) == Run(content, Run(content, s, a).value, b)
    decreases |a|
  {
    if a == [] {
      assert a + b == b;
    } else {
      RunConcat(content, Step(content, s, a[0]).value, a[1..], b);
      assert (a + b)[1..] == a[1..] + b;
    }
  }

  lemma BothLook(content: Bytes)
    ensures Run(content, Fresh(2), [Stat(0)] + ([Stat(1)] + [Create(0)]))
            == Some(State(Some(""), [Writing(0), SawMissing], 0))
  {
    var s0 := Fresh(2);
    assert s0.procs[0 := SawMissing] == [SawMissing, Start];
    var s1 := State(None, [SawMissing, Start], 0);
    assert s1.procs[1 := SawMissing] == [SawMissing, SawMissing];
    var s2 := State(None, [SawMissing, SawMissing], 0);
    assert s2.procs[0 := Writing(0)] == [Writing(0), SawMissing];
    RunCons(content, s2, Create(0), []);
    RunCons(content, s1, Stat(1), [Create(0)]);
    RunCons(content, s0, Stat(0), [Stat(1)] + [Create(0)]);
    assert [Create(0)] + [] == [Create(0)];
  }

  lemma FirstFinishes(content: Bytes, s: State)
    requires s == State(Some(""), [Writing(0), SawMissing], 0)
    ensures Run(content, s, [Write(0, |content|)] + [Close(0)]) == Some(State(Some(content), [Closed, SawMissing], 0))
  {
    var n := |content|;
    var next := State(Some(content), [Writing(n), SawMissing], 0);
    assert WriteAt("", 0, content[0..n]) == content;
    assert s.procs[0 := Writing(n)] == next.procs;
    assert next.procs[0 := Closed] == [Closed, SawMissing];
    RunCons(content, next, Close(0), []);
    assert [Close(0)] + [] == [Close(0)];
    RunCons(content, s, Write(0, n), [Close(0)]);
  }

  lemma FirstLinksSecondTruncates(content: Bytes, s: State)
    requires s == State(Some(content), [Closed, SawMissing], 0)
    ensures Run(content, s, [Link(0)] + [Create(1)]) == Some(State(Some(""), [Linked, Writing(0)], 1))
  {
    var next := State(Some(content), [Linked, SawMissing], 0);
    assert s.procs[0 := Linked] == next.procs;
    assert next.procs[1 := Writing(0)] == [Linked, Writing(0)];
    RunCons(content, next, Create(1), []);
    assert [Create(1)] + [] == [Create(1)];
    RunCons(content, s, Link(0), [Create(1)]);
  }

  /** Quiescence is needed: whatever the content, there is a run of two
      processes in which the first has finished and holds its link, and reads
      an empty file, because the second truncates it afterwards. */
  lemma TornRead(content: Bytes)
    ensures exists events ::
              var r := Run(content, Fresh(2), events);
              r.Some? && r.value.procs == [Linked, Writing(0)] && r.value.file == Some("")
  {
    var look := [Stat(0)] + ([Stat(1)] + [Create(0)]);
    var fill, late := [Write(0, |content|)] + [Close(0)], [Link(0)] + [Create(1)];
    BothLook(content);
    var s3 := Run(content, Fresh(2), look).value;
    FirstFinishes(content, s3);
    var s5 := Run(content, s3, fill).value;
    FirstLinksSecondTruncates(content, s5);
    RunConcat(content, Fresh(2), look, fill);
    RunConcat(content, Fresh(2), look + fill, late);
    var r := Run(content, Fresh(2), look + fill + late);
    assert r.Some? && r.value.procs == [Linked, Writing(0)] && r.value.file == Some("");
  }

  // ----- when a finished file stays complete -----

  /** The file is complete, and no process that has found it missing is still to
      truncate it; truncating does no harm to an empty file. */
  ghost predicate Settled(content: Bytes, s: State) {
    s.file == Some(content) && (content == "" || NoneSawMissing(s))
  }

  ghost predicate NoneSawMissing(s: State) {
    forall k :: 0 <= k < |s.procs| ==> s.procs[k] != SawMissing
  }

  lemma SettledStep(content: Bytes, s: State, ev: Event)
    requires Inv(content, s) && Settled(content, s)
    ensures Step(content, s, ev).Some? && Settled(content, Step(content, s, ev).value)
  {
    if ev.k < |s.procs| && s.procs[ev.k].Writing? && ev.Write? && s.procs[ev.k].offset + ev.n <= |content| {
      WriteAgain(content, s.procs[ev.k].offset, ev.n);
    }
  }

  lemma WriteAgain(content: Bytes, offset: nat, n: nat)
    requires offset + n <= |content|
    ensures WriteAt(content, offset, content[offset..offset + n]) == content
  {
    WriteAtBytes(content, offset, content[offset..offset + n]);
  }

  lemma {:induction false} SettledStays(content: Bytes, s: State, events: seq<Event>)
    requires Inv(content, s) && Settled(content, s)
    ensures Run(content, s, events).Some? && Settled(content, Run(content, s, events).value)
    decreases |events|
  {
    if events != [] {
      StepKeeps(content, s, events[0]);
      SettledStep(content, s, events[0]);
      SettledStays(content, Step(content, s, events[0]).value, events[1..]);
    }
  }

  ghost predicate CompleteAfter(content: Bytes, s: State, events: seq<Event>) {
    Run(content, s, events).Some? && Run(content, s, events).value.file == Some(content)
  }

  /** In a reachable state, the file is complete and stays so whatever follows,
      exactly when it is complete and no process has found it missing without
      having created it yet. */
  lemma StaysCompleteIff(content: Bytes, s: State)
    requires Inv(content, s)
    ensures (forall events :: CompleteAfter(content, s, events)) <==> Settled(content, s)
  {
    if Settled(content, s) {
      forall events
        ensures CompleteAfter(content, s, events)
      {
        SettledStays(content, s, events);
      }
    } else {
      assert CompleteAfter(content, s, []) ==> s.file == Some(content);
      if s.file == Some(content) {
        var k :| 0 <= k < |s.procs| && s.procs[k] == SawMissing;
        RunCons(content, s, Create(k), []);
        assert [Create(k)] + [] == [Create(k)];
        assert !CompleteAfter(content, s, [Create(k)]);
      }
    }
  }

  /** The same, from the start of any number of processes. */
  lemma CompleteForGoodIff(content: Bytes, n: nat, before: seq<Event>)
    ensures var r := Run(content, Fresh(n), before);
            r.Some? && ((forall after :: CompleteAfter(content, r.value, after)) <==> Settled(content, r.value))
  {
    RunKeeps(content, Fresh(n), before);
    StaysCompleteIff(content, Run(content, Fresh(n), before).value);
  }

  // ----- what one step and one process can do -----

  /** The one fatal step, the only steps that touch the file, and the only one
      that gives a link. */
  lemma StepTells(content: Bytes, s: State, ev: Event)
    ensures var r := Step(content, s, ev);
            && (r.None? <==> ev.Link? && ev.k < |s.procs| && s.procs[ev.k].Closed? && s.file.None?)
            && (r.Some? ==>
                  && |r.value.procs| == |s.procs|
                  && (forall k :: 0 <= k < |s.procs| && k != ev.k ==> r.value.procs[k] == s.procs[k])
                  && (r.value.file != s.file ==> ev.Create? || ev.Write?)
                  && (forall k :: 0 <= k < |s.procs| && r.value.procs[k].Linked? ==>
                        s.procs[k].Linked? || (ev == Link(k) && s.procs[k].Closed?)))
  {
  }

  /** A process that is not disturbed ends with its link; it has filled a missing
      file and left one alone that was there. */
  lemma Undisturbed(content: Bytes, s: State, k: nat)
    requires k < |s.procs| && s.procs[k] == Start
    ensures var r := Run(content, s, [Stat(k)] + ([Create(k)] + ([Write(k, |content|)] + ([Close(k)] + [Link(k)]))));
            && r.Some? && r.value.procs == s.procs[k := Linked]
            && r.value.file == Some(if s.file.Some? then s.file.value else content)
  {
    RunCons(content, s, Stat(k), [Create(k)] + ([Write(k, |content|)] + ([Close(k)] + [Link(k)])));
    var seen := Step(content, s, Stat(k)).value;
    RunCons(content, seen, Create(k), [Write(k, |content|)] + ([Close(k)] + [Link(k)]));
    var created := Step(content, seen, Create(k)).value;
    RunCons(content, created, Write(k, |content|), [Close(k)] + [Link(k)]);
    var written := Step(content, created, Write(k, |content|)).value;
    RunCons(content, written, Close(k), [Link(k)]);
    var closed := Step(content, written, Close(k)).value;
    RunCons(content, closed, Link(k), []);
    assert [Link(k)] + [] == [Link(k)];
    if s.file.None? {
      assert WriteAt("", 0, content[0..|content|]) == content;
    }
    assert closed.procs == s.procs[k := Closed];
    assert closed.procs[k := Linked] == s.procs[k := Linked];
  }
}
