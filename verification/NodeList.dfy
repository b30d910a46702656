/** The cluster node list: the text the manager sends for `GET /nodes` and the
    parser every client runs on it. */
module NodeList {
  import opened Text

  type uint64 = n: nat | n < UINT64_LIMIT

  datatype Node = Node(id: uint64, ip: string, port: string)

  /** Outcome of the parser: it stops the process on an id that is not a 64-bit
      decimal, and indexes out of range when a field is missing. */
  datatype Parsed = Nodes(nodes: seq<Node>) | BadId | MissingField

  function Entry(n: Node): string {
    Format(n.id) + ":" + n.ip + ":" + n.port
  }

  function Print(ns: seq<Node>): string {
    if ns == [] then "" else Entry(ns[0]) + ";" + Print(ns[1..])
  }

  function ParseEntry(slice: string): Parsed {
    var info := Split(slice, ':');
    match ParseUint(info[0])
    case None => BadId
    case Some(id) => if |info| < 3 then MissingField else Nodes([Node(id, info[1], info[2])])
  }

  function ParseEntries(slices: seq<string>): Parsed {
    if slices == [] then Nodes([])
    else
      match ParseEntry(slices[0])
      case Nodes(first) =>
        (match ParseEntries(slices[1..])
         case Nodes(rest) => Nodes(first + rest)
         case failure => failure)
      case failure => failure
  }

  function Parse(text: string): Parsed {
    var slices := Split(text, ';');
    ParseEntries(slices[..|slices| - 1])
  }

  /** Fields that the two separators cannot cut. */
  ghost predicate Clean(n: Node) {
    Free(n.ip, ':') && Free(n.ip, ';') && Free(n.port, ':') && Free(n.port, ';')
  }

  ghost predicate AllClean(ns: seq<Node>) {
    forall n :: n in ns ==> Clean(n)
  }

  // ----- the manager and the client -----

  /** `order` lists every node of the table outside `left` exactly once. */
  ghost predicate ListsBut(order: seq<Node>, table: map<uint64, Node>, left: set<uint64>) {
    && (forall n :: n in order ==> n.id in table && n.id !in left && table[n.id] == n)
    && (forall id :: id in table && id !in left ==> table[id].id == id && table[id] in order)
    && (forall i, j :: 0 <= i < j < |order| ==> order[i].id != order[j].id)
  }

  ghost predicate Lists(order: seq<Node>, table: map<uint64, Node>) {
    ListsBut(order, table, {})
  }

  lemma ListNext(order: seq<Node>, table: map<uint64, Node>, left: set<uint64>, id: uint64)
    requires ListsBut(order, table, left) && id in left && id in table && table[id].id == id
    ensures ListsBut(order + [table[id]], table, left - {id})
  {
    forall i | 0 <= i < |order|
      ensures order[i].id != id
    {
      assert order[i] in order;
    }
  }

  class Manager {
    var nodes: map<uint64, Node>

    ghost predicate Valid()
      reads this
    {
      forall id :: id in nodes ==> nodes[id].id == id
    }

    constructor ()
      ensures Valid() && nodes == map[]
    {
      nodes := map[];
    }

    /** `id` is the hash of `ip`; a node that is already known is kept. One join
        at a time; `JoinStep` has any number of them at once. */
    method HandleJoin(id: uint64, ip: string, port: string)
      requires Valid()
      modifies this
      ensures Valid()
      ensures nodes == if id in old(nodes) then old(nodes) else old(nodes)[id := Node(id, ip, port)]
    {
      if id !in nodes {
        nodes := nodes[id := Node(id, ip, port)];
      }
    }

    /** Walks the table in an arbitrary order, as a map range does. */
    method HandleNodes() returns (resp: string)
      requires Valid()
      ensures exists order :: Lists(order, nodes) && resp == Print(order)
    {
      resp := "";
      ghost var order: seq<Node> := [];
      var left := nodes.Keys;
      while left != {}
        invariant left <= nodes.Keys
        invariant ListsBut(order, nodes, left)
        invariant resp == Print(order)
      {
        var id :| id in left;
        var node := nodes[id];
        PrintAppend(order, node);
        ListNext(order, nodes, left, id);
        resp := resp + (Format(node.id) + ":" + node.ip + ":" + node.port + ";");
        order := order + [node];
        left := left - {id};
      }
      assert Lists(order, nodes);
    }
  }

  method GetNodes(nodesInString: string) returns (r: Parsed)
    ensures r == Parse(nodesInString)
  {
    var slices := Split(nodesInString, ';');
    var last := |slices| - 1;
    var nodes: seq<Node> := [];
    var k := 0;
    while k < last
      invariant 0 <= k <= last
      invariant Prepend(nodes, ParseEntries(slices[k..last])) == ParseEntries(slices[..last])
    {
      var info := Split(slices[k], ':');
      assert slices[k..last][1..] == slices[k + 1..last];
      var id := ParseUint(info[0]);
      if id == None {
        return BadId;
      }
      if |info| < 3 {
        return MissingField;
      }
      var node := Node(id.value, info[1], info[2]);
      assert ParseEntry(slices[k]) == Nodes([node]);
      PrependTwice(nodes, node, ParseEntries(slices[k + 1..last]));
      nodes := nodes + [node];
      k := k + 1;
    }
    r := Nodes(nodes);
  }

  function Prepend(nodes: seq<Node>, p: Parsed): Parsed {
    match p
    case Nodes(rest) => Nodes(nodes + rest)
    case failure => failure
  }

  lemma PrependTwice(nodes: seq<Node>, node: Node, p: Parsed)
    ensures Prepend(nodes + [node], p) == Prepend(nodes, Prepend([node], p))
  {
    if p.Nodes? {
      assert (nodes + [node]) + p.nodes == nodes + ([node] + p.nodes);
    }
  }

  lemma {:induction false} PrintAppend(ns: seq<Node>, n: Node)
    ensures Print(ns + [n]) == Print(ns) + (Entry(n) + ";")
  {
    if ns == [] {
      assert Print([n]) == Entry(n) + ";" + Print([]);
    } else {
      PrintAppend(ns[1..], n);
      assert (ns + [n])[1..] == ns[1..] + [n];
      var first, rest, last := Entry(ns[0]) + ";", Print(ns[1..]), Entry(n) + ";";
      assert first + (rest + last) == (first + rest) + last;
    }
  }

  /** A client fills its table from the parsed list. */
  function Collect(ns: seq<Node>): map<uint64, Node> {
    if ns == [] then map[] else Collect(ns[..|ns| - 1])[ns[|ns| - 1].id := ns[|ns| - 1]]
  }

  // ----- the text format -----

  lemma FormatFree(n: nat)
    ensures Free(Format(n), ':') && Free(Format(n), ';')
  {
    var s := Format(n);
    assert !IsDigit(':') && !IsDigit(';');
  }

  lemma ParseEntryOfPrint(n: Node)
    requires Clean(n)
    ensures Free(Entry(n), ';') && ParseEntry(Entry(n)) == Nodes([n])
  {
    FormatFree(n.id);
    var rest := n.ip + ":" + n.port;
    assert Entry(n) == Format(n.id) + [':'] + rest;
    SplitAtFirst(Format(n.id), ':', rest);
    SplitAtFirst(n.ip, ':', n.port);
    ParseFormat(n.id);
  }

  /** One printed entry in front of a text is one parsed node in front. */
  lemma ParseFront(n: Node, text: string)
    requires Clean(n)
    ensures Parse(Entry(n) + ";" + text) == Prepend([n], Parse(text))
  {
    ParseEntryOfPrint(n);
    SplitAtFirst(Entry(n), ';', text);
    var e, rest := Entry(n), Split(text, ';');
    assert ([e] + rest)[..|rest|] == [e] + rest[..|rest| - 1];
    assert ([e] + rest[..|rest| - 1])[1..] == rest[..|rest| - 1];
  }

  lemma {:induction false} ParseOfPrint(ns: seq<Node>)
    requires AllClean(ns)
    ensures Parse(Print(ns)) == Nodes(ns)
  {
    if ns == [] {
      assert Split("", ';')[..0] == [];
    } else {
      assert Clean(ns[0]);
      ParseOfPrint(ns[1..]);
      ParseFront(ns[0], Print(ns[1..]));
      assert ns == [ns[0]] + ns[1..];
    }
  }

  /** An entry field by field: the id comes first and is judged first, both
      other fields must be there, and what follows them is dropped. */
  lemma EntryFields(id: string, ip: string, port: string, rest: string)
    requires Free(id, ':') && Free(ip, ':') && Free(port, ':')
    ensures ParseUint(id).None? ==>
              && ParseEntry(id) == BadId && ParseEntry(id + ":" + ip) == BadId
              && ParseEntry(id + ":" + (ip + ":" + port)) == BadId
    ensures ParseUint(id).Some? ==>
              && ParseEntry(id) == MissingField && ParseEntry(id + ":" + ip) == MissingField
              && ParseEntry(id + ":" + (ip + ":" + port)) == Nodes([Node(ParseUint(id).value, ip, port)])
    ensures ParseEntry(id + ":" + (ip + ":" + (port + ":" + rest))) == ParseEntry(id + ":" + (ip + ":" + port))
  {
    SplitAtFirst(id, ':', ip);
    SplitAtFirst(id, ':', ip + ":" + port);
    SplitAtFirst(ip, ':', port);
    SplitAtFirst(id, ':', ip + ":" + (port + ":" + rest));
    SplitAtFirst(ip, ':', port + ":" + rest);
    SplitAtFirst(port, ':', rest);
  }

  /** The first entry that fails decides. */
  lemma {:induction false} FirstFailure(before: seq<string>, slice: string, after: seq<string>)
    requires forall s :: s in before ==> ParseEntry(s).Nodes?
    requires !ParseEntry(slice).Nodes?
    ensures ParseEntries(before + [slice] + after) == ParseEntry(slice)
  {
    var all := before + [slice] + after;
    if before != [] {
      assert before[0] in before;
      FirstFailure(before[1..], slice, after);
      assert all[1..] == before[1..] + [slice] + after;
    }
  }

  /** What follows the last ';' does not count. */
  lemma TailIsDropped(text: string, tail: string)
    requires Free(tail, ';')
    ensures Parse(text + ";" + tail) == ParseEntries(Split(text, ';'))
    ensures Parse(tail) == Nodes([])
  {
    SplitAppend(text, ';', tail);
    var x := Split(text, ';');
    assert (x + [tail])[..|x|] == x;
    assert Split(tail, ';')[..0] == [];
  }

  /** Whatever the parser accepts has clean fields. */
  lemma {:induction false} ParsedIsClean(slices: seq<string>)
    requires AllFree(slices, ';')
    ensures ParseEntries(slices).Nodes? ==> AllClean(ParseEntries(slices).nodes)
  {
    if slices != [] {
      ParsedIsClean(slices[1..]);
      assert Free(slices[0], ';');
      SplitKeepsFree(slices[0], ':', ';');
      var info := Split(slices[0], ':');
      if |info| >= 3 {
        assert Free(info[1], ';') && Free(info[2], ';');
      }
    }
  }

  /** The list survives the trip exactly when no address or port holds one of
      the two separators; an IPv6 address does. */
  lemma RoundTripIff(ns: seq<Node>)
    ensures Parse(Print(ns)) == Nodes(ns) <==> AllClean(ns)
  {
    if AllClean(ns) {
      ParseOfPrint(ns);
    }
    var slices := Split(Print(ns), ';');
    assert AllFree(slices[..|slices| - 1], ';');
    ParsedIsClean(slices[..|slices| - 1]);
  }

  lemma Ipv6IsCut()
    ensures var n := Node(7, "::1", "2020"); Parse(Print([n])) != Nodes([n])
  {
    var n := Node(7, "::1", "2020");
    assert n.ip[0] == ':';
    assert n in [n];
    RoundTripIff([n]);
  }

  lemma {:induction false} CollectKeys(ns: seq<Node>, k: nat)
    requires k < |ns|
    requires forall i, j :: 0 <= i < j < |ns| ==> ns[i].id != ns[j].id
    ensures ns[k].id in Collect(ns) && Collect(ns)[ns[k].id] == ns[k]
  {
    var m := |ns| - 1;
    if k < m {
      CollectKeys(ns[..m], k);
    }
  }

  lemma {:induction false} CollectOnly(ns: seq<Node>, id: uint64)
    requires id in Collect(ns)
    ensures exists n :: n in ns && n.id == id
  {
    var m := |ns| - 1;
    if id != ns[m].id {
      CollectOnly(ns[..m], id);
    } else {
      assert ns[m] in ns;
    }
  }

  /** In whatever order the manager walked its table, a client that parses the
      reply ends with the manager's table. */
  lemma ClientTableIsManagerTable(order: seq<Node>, table: map<uint64, Node>)
    requires Lists(order, table) && AllClean(order)
    ensures Parse(Print(order)) == Nodes(order) && Collect(order) == table
  {
    ParseOfPrint(order);
    forall id | id in table
      ensures id in Collect(order) && Collect(order)[id] == table[id]
    {
      assert table[id] in order;
      var k :| 0 <= k < |order| && order[k] == table[id];
      CollectKeys(order, k);
    }
    forall id | id in Collect(order)
      ensures id in table
    {
      CollectOnly(order, id);
    }
  }

  // ----- joins at once -----

  /** A join looks under the read lock and writes under the write lock, and lets
      go of the table in between. */
  datatype JoinPhase = Arriving | SawNothing | Done

  datatype Join = Join(node: Node, phase: JoinPhase)

  datatype Joins = Joins(table: map<uint64, Node>, joins: seq<Join>)

  datatype JoinEvent = Look(k: nat) | Enter(k: nat)

  function JoinStep(s: Joins, ev: JoinEvent): Joins {
    if ev.k >= |s.joins| then s
    else
      var j := s.joins[ev.k];
      match (j.phase, ev)
      case (Arriving, Look(k)) =>
        s.(joins := s.joins[k := j.(phase := if j.node.id in s.table then Done else SawNothing)])
      case (SawNothing, Enter(k)) =>
        Joins(s.table[j.node.id := j.node], s.joins[k := j.(phase := Done)])
      case _ => s
  }

  function JoinRun(s: Joins, events: seq<JoinEvent>): Joins
    decreases |events|
  {
    if events == [] then s else JoinRun(JoinStep(s, events[0]), events[1..])
  }

  /** Each entry is an old one or some join's own; known ids stay known; joins
      that are done are known. */
  ghost predicate JoinInv(start: Joins, s: Joins) {
    && |s.joins| == |start.joins|
    && (forall k :: 0 <= k < |s.joins| ==> s.joins[k].node == start.joins[k].node)
    && (forall k :: 0 <= k < |s.joins| && s.joins[k].phase == Done && start.joins[k].phase != Done ==>
          s.joins[k].node.id in s.table)
    && (forall id :: id in start.table ==> id in s.table)
    && (forall id :: id in s.table ==> FromSomewhere(start, id, s.table[id]))
  }

  ghost predicate FromSomewhere(start: Joins, id: uint64, n: Node) {
    || (id in start.table && start.table[id] == n)
    || exists k :: 0 <= k < |start.joins| && start.joins[k].node == n && n.id == id
  }

  lemma JoinStepKeeps(start: Joins, s: Joins, ev: JoinEvent)
    requires JoinInv(start, s)
    ensures JoinInv(start, JoinStep(s, ev))
  {
    var s' := JoinStep(s, ev);
    forall id | id in s'.table
      ensures FromSomewhere(start, id, s'.table[id])
    {
      if id !in s.table || s'.table[id] != s.table[id] {
        assert start.joins[ev.k].node == s'.table[id];
      }
    }
  }

  lemma {:induction false} JoinRunKeeps(start: Joins, s: Joins, events: seq<JoinEvent>)
    requires JoinInv(start, s)
    ensures JoinInv(start, JoinRun(s, events))
    decreases |events|
  {
    if events != [] {
      JoinStepKeeps(start, s, events[0]);
      JoinRunKeeps(start, JoinStep(s, events[0]), events[1..]);
    }
  }

  ghost predicate AllArriving(s: Joins) {
    forall k :: 0 <= k < |s.joins| ==> s.joins[k].phase == Arriving
  }

  ghost predicate AllDone(s: Joins) {
    forall k :: 0 <= k < |s.joins| ==> s.joins[k].phase == Done
  }

  /** Any number of joins in any interleaving: when all are done the table knows
      the old ids and every id that has joined, nothing else, and each entry is
      an old one or that of a join of its id. */
  lemma JoinsEnd(start: Joins, events: seq<JoinEvent>, id: uint64)
    requires AllArriving(start) && AllDone(JoinRun(start, events))
    ensures id in JoinRun(start, events).table <==>
            id in start.table || exists k :: 0 <= k < |start.joins| && start.joins[k].node.id == id
    ensures id in JoinRun(start, events).table ==> FromSomewhere(start, id, JoinRun(start, events).table[id])
  {
    JoinRunKeeps(start, start, events);
    var s := JoinRun(start, events);
    if k :| 0 <= k < |start.joins| && start.joins[k].node.id == id {
      assert s.joins[k].phase == Done && s.joins[k].node == start.joins[k].node;
    }
  }

  /** No join of the id, with another node, has looked too early. */
  ghost predicate Settled(s: Joins, id: uint64)
    requires id in s.table
  {
    forall k :: 0 <= k < |s.joins| && s.joins[k].phase == SawNothing && s.joins[k].node.id == id ==>
      s.joins[k].node == s.table[id]
  }

  ghost predicate EntryAfter(s: Joins, events: seq<JoinEvent>, id: uint64, n: Node) {
    id in JoinRun(s, events).table && JoinRun(s, events).table[id] == n
  }

  lemma {:induction false} SettledStays(s: Joins, events: seq<JoinEvent>, id: uint64)
    requires id in s.table && Settled(s, id)
    ensures EntryAfter(s, events, id, s.table[id])
    decreases |events|
  {
    if events != [] {
      SettledStays(JoinStep(s, events[0]), events[1..], id);
    }
  }

  /** A known node is kept whatever follows exactly when no join with another
      node under its id looked before it was known and has yet to write. */
  lemma KeptIff(s: Joins, id: uint64)
    requires id in s.table
    ensures (forall events :: EntryAfter(s, events, id, s.table[id])) <==> Settled(s, id)
  {
    if Settled(s, id) {
      forall events
        ensures EntryAfter(s, events, id, s.table[id])
      {
        SettledStays(s, events, id);
      }
    } else {
      var k :| 0 <= k < |s.joins| && s.joins[k].phase == SawNothing && s.joins[k].node.id == id
               && s.joins[k].node != s.table[id];
      assert [Enter(k)][1..] == [];
      assert JoinRun(s, [Enter(k)]) == JoinStep(s, Enter(k));
      assert !EntryAfter(s, [Enter(k)], id, s.table[id]);
    }
  }

  /** A join that nobody disturbs is done after its two steps, and has entered
      its node if the id was unknown. */
  lemma JoinAlone(s: Joins, k: nat)
    requires k < |s.joins| && s.joins[k].phase == Arriving
    ensures var node := s.joins[k].node;
            JoinRun(s, [Look(k)] + [Enter(k)]) ==
            Joins(if node.id in s.table then s.table else s.table[node.id := node],
                  s.joins[k := Join(node, Done)])
  {
    var looked := JoinStep(s, Look(k));
    assert ([Look(k)] + [Enter(k)])[1..] == [Enter(k)] && [Enter(k)][1..] == [];
    assert JoinRun(s, [Look(k)] + [Enter(k)]) == JoinRun(looked, [Enter(k)]);
    assert JoinRun(looked, [Enter(k)]) == JoinRun(JoinStep(looked, Enter(k)), []);
    assert looked.joins[k := Join(s.joins[k].node, Done)] == s.joins[k := Join(s.joins[k].node, Done)];
  }
}
