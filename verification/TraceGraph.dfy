/** Turning a finished trace into its two call graphs: one between servers, one between functions. */
module TraceGraph {
  import opened TraceData
  import opened CallStats
  import Assembly = TraceAssembly

  datatype Kind = Server | Function

  datatype EdgeKey = EdgeKey(fromVertex: string, toVertex: string, order: int)

  datatype Graph = Graph(vertexes: seq<Stat<string>>, edges: seq<Stat<EdgeKey>>)

  /** The vertex a span belongs to. */
  function Name(kind: Kind, s: Span): string {
    match kind case Server => s.slave case Function => s.slave + "." + s.func
  }

  /** Only function edges carry their depth. */
  function NextOrder(kind: Kind, order: int): int {
    match kind case Server => order case Function => order + 1
  }

  function FirstOrder(kind: Kind): int {
    match kind case Server => 0 case Function => 1
  }

  predicate ValidInterval(begin: int, end: int) {
    begin != 0 && end != 0 && begin <= end
  }

  /** One call of end - begin if both ends are known and in order, otherwise nothing. */
  function Timed<K>(key: K, begin: int, end: int): Stat<K> {
    if ValidInterval(begin, end) then Stat(key, 1, end - begin) else Stat(key, 0, 0)
  }

  // ----- the recursion over the child relation -----

  /** The recursion from id finishes within fuel nested calls. */
  predicate Ends(spans: seq<Span>, id: string, fuel: nat)
    decreases fuel
  {
    fuel > 0 && forall c :: c in Lookup(spans, id).children ==> Ends(spans, c, fuel - 1)
  }

  datatype Visit = Visit(span: Span, fromVertex: string, order: int)

  /** The calls of the recursion, in the order in which they are made. */
  ghost function Visits(kind: Kind, spans: seq<Span>, order: int, fromVertex: string, id: string, fuel: nat): seq<Visit>
    requires Ends(spans, id, fuel)
    decreases fuel, 0
  {
    var s := Lookup(spans, id);
    [Visit(s, fromVertex, order)] + VisitsAll(kind, spans, NextOrder(kind, order), Name(kind, s), s.children, fuel - 1)
  }

  ghost function VisitsAll(kind: Kind, spans: seq<Span>, order: int, fromVertex: string, ids: seq<string>, fuel: nat)
    : seq<Visit>
    requires forall c :: c in ids ==> Ends(spans, c, fuel)
    decreases fuel, |ids|
  {
    if ids == [] then []
    else
      VisitsAll(kind, spans, order, fromVertex, ids[..|ids| - 1], fuel)
      + Visits(kind, spans, order, fromVertex, ids[|ids| - 1], fuel)
  }

  function VertexStats(kind: Kind, visits: seq<Visit>): (r: seq<Stat<string>>)
    ensures |r| == |visits|
  {
    seq(|visits|, i requires 0 <= i < |visits| =>
      var s := visits[i].span; Timed(Name(kind, s), s.srTime, s.ssTime))
  }

  function EdgeStats(kind: Kind, visits: seq<Visit>): (r: seq<Stat<EdgeKey>>)
    ensures |r| == |visits|
  {
    seq(|visits|, i requires 0 <= i < |visits| =>
      var s := visits[i].span; Timed(EdgeKey(visits[i].fromVertex, Name(kind, s), visits[i].order), s.csTime, s.crTime))
  }

  function RootStat(t: Trace): Stat<string> {
    Timed(t.tMaster, t.tsTime, t.teTime)
  }

  ghost function TraceVisits(kind: Kind, t: Trace): seq<Visit>
    requires Ends(t.spans, t.tSpan, |t.spans|)
  {
    Visits(kind, t.spans, FirstOrder(kind), t.tMaster, t.tSpan, |t.spans|)
  }

  /** What the graph builder returns for a trace on which it finishes. */
  ghost function GraphOf(kind: Kind, t: Trace): Graph
    requires t.tSpan != "" ==> Ends(t.spans, t.tSpan, |t.spans|)
  {
    if t.tSpan == "" then Graph([], [])
    else
      var visits := TraceVisits(kind, t);
      Graph(InsertAll([], [RootStat(t)] + VertexStats(kind, visits)), InsertAll([], EdgeStats(kind, visits)))
  }

  // ----- when the recursion finishes -----

  ghost predicate Walk(spans: seq<Span>, p: seq<string>) {
    |p| > 0 && forall i :: 0 <= i < |p| - 1 ==> Linked(spans, p[i], p[i + 1])
  }

  lemma {:induction false} MoreFuel(spans: seq<Span>, id: string, fuel: nat, more: nat)
    requires Ends(spans, id, fuel) && fuel <= more
    ensures Ends(spans, id, more)
    decreases fuel
  {
    forall c | c in Lookup(spans, id).children ensures Ends(spans, c, more - 1) {
      MoreFuel(spans, c, fuel - 1, more - 1);
    }
  }

  lemma {:induction false} WalkEnds(spans: seq<Span>, p: seq<string>, fuel: nat)
    requires Walk(spans, p) && Ends(spans, p[0], fuel)
    ensures fuel >= |p| && Ends(spans, p[|p| - 1], fuel - (|p| - 1))
    decreases |p|
  {
    if |p| > 1 {
      assert Linked(spans, p[0], p[1]);
      WalkEnds(spans, p[1..], fuel - 1);
    }
  }

  lemma {:induction false} CycleNeverEnds(spans: seq<Span>, p: seq<string>, fuel: nat)
    requires Walk(spans, p) && |p| > 1 && p[0] == p[|p| - 1]
    ensures !Ends(spans, p[0], fuel)
    decreases fuel
  {
    if Ends(spans, p[0], fuel) {
      WalkEnds(spans, p, fuel);
      CycleNeverEnds(spans, p, fuel - (|p| - 1));
    }
  }

  lemma {:induction false} EndlessWalk(spans: seq<Span>, id: string, fuel: nat) returns (p: seq<string>)
    requires !Ends(spans, id, fuel)
    ensures Walk(spans, p) && p[0] == id && |p| == fuel + 1
    decreases fuel
  {
    if fuel == 0 {
      p := [id];
    } else {
      var c :| c in Lookup(spans, id).children && !Ends(spans, c, fuel - 1);
      var q := EndlessWalk(spans, c, fuel - 1);
      p := [id] + q;
      assert forall i :: 0 < i < |p| - 1 ==> p[i] == q[i - 1] && p[i + 1] == q[i];
    }
  }

  ghost predicate Closed(spans: seq<Span>) {
    forall s, c :: s in spans && c in s.children ==> Known(spans, c)
  }

  lemma {:induction false} WalkStaysKnown(spans: seq<Span>, p: seq<string>, i: nat)
    requires Closed(spans) && Walk(spans, p) && Known(spans, p[0]) && i < |p|
    ensures Known(spans, p[i])
  {
    if i > 0 {
      WalkStaysKnown(spans, p, i - 1);
      LookupMember(spans, p[i - 1]);
      assert Linked(spans, p[i - 1], p[(i - 1) + 1]);
    }
  }

  lemma {:induction false} Pigeonhole(xs: seq<string>, pool: set<string>)
    requires Assembly.NoRepeats(xs) && forall i :: 0 <= i < |xs| ==> xs[i] in pool
    ensures |xs| <= |pool|
  {
    if xs != [] {
      var x := xs[|xs| - 1];
      Pigeonhole(xs[..|xs| - 1], pool - {x});
    }
  }

  function Ids(spans: seq<Span>): set<string> {
    set i | 0 <= i < |spans| :: spans[i].span
  }

  lemma {:induction false} FewIds(spans: seq<Span>)
    ensures |Ids(spans)| <= |spans|
  {
    if spans != [] {
      FewIds(spans[1..]);
      assert Ids(spans) <= {spans[0].span} + Ids(spans[1..]) by {
        forall id | id in Ids(spans) ensures id in {spans[0].span} + Ids(spans[1..]) {
          var i :| 0 <= i < |spans| && spans[i].span == id;
          if i > 0 { assert spans[1..][i - 1].span == id; }
        }
      }
      assert |Ids(spans)| <= |{spans[0].span} + Ids(spans[1..])| by {
        SubsetSize(Ids(spans), {spans[0].span} + Ids(spans[1..]));
      }
    }
  }

  lemma {:induction false} SubsetSize(a: set<string>, b: set<string>)
    requires a <= b
    ensures |a| <= |b|
  {
    if a != {} {
      var x :| x in a;
      SubsetSize(a - {x}, b - {x});
    }
  }

  /** Main result: the recursion from a span of the trace finishes if and only if no path through the child
      relation that starts there comes back to a span it has already passed; and when it finishes, it does so
      within as many nested calls as the trace has spans. */
  lemma FinishesIffNoPathReturns(spans: seq<Span>, root: string)
    requires Closed(spans) && Known(spans, root)
    ensures (exists fuel: nat :: Ends(spans, root, fuel)) <==> Ends(spans, root, |spans|)
    ensures (exists fuel: nat :: Ends(spans, root, fuel)) <==>
            forall p :: Walk(spans, p) && p[0] == root ==> Assembly.NoRepeats(p)
  {
    if fuel: nat :| Ends(spans, root, fuel) {
      forall p | Walk(spans, p) && p[0] == root ensures Assembly.NoRepeats(p) {
        forall i, j | 0 <= i < j < |p| ensures p[i] != p[j] {
          if p[i] == p[j] {
            WalkEnds(spans, p[..i + 1], fuel);
            CycleNeverEnds(spans, p[i..j + 1], fuel - i);
          }
        }
      }
    }
    if forall p :: Walk(spans, p) && p[0] == root ==> Assembly.NoRepeats(p) {
      if !Ends(spans, root, |spans|) {
        var p := EndlessWalk(spans, root, |spans|);
        forall i | 0 <= i < |p| ensures p[i] in Ids(spans) {
          WalkStaysKnown(spans, p, i);
          var k :| 0 <= k < |spans| && spans[k].span == p[i];
        }
        Pigeonhole(p, Ids(spans));
        FewIds(spans);
        assert false;
      }
    }
  }

  const OPEN := RawLog("t", "a", "a", Cs, "", "", "", 1, "", "")
  const A_CALLS_B := RawLog("t", "b", "a", Cs, "", "", "", 2, "", "")
  const B_CALLS_A := RawLog("t", "a", "b", Cs, "", "", "", 3, "", "")

  lemma EndlessLogsNameTheRoot()
    ensures Assembly.Assemble([OPEN, A_CALLS_B, B_CALLS_A]).tSpan == "a"
  {
    var logs := [OPEN, A_CALLS_B, B_CALLS_A];
    var k := Assembly.RootSpan;
    Assembly.AssembleWrites(logs, k, Assembly.RootStart);
    assert logs[..2] == [OPEN, A_CALLS_B] && logs[..2][..1] == [OPEN] && [OPEN][..0] == [];
    assert Assembly.FirstOffer([OPEN], k) == "a";
    assert Assembly.FirstOffer([OPEN, A_CALLS_B], k) == "a";
  }

  /** The condition is not idle: three lines, two of which call each other's span, build a trace on which the
      recursion never finishes. */
  lemma EndlessTraceExists()
    ensures var t := Assembly.Assemble([OPEN, A_CALLS_B, B_CALLS_A]);
            t.tSpan != "" && forall fuel: nat :: !Ends(t.spans, t.tSpan, fuel)
  {
    var logs := [OPEN, A_CALLS_B, B_CALLS_A];
    var spans := Assembly.Assemble(logs).spans;
    EndlessLogsNameTheRoot();
    Assembly.AssembleLinked(logs, "a", "b");
    Assembly.AssembleLinked(logs, "b", "a");
    assert A_CALLS_B in logs && B_CALLS_A in logs;
    var cycle := ["a", "b", "a"];
    assert Linked(spans, cycle[0], cycle[1]) && Linked(spans, cycle[1], cycle[2]);
    forall fuel: nat ensures !Ends(spans, "a", fuel) {
      CycleNeverEnds(spans, cycle, fuel);
    }
  }

  // ----- conservation -----

  /** One call and its time, if both ends are known and in order. */
  function Between(begin: int, end: int, m: Measure): int {
    if begin == 0 || end == 0 || end < begin then 0
    else match m case Calls => 1 case Time => end - begin
  }

  /** The two sums of a graph, and the places in it that a span may count for. */
  datatype Place = AllServed | AllCalled | ServerVertex(name: string) | FunctionVertex(name: string)
                 | ServerEdge(caller: string, callee: string, order: int)
                 | FunctionEdge(caller: string, callee: string, order: int)

  /** A path of calls from the root span to a span. */
  ghost predicate RootPath(t: Trace, p: seq<string>, id: string) {
    Walk(t.spans, p) && p[0] == t.tSpan && p[|p| - 1] == id
  }

  /** What calls the last span of the path: the server or function of the span before it, or the root's master. */
  function CallingServer(t: Trace, p: seq<string>): string {
    if |p| < 2 then t.tMaster else Lookup(t.spans, p[|p| - 2]).slave
  }

  function CallingFunction(t: Trace, p: seq<string>): string {
    if |p| < 2 then t.tMaster
    else
      var caller := Lookup(t.spans, p[|p| - 2]);
      caller.slave + "." + caller.func
  }

  /** What a span counts for a place: the callee's interval (sr to ss) at the vertex it names, the caller's (cs to cr)
      at the edge from what calls it. Edges between servers have order 0, those between functions their depth. */
  ghost function Share(t: Trace, place: Place, s: Span, m: Measure): int {
    match place
    case AllServed => Between(s.srTime, s.ssTime, m)
    case AllCalled => Between(s.csTime, s.crTime, m)
    case ServerVertex(name) => if s.slave == name then Between(s.srTime, s.ssTime, m) else 0
    case FunctionVertex(name) => if s.slave + "." + s.func == name then Between(s.srTime, s.ssTime, m) else 0
    case ServerEdge(caller, callee, order) =>
      if s.slave == callee && order == 0 && exists p :: RootPath(t, p, s.span) && CallingServer(t, p) == caller
      then Between(s.csTime, s.crTime, m) else 0
    case FunctionEdge(caller, callee, order) =>
      if s.slave + "." + s.func == callee
         && exists p :: RootPath(t, p, s.span) && |p| == order && CallingFunction(t, p) == caller
      then Between(s.csTime, s.crTime, m) else 0
  }

  ghost function Shares(t: Trace, place: Place, spans: seq<Span>, m: Measure): int {
    if spans == [] then 0 else Share(t, place, spans[0], m) + Shares(t, place, spans[1..], m)
  }

  function Spans(visits: seq<Visit>): (r: seq<Span>)
    ensures |r| == |visits| && forall i :: 0 <= i < |r| ==> r[i] == visits[i].span
  {
    seq(|visits|, i requires 0 <= i < |visits| => visits[i].span)
  }

  lemma {:induction false} VisitTotals(kind: Kind, t: Trace, visits: seq<Visit>, m: Measure)
    ensures Total(VertexStats(kind, visits), m) == Shares(t, AllServed, Spans(visits), m)
    ensures Total(EdgeStats(kind, visits), m) == Shares(t, AllCalled, Spans(visits), m)
  {
    if visits != [] {
      VisitTotals(kind, t, visits[1..], m);
      VisitsCons(kind, visits);
    }
  }

  lemma VisitsCons(kind: Kind, visits: seq<Visit>)
    requires visits != []
    ensures VertexStats(kind, visits)[1..] == VertexStats(kind, visits[1..])
    ensures EdgeStats(kind, visits)[1..] == EdgeStats(kind, visits[1..])
    ensures Spans(visits)[1..] == Spans(visits[1..])
  {
  }

  /** A graph holds exactly the calls and times of the visited spans plus the root's, names every vertex once
      and every edge once. */
  lemma GraphConserves(kind: Kind, t: Trace, m: Measure)
    requires t.tSpan != "" && Ends(t.spans, t.tSpan, |t.spans|)
    ensures var g := GraphOf(kind, t);
            var visited := Spans(TraceVisits(kind, t));
      && Unique(g.vertexes) && Unique(g.edges)
      && Total(g.vertexes, m) == Between(t.tsTime, t.teTime, m) + Shares(t, AllServed, visited, m)
      && Total(g.edges, m) == Shares(t, AllCalled, visited, m)
  {
    var visits := TraceVisits(kind, t);
    VisitTotals(kind, t, visits, m);
    var vs := [RootStat(t)] + VertexStats(kind, visits);
    assert vs[1..] == VertexStats(kind, visits);
    InsertAllTotal([], vs, m);
    InsertAllKeys([], vs);
    InsertAllTotal([], EdgeStats(kind, visits), m);
    InsertAllKeys([], EdgeStats(kind, visits));
  }

  // ----- trees -----

  /** No span is listed by two parents and none lists the root. */
  ghost predicate Tree(spans: seq<Span>, root: string) {
    && (forall p, q, c :: Linked(spans, p, c) && Linked(spans, q, c) ==> p == q)
    && (forall p :: !Linked(spans, p, root))
  }

  ghost predicate Reaches(spans: seq<Span>, a: string, b: string) {
    exists p :: Walk(spans, p) && p[0] == a && p[|p| - 1] == b
  }

  lemma {:induction false} TreePathsNeverReturn(spans: seq<Span>, root: string, p: seq<string>, i: nat, j: nat)
    requires Tree(spans, root) && Walk(spans, p) && p[0] == root && i < j < |p|
    ensures p[i] != p[j]
  {
    assert Linked(spans, p[j - 1], p[(j - 1) + 1]);
    if i > 0 {
      assert Linked(spans, p[i - 1], p[(i - 1) + 1]);
      TreePathsNeverReturn(spans, root, p, i - 1, j - 1);
    }
  }

  lemma TreesFinish(spans: seq<Span>, root: string)
    requires Closed(spans) && Known(spans, root) && Tree(spans, root)
    ensures Ends(spans, root, |spans|)
  {
    FinishesIffNoPathReturns(spans, root);
    forall p | Walk(spans, p) && p[0] == root ensures Assembly.NoRepeats(p) {
      forall i, j | 0 <= i < j < |p| ensures p[i] != p[j] { TreePathsNeverReturn(spans, root, p, i, j); }
    }
  }

  /** Ids of the visits, apart from names and depths. */
  ghost function Order(spans: seq<Span>, id: string, fuel: nat): seq<string>
    requires Ends(spans, id, fuel)
    decreases fuel, 0
  {
    [id] + OrderAll(spans, Lookup(spans, id).children, fuel - 1)
  }

  ghost function OrderAll(spans: seq<Span>, ids: seq<string>, fuel: nat): seq<string>
    requires forall c :: c in ids ==> Ends(spans, c, fuel)
    decreases fuel, |ids|
  {
    if ids == [] then [] else OrderAll(spans, ids[..|ids| - 1], fuel) + Order(spans, ids[|ids| - 1], fuel)
  }

  lemma VisitsFollowOrder(kind: Kind, spans: seq<Span>, order: int, from: string, id: string, fuel: nat)
    requires Ends(spans, id, fuel)
    ensures Visited(spans, Visits(kind, spans, order, from, id, fuel), Order(spans, id, fuel))
    decreases fuel, 0
  {
    var s := Lookup(spans, id);
    VisitsAllFollowOrder(kind, spans, NextOrder(kind, order), Name(kind, s), s.children, fuel - 1);
  }

  lemma {:induction false} VisitsAllFollowOrder(kind: Kind, spans: seq<Span>, order: int, from: string,
                                                ids: seq<string>, fuel: nat)
    requires forall c :: c in ids ==> Ends(spans, c, fuel)
    ensures Visited(spans, VisitsAll(kind, spans, order, from, ids, fuel), OrderAll(spans, ids, fuel))
    decreases fuel, |ids|
  {
    if ids != [] {
      VisitsAllFollowOrder(kind, spans, order, from, ids[..|ids| - 1], fuel);
      VisitsFollowOrder(kind, spans, order, from, ids[|ids| - 1], fuel);
    }
  }

  ghost predicate Visited(spans: seq<Span>, visits: seq<Visit>, ids: seq<string>) {
    |visits| == |ids| && forall i :: 0 <= i < |ids| ==> visits[i].span == Lookup(spans, ids[i])
  }

  lemma WalkCons(spans: seq<Span>, id: string, q: seq<string>)
    requires Walk(spans, q) && Linked(spans, id, q[0])
    ensures Walk(spans, [id] + q) && ([id] + q)[0] == id && ([id] + q)[|q|] == q[|q| - 1]
  {
    var p := [id] + q;
    forall i | 0 <= i < |p| - 1 ensures Linked(spans, p[i], p[i + 1]) {
      if i > 0 { assert Linked(spans, q[i - 1], q[(i - 1) + 1]); }
    }
  }

  lemma {:induction false} OrderOnlyReached(spans: seq<Span>, id: string, x: string, fuel: nat)
    requires Ends(spans, id, fuel) && x in Order(spans, id, fuel)
    ensures Reaches(spans, id, x)
    decreases fuel
  {
    if x == id {
      assert Walk(spans, [id]) && [id][0] == id;
    } else {
      var children := Lookup(spans, id).children;
      var c := OrderAllMember(spans, children, x, fuel - 1);
      OrderOnlyReached(spans, c, x, fuel - 1);
      var q :| Walk(spans, q) && q[0] == c && q[|q| - 1] == x;
      WalkCons(spans, id, q);
      assert ([id] + q)[|[id] + q| - 1] == x;
    }
  }

  lemma {:induction false} OrderAllReached(spans: seq<Span>, p: seq<string>, fuel: nat)
    requires Walk(spans, p) && Ends(spans, p[0], fuel)
    ensures p[|p| - 1] in Order(spans, p[0], fuel)
    decreases |p|
  {
    if |p| > 1 {
      var children := Lookup(spans, p[0]).children;
      assert Linked(spans, p[0], p[0 + 1]);
      assert Walk(spans, p[1..]);
      OrderAllReached(spans, p[1..], fuel - 1);
      OrderAllContains(spans, children, p[1], p[|p| - 1], fuel - 1);
    }
  }

  lemma OrderReaches(spans: seq<Span>, id: string, x: string, fuel: nat)
    requires Ends(spans, id, fuel)
    ensures x in Order(spans, id, fuel) <==> Reaches(spans, id, x)
  {
    if x in Order(spans, id, fuel) { OrderOnlyReached(spans, id, x, fuel); }
    if p :| Walk(spans, p) && p[0] == id && p[|p| - 1] == x { OrderAllReached(spans, p, fuel); }
  }

  lemma {:induction false} OrderAllMember(spans: seq<Span>, ids: seq<string>, x: string, fuel: nat) returns (c: string)
    requires (forall c :: c in ids ==> Ends(spans, c, fuel)) && x in OrderAll(spans, ids, fuel)
    ensures c in ids && x in Order(spans, c, fuel)
    decreases |ids|
  {
    if x in Order(spans, ids[|ids| - 1], fuel) {
      c := ids[|ids| - 1];
    } else {
      c := OrderAllMember(spans, ids[..|ids| - 1], x, fuel);
    }
  }

  lemma {:induction false} OrderAllContains(spans: seq<Span>, ids: seq<string>, c: string, x: string, fuel: nat)
    requires (forall c :: c in ids ==> Ends(spans, c, fuel)) && c in ids && x in Order(spans, c, fuel)
    ensures x in OrderAll(spans, ids, fuel)
    decreases |ids|
  {
    if c != ids[|ids| - 1] {
      OrderAllContains(spans, ids[..|ids| - 1], c, x, fuel);
    }
  }

  /** With one parent each, two paths to the same span overlap from the end. */
  lemma {:induction false} PathsOverlap(spans: seq<Span>, p: seq<string>, q: seq<string>)
    requires forall a, b, c :: Linked(spans, a, c) && Linked(spans, b, c) ==> a == b
    requires Walk(spans, p) && Walk(spans, q) && |p| <= |q| && p[|p| - 1] == q[|q| - 1]
    ensures p[0] == q[|q| - |p|]
    decreases |p|
  {
    if |p| > 1 {
      assert Linked(spans, p[|p| - 2], p[(|p| - 2) + 1]);
      assert Linked(spans, q[|q| - 2], q[(|q| - 2) + 1]);
      PathsOverlap(spans, p[..|p| - 1], q[..|q| - 1]);
    }
  }

  /** Different children of one span share no descendant. */
  lemma SiblingsDisjoint(spans: seq<Span>, root: string, parent: string, a: string, b: string, x: string, fuel: nat)
    requires Tree(spans, root) && Ends(spans, parent, fuel)
    requires Linked(spans, parent, a) && Linked(spans, parent, b) && a != b
    ensures !(Reaches(spans, a, x) && Reaches(spans, b, x))
  {
    if Reaches(spans, a, x) && Reaches(spans, b, x) {
      var p :| Walk(spans, p) && p[0] == a && p[|p| - 1] == x;
      var q :| Walk(spans, q) && q[0] == b && q[|q| - 1] == x;
      if |p| <= |q| { NoOverlap(spans, root, parent, p, q, fuel); } else { NoOverlap(spans, root, parent, q, p, fuel); }
    }
  }

  lemma NoOverlap(spans: seq<Span>, root: string, parent: string, p: seq<string>, q: seq<string>, fuel: nat)
    requires Tree(spans, root) && Ends(spans, parent, fuel)
    requires Walk(spans, p) && Walk(spans, q) && |p| <= |q| && p[|p| - 1] == q[|q| - 1]
    requires Linked(spans, parent, p[0]) && Linked(spans, parent, q[0])
    ensures p[0] == q[0]
  {
    PathsOverlap(spans, p, q);
    var k := |q| - |p|;
    if k > 0 {
      assert Linked(spans, q[k - 1], q[(k - 1) + 1]);
      var tail := q[..k];
      assert tail[|tail| - 1] == parent;
      WalkCons(spans, parent, tail);
      CycleNeverEnds(spans, [parent] + tail, fuel);
    }
  }

  lemma OrderNoRepeats(spans: seq<Span>, root: string, id: string, fuel: nat)
    requires Tree(spans, root) && Ends(spans, id, fuel)
    requires forall s :: s in spans ==> Assembly.NoRepeats(s.children)
    ensures Assembly.NoRepeats(Order(spans, id, fuel))
    decreases fuel, 0
  {
    var children := Lookup(spans, id).children;
    if Known(spans, id) { LookupMember(spans, id); } else { LookupUnknown(spans, id); }
    OrderAllNoRepeats(spans, root, id, children, fuel - 1);
    if id in OrderAll(spans, children, fuel - 1) {
      var c := OrderAllMember(spans, children, id, fuel - 1);
      OrderOnlyReached(spans, c, id, fuel - 1);
      var q :| Walk(spans, q) && q[0] == c && q[|q| - 1] == id;
      WalkCons(spans, id, q);
      CycleNeverEnds(spans, [id] + q, fuel);
    }
  }

  lemma {:induction false} OrderAllNoRepeats(spans: seq<Span>, root: string, parent: string, ids: seq<string>,
                                             fuel: nat)
    requires Tree(spans, root) && Ends(spans, parent, fuel + 1)
    requires forall s :: s in spans ==> Assembly.NoRepeats(s.children)
    requires Assembly.NoRepeats(ids) && forall c :: c in ids ==> Linked(spans, parent, c) && Ends(spans, c, fuel)
    ensures Assembly.NoRepeats(OrderAll(spans, ids, fuel))
    decreases fuel, |ids| + 1
  {
    if ids != [] {
      var init, last := ids[..|ids| - 1], ids[|ids| - 1];
      OrderAllNoRepeats(spans, root, parent, init, fuel);
      OrderNoRepeats(spans, root, last, fuel);
      forall x | x in OrderAll(spans, init, fuel) ensures x !in Order(spans, last, fuel) {
        var c := OrderAllMember(spans, init, x, fuel);
        OrderReaches(spans, c, x, fuel);
        OrderReaches(spans, last, x, fuel);
        SiblingsDisjoint(spans, root, parent, c, last, x, fuel + 1);
      }
      JoinNoRepeats(OrderAll(spans, init, fuel), Order(spans, last, fuel));
    }
  }

  lemma JoinNoRepeats(a: seq<string>, b: seq<string>)
    requires Assembly.NoRepeats(a) && Assembly.NoRepeats(b) && forall x :: x in a ==> x !in b
    ensures Assembly.NoRepeats(a + b)
  {
    var c := a + b;
    forall i, j | 0 <= i < j < |c| ensures c[i] != c[j] {
      if i < |a| <= j { assert c[i] in a && c[j] in b; }
    }
  }

  // ----- summing over the reachable spans -----

  /** The spans reachable from root, in the order in which the trace stores them. */
  ghost function Reachable(spans: seq<Span>, all: seq<Span>, root: string): seq<Span> {
    if spans == [] then []
    else (if Reaches(all, root, spans[0].span) then [spans[0]] else []) + Reachable(spans[1..], all, root)
  }

  lemma {:induction false} ReachableMembers(spans: seq<Span>, all: seq<Span>, root: string, s: Span)
    ensures s in Reachable(spans, all, root) <==> s in spans && Reaches(all, root, s.span)
  {
    if spans != [] {
      ReachableMembers(spans[1..], all, root, s);
      assert spans == [spans[0]] + spans[1..];
    }
  }

  lemma {:induction false} ReachableDistinct(spans: seq<Span>, all: seq<Span>, root: string)
    requires DistinctIds(spans)
    ensures DistinctIds(Reachable(spans, all, root))
  {
    if spans != [] {
      var rest := Reachable(spans[1..], all, root);
      ReachableDistinct(spans[1..], all, root);
      forall i | 0 <= i < |rest| ensures rest[i].span != spans[0].span {
        ReachableMembers(spans[1..], all, root, rest[i]);
        var j :| 0 <= j < |spans[1..]| && spans[1..][j] == rest[i];
        assert spans[j + 1] == rest[i];
      }
    }
  }

  lemma {:induction false} SharesSplit(t: Trace, place: Place, a: seq<Span>, b: seq<Span>, m: Measure)
    ensures Shares(t, place, a + b, m) == Shares(t, place, a, m) + Shares(t, place, b, m)
  {
    hide Share;
    if a == [] {
      assert a + b == b;
    } else {
      SharesSplit(t, place, a[1..], b, m);
      assert (a + b)[1..] == a[1..] + b;
    }
  }

  lemma DropOne(a: seq<Span>, i: nat)
    requires DistinctIds(a) && i < |a|
    ensures DistinctIds(a[..i] + a[i + 1..])
    ensures forall x :: x in a[..i] + a[i + 1..] <==> x in a && x != a[i]
  {
    var rest := a[..i] + a[i + 1..];
    assert forall j :: 0 <= j < |rest| ==> rest[j] == a[if j < i then j else j + 1];
    forall x ensures x in rest <==> x in a && x != a[i] {
      if x in a && x != a[i] {
        var j :| 0 <= j < |a| && a[j] == x;
        assert rest[if j < i then j else j - 1] == x;
      }
    }
  }

  lemma SharesDropOne(t: Trace, place: Place, a: seq<Span>, i: nat, m: Measure)
    requires i < |a|
    ensures Shares(t, place, a, m) == Share(t, place, a[i], m) + Shares(t, place, a[..i] + a[i + 1..], m)
  {
    hide Share;
    assert a == a[..i] + a[i..] && a[i..][1..] == a[i + 1..];
    SharesSplit(t, place, a[..i], a[i..], m);
    SharesSplit(t, place, a[..i], a[i + 1..], m);
  }

  ghost predicate SameMembers(a: seq<Span>, b: seq<Span>) {
    (forall i :: 0 <= i < |a| ==> a[i] in b) && (forall i :: 0 <= i < |b| ==> b[i] in a)
  }

  lemma DropFirst(a: seq<Span>)
    requires DistinctIds(a) && a != []
    ensures DistinctIds(a[1..]) && forall x :: x in a[1..] <==> x in a && x != a[0]
  {
    assert a == [a[0]] + a[1..];
  }

  lemma DropSame(a: seq<Span>, b: seq<Span>) returns (i: nat)
    requires DistinctIds(a) && DistinctIds(b) && SameMembers(a, b) && a != []
    ensures i < |b| && b[i] == a[0]
    ensures DistinctIds(a[1..]) && DistinctIds(b[..i] + b[i + 1..]) && SameMembers(a[1..], b[..i] + b[i + 1..])
  {
    assert a[0] in b;
    i :| 0 <= i < |b| && b[i] == a[0];
    DropFirst(a);
    DropOne(b, i);
    hide DistinctIds;
    SameWithout(a, b, a[1..], b[..i] + b[i + 1..], a[0]);
  }

  lemma SameWithout(a: seq<Span>, b: seq<Span>, restA: seq<Span>, restB: seq<Span>, s: Span)
    requires SameMembers(a, b)
    requires forall x :: x in restA <==> x in a && x != s
    requires forall x :: x in restB <==> x in b && x != s
    ensures SameMembers(restA, restB)
  {
    forall j | 0 <= j < |restA| ensures restA[j] in restB { assert restA[j] in restA; }
    forall j | 0 <= j < |restB| ensures restB[j] in restA { assert restB[j] in restB; }
  }

  lemma {:induction false} SameSpansSameShares(t: Trace, place: Place, a: seq<Span>, b: seq<Span>, m: Measure)
    requires DistinctIds(a) && DistinctIds(b) && SameMembers(a, b)
    ensures Shares(t, place, a, m) == Shares(t, place, b, m)
  {
    hide Share;
    if a == [] {
      assert |b| == 0;
    } else {
      hide DistinctIds, SameMembers;
      var i := DropSame(a, b);
      SameSpansSameShares(t, place, a[1..], b[..i] + b[i + 1..], m);
      SharesDropOne(t, place, b, i, m);
    }
  }

  /** Main result: on a tree, each graph counts every span that the root reaches exactly once: its vertexes hold
      the valid server intervals of those spans plus the root's own, its edges the valid client intervals. */
  lemma TreeGraphCountsEachSpanOnce(kind: Kind, t: Trace, m: Measure)
    requires Assembly.WellFormed(t) && t.tSpan != "" && Tree(t.spans, t.tSpan)
    ensures Ends(t.spans, t.tSpan, |t.spans|)
    ensures var g := GraphOf(kind, t);
            var reached := Reachable(t.spans, t.spans, t.tSpan);
      && Total(g.vertexes, m) == Between(t.tsTime, t.teTime, m) + Shares(t, AllServed, reached, m)
      && Total(g.edges, m) == Shares(t, AllCalled, reached, m)
  {
    hide Share;
    TreesFinish(t.spans, t.tSpan);
    GraphConserves(kind, t, m);
    VisitedShares(kind, t, AllServed, m);
    VisitedShares(kind, t, AllCalled, m);
  }

  lemma VisitedShares(kind: Kind, t: Trace, place: Place, m: Measure)
    requires Assembly.WellFormed(t) && t.tSpan != "" && Tree(t.spans, t.tSpan) && Ends(t.spans, t.tSpan, |t.spans|)
    ensures Shares(t, place, Spans(TraceVisits(kind, t)), m)
         == Shares(t, place, Reachable(t.spans, t.spans, t.tSpan), m)
  {
    hide Share, Shares;
    var visited, reached := Spans(TraceVisits(kind, t)), Reachable(t.spans, t.spans, t.tSpan);
    ReachableDistinct(t.spans, t.spans, t.tSpan);
    TreeVisitsReached(kind, t);
    hide TraceVisits;
    forall s ensures s in visited <==> s in reached { ReachableMembers(t.spans, t.spans, t.tSpan, s); }
    SameSpansSameShares(t, place, visited, reached, m);
  }

  // ----- what the graph of a tree holds under every key -----

  /** The path that leads to a visit; on a tree there is only one. */
  ghost predicate PlacedBy(kind: Kind, t: Trace, v: Visit, p: seq<string>) {
    && RootPath(t, p, v.span.span)
    && v.fromVertex == (if |p| < 2 then t.tMaster else Name(kind, Lookup(t.spans, p[|p| - 2])))
    && v.order == (match kind case Server => 0 case Function => |p|)
  }

  ghost predicate Placed(kind: Kind, t: Trace, v: Visit) {
    exists p :: PlacedBy(kind, t, v, p)
  }

  lemma VisitsArePlaced(kind: Kind, t: Trace, order: int, from: string, id: string, fuel: nat, p: seq<string>, v: Visit)
    requires Ends(t.spans, id, fuel) && v in Visits(kind, t.spans, order, from, id, fuel)
    requires PlacedBy(kind, t, Visit(Lookup(t.spans, id), from, order), p)
    ensures Placed(kind, t, v)
    decreases fuel, 0
  {
    var s := Lookup(t.spans, id);
    if v != Visit(s, from, order) {
      VisitsAllArePlaced(kind, t, NextOrder(kind, order), Name(kind, s), s.children, fuel - 1, p, v);
    }
  }

  lemma {:induction false} VisitsAllArePlaced(kind: Kind, t: Trace, order: int, from: string, ids: seq<string>,
                                              fuel: nat, p: seq<string>, v: Visit)
    requires (forall c :: c in ids ==> Ends(t.spans, c, fuel)) && v in VisitsAll(kind, t.spans, order, from, ids, fuel)
    requires |p| > 0 && RootPath(t, p, p[|p| - 1]) && from == Name(kind, Lookup(t.spans, p[|p| - 1]))
    requires order == match kind case Server => 0 case Function => |p| + 1
    requires forall c :: c in ids ==> c in Lookup(t.spans, p[|p| - 1]).children
    ensures Placed(kind, t, v)
    decreases fuel, |ids| + 1
  {
    var init, last := ids[..|ids| - 1], ids[|ids| - 1];
    assert last in ids && forall c :: c in init ==> c in ids;
    if v in VisitsAll(kind, t.spans, order, from, init, fuel) {
      VisitsAllArePlaced(kind, t, order, from, init, fuel, p, v);
    } else {
      LongerPath(t, p, last);
      VisitsArePlaced(kind, t, order, from, last, fuel, p + [last], v);
    }
  }

  lemma LongerPath(t: Trace, p: seq<string>, c: string)
    requires |p| > 0 && RootPath(t, p, p[|p| - 1]) && Linked(t.spans, p[|p| - 1], c)
    ensures RootPath(t, p + [c], c) && (p + [c])[|p| - 1] == p[|p| - 1]
  {
    var q := p + [c];
    forall i | 0 <= i < |q| - 1 ensures Linked(t.spans, q[i], q[i + 1]) {
      if i < |p| - 1 { assert Linked(t.spans, p[i], p[i + 1]); }
    }
  }

  lemma OnePath(t: Trace, p: seq<string>, q: seq<string>, id: string)
    requires Tree(t.spans, t.tSpan) && RootPath(t, p, id) && RootPath(t, q, id) && |p| <= |q|
    ensures p == q
  {
    var k := |q| - |p|;
    assert k > 0 ==> Linked(t.spans, q[k - 1], q[(k - 1) + 1]);
    PathsOverlap(t.spans, p, q);
    forall j | 0 <= j < |p| ensures p[j] == q[j] {
      assert Walk(t.spans, p[j..]) && Walk(t.spans, q[j..]);
      PathsOverlap(t.spans, p[j..], q[j..]);
    }
  }

  function VertexPlace(kind: Kind, name: string): Place {
    match kind case Server => ServerVertex(name) case Function => FunctionVertex(name)
  }

  function EdgePlace(kind: Kind, e: EdgeKey): Place {
    match kind
    case Server => ServerEdge(e.fromVertex, e.toVertex, e.order)
    case Function => FunctionEdge(e.fromVertex, e.toVertex, e.order)
  }

  lemma VisitShare(kind: Kind, t: Trace, v: Visit, name: string, e: EdgeKey, m: Measure)
    requires Tree(t.spans, t.tSpan) && Placed(kind, t, v)
    ensures var s := v.span;
      && Share(t, VertexPlace(kind, name), s, m)
         == (if Name(kind, s) == name then Amount(Timed(Name(kind, s), s.srTime, s.ssTime), m) else 0)
      && Share(t, EdgePlace(kind, e), s, m)
         == (if EdgeKey(v.fromVertex, Name(kind, s), v.order) == e
             then Amount(Timed(e, s.csTime, s.crTime), m) else 0)
  {
    var p :| PlacedBy(kind, t, v, p);
    hide Tree;
    forall q | RootPath(t, q, v.span.span) ensures q == p {
      if |p| <= |q| { OnePath(t, p, q, v.span.span); } else { OnePath(t, q, p, v.span.span); }
    }
    hide RootPath;
  }

  lemma {:induction false} VisitShares(kind: Kind, t: Trace, visits: seq<Visit>, name: string, e: EdgeKey, m: Measure)
    requires Tree(t.spans, t.tSpan) && forall i :: 0 <= i < |visits| ==> Placed(kind, t, visits[i])
    ensures Of(VertexStats(kind, visits), name, m) == Shares(t, VertexPlace(kind, name), Spans(visits), m)
    ensures Of(EdgeStats(kind, visits), e, m) == Shares(t, EdgePlace(kind, e), Spans(visits), m)
  {
    hide Tree, Placed, Share;
    if visits != [] {
      VisitShares(kind, t, visits[1..], name, e, m);
      VisitsCons(kind, visits);
      VisitShare(kind, t, visits[0], name, e, m);
    }
  }

  /** Main result: what the two graphs of a tree hold under every vertex and every edge, from the fields of the spans
      that the root reaches. */
  lemma TreeGraphUnderEveryKey(t: Trace, name: string, e: EdgeKey, m: Measure)
    requires Assembly.WellFormed(t) && t.tSpan != "" && Tree(t.spans, t.tSpan)
    ensures Ends(t.spans, t.tSpan, |t.spans|)
    ensures var sg, fg := GraphOf(Server, t), GraphOf(Function, t);
            var reached := Reachable(t.spans, t.spans, t.tSpan);
            var root := if name == t.tMaster then Between(t.tsTime, t.teTime, m) else 0;
      && Of(sg.vertexes, name, m) == root + Shares(t, ServerVertex(name), reached, m)
      && Of(fg.vertexes, name, m) == root + Shares(t, FunctionVertex(name), reached, m)
      && Of(sg.edges, e, m) == Shares(t, ServerEdge(e.fromVertex, e.toVertex, e.order), reached, m)
      && Of(fg.edges, e, m) == Shares(t, FunctionEdge(e.fromVertex, e.toVertex, e.order), reached, m)
  {
    hide Tree, Share, Shares, Of;
    TreesFinish(t.spans, t.tSpan);
    TreeGraphUnderKey(Server, t, name, e, m);
    TreeGraphUnderKey(Function, t, name, e, m);
    hide GraphOf;
  }

  lemma TreeGraphUnderKey(kind: Kind, t: Trace, name: string, e: EdgeKey, m: Measure)
    requires Assembly.WellFormed(t) && t.tSpan != "" && Tree(t.spans, t.tSpan) && Ends(t.spans, t.tSpan, |t.spans|)
    ensures var g := GraphOf(kind, t);
            var reached := Reachable(t.spans, t.spans, t.tSpan);
      && Of(g.vertexes, name, m) == (if name == t.tMaster then Between(t.tsTime, t.teTime, m) else 0)
                                    + Shares(t, VertexPlace(kind, name), reached, m)
      && Of(g.edges, e, m) == Shares(t, EdgePlace(kind, e), reached, m)
  {
    hide Tree, Share, Shares;
    var visits := TraceVisits(kind, t);
    forall i | 0 <= i < |visits| ensures Placed(kind, t, visits[i]) {
      RootIsPlaced(kind, t);
      VisitsArePlaced(kind, t, FirstOrder(kind), t.tMaster, t.tSpan, |t.spans|, [t.tSpan], visits[i]);
    }
    VisitShares(kind, t, visits, name, e, m);
    VisitedShares(kind, t, VertexPlace(kind, name), m);
    VisitedShares(kind, t, EdgePlace(kind, e), m);
    InsertAllOf([], [RootStat(t)] + VertexStats(kind, visits), name, m);
    OfAppend([RootStat(t)], VertexStats(kind, visits), name, m);
    OfOne(RootStat(t), name, m);
    InsertAllOf([], EdgeStats(kind, visits), e, m);
    hide Of, VertexPlace, EdgePlace, Reachable, VertexStats, EdgeStats, Placed;
  }

  lemma RootIsPlaced(kind: Kind, t: Trace)
    ensures PlacedBy(kind, t, Visit(Lookup(t.spans, t.tSpan), t.tMaster, FirstOrder(kind)), [t.tSpan])
  {
  }

  lemma TreeVisitsReached(kind: Kind, t: Trace)
    requires Assembly.WellFormed(t) && t.tSpan != "" && Tree(t.spans, t.tSpan) && Ends(t.spans, t.tSpan, |t.spans|)
    ensures var visited := Spans(TraceVisits(kind, t));
      DistinctIds(visited) && forall s :: s in visited <==> s in t.spans && Reaches(t.spans, t.tSpan, s.span)
  {
    var spans, root, fuel := t.spans, t.tSpan, |t.spans|;
    var ids := Order(spans, root, fuel);
    var visited := Spans(TraceVisits(kind, t));
    VisitsFollowOrder(kind, spans, FirstOrder(kind), t.tMaster, root, fuel);
    OrderNoRepeats(spans, root, root, fuel);
    assert |visited| == |ids| && forall i :: 0 <= i < |ids| ==> visited[i] == Lookup(spans, ids[i]);
    forall s | s in visited ensures s in spans && Reaches(spans, root, s.span) {
      var i :| 0 <= i < |visited| && visited[i] == s;
      assert ids[i] in ids;
      OrderOnlyReached(spans, root, ids[i], fuel);
      ReachedIsKnown(spans, root, ids[i]);
      LookupMember(spans, ids[i]);
    }
    forall s | s in spans && Reaches(spans, root, s.span) ensures s in visited {
      OrderReaches(spans, root, s.span, fuel);
      var i :| 0 <= i < |ids| && ids[i] == s.span;
      var k :| 0 <= k < |spans| && spans[k] == s;
      LookupAt(spans, k);
      assert visited[i] == s;
    }
  }

  lemma ReachedIsKnown(spans: seq<Span>, root: string, x: string)
    requires Closed(spans) && Known(spans, root) && Reaches(spans, root, x)
    ensures Known(spans, x)
  {
    var p :| Walk(spans, p) && p[0] == root && p[|p| - 1] == x;
    WalkStaysKnown(spans, p, |p| - 1);
  }

  /** The lines name one parent for each called span, and never the root among the called ones. */
  ghost predicate OneParentEach(logs: seq<RawLog>) {
    && (forall a, b :: a in logs && b in logs && Assembly.IsLink(a) && Assembly.IsLink(b) && a.span == b.span
                       ==> a.parent == b.parent)
    && (forall a :: a in logs && Assembly.IsLink(a) ==> a.span != Assembly.Assemble(logs).tSpan)
  }

  /** Such lines, and no others, build a tree. */
  lemma AgreeingLogsBuildTrees(logs: seq<RawLog>)
    ensures var t := Assembly.Assemble(logs);
      Assembly.WellFormed(t) && (Tree(t.spans, t.tSpan) <==> OneParentEach(logs))
  {
    var t := Assembly.Assemble(logs);
    Assembly.AssembledIsWellFormed(logs);
    forall p, c ensures Linked(t.spans, p, c) <==> Assembly.Links(logs, p, c) { Assembly.AssembleLinked(logs, p, c); }
    hide Linked;
    if Tree(t.spans, t.tSpan) {
      forall a | a in logs && Assembly.IsLink(a) ensures Linked(t.spans, a.parent, a.span) {
        assert Assembly.Links(logs, a.parent, a.span);
      }
    }
  }

  // ----- the graph does not depend on the order of spans and children -----

  /** The same spans with the same children, in whatever order. */
  ghost predicate SameSpans(s: seq<Span>, t: seq<Span>) {
    && (forall id :: Lookup(s, id).(children := []) == Lookup(t, id).(children := []))
    && (forall p, c :: Linked(s, p, c) <==> Linked(t, p, c))
    && (forall id :: Assembly.NoRepeats(Lookup(s, id).children) && Assembly.NoRepeats(Lookup(t, id).children))
  }

  /** Two lists of visits record the same under every key. */
  ghost predicate SameRecords(kind: Kind, x: seq<Visit>, y: seq<Visit>) {
    && (forall key, m :: Of(VertexStats(kind, x), key, m) == Of(VertexStats(kind, y), key, m))
    && (forall key, m :: Of(EdgeStats(kind, x), key, m) == Of(EdgeStats(kind, y), key, m))
  }

  lemma RecordsOf(kind: Kind, a: seq<Visit>, b: seq<Visit>)
    ensures forall key, m :: Of(VertexStats(kind, a + b), key, m)
                          == Of(VertexStats(kind, a), key, m) + Of(VertexStats(kind, b), key, m)
    ensures forall key, m :: Of(EdgeStats(kind, a + b), key, m)
                          == Of(EdgeStats(kind, a), key, m) + Of(EdgeStats(kind, b), key, m)
  {
    hide Of;
    assert VertexStats(kind, a + b) == VertexStats(kind, a) + VertexStats(kind, b);
    assert EdgeStats(kind, a + b) == EdgeStats(kind, a) + EdgeStats(kind, b);
    hide VertexStats, EdgeStats;
    forall key, m { OfAppend(VertexStats(kind, a), VertexStats(kind, b), key, m); }
    forall key, m { OfAppend(EdgeStats(kind, a), EdgeStats(kind, b), key, m); }
  }

  lemma RecordsJoin(kind: Kind, a: seq<Visit>, b: seq<Visit>, c: seq<Visit>, d: seq<Visit>)
    requires SameRecords(kind, a, b) && SameRecords(kind, c, d)
    ensures SameRecords(kind, a + c, b + d)
  {
    hide Of, VertexStats, EdgeStats;
    RecordsOf(kind, a, c);
    RecordsOf(kind, b, d);
  }

  lemma RecordsMove(kind: Kind, a: seq<Visit>, x: seq<Visit>, b: seq<Visit>)
    ensures SameRecords(kind, a + b + x, a + x + b)
  {
    hide Of, VertexStats, EdgeStats;
    RecordsOf(kind, a, b);
    RecordsOf(kind, a + b, x);
    RecordsOf(kind, a, x);
    RecordsOf(kind, a + x, b);
  }

  lemma {:induction false} VisitsAllSplit(kind: Kind, spans: seq<Span>, order: int, from: string, a: seq<string>,
                                          b: seq<string>, fuel: nat)
    requires forall c :: c in a + b ==> Ends(spans, c, fuel)
    ensures VisitsAll(kind, spans, order, from, a + b, fuel)
         == VisitsAll(kind, spans, order, from, a, fuel) + VisitsAll(kind, spans, order, from, b, fuel)
    decreases |b|
  {
    hide Visits;
    if b == [] {
      assert a + b == a;
    } else {
      var init := b[..|b| - 1];
      assert (a + b)[..|a + b| - 1] == a + init;
      VisitsAllSplit(kind, spans, order, from, a, init, fuel);
    }
  }

  lemma SameVisits(kind: Kind, s: seq<Span>, t: seq<Span>, order: int, from: string, id: string, f: nat, g: nat)
    requires SameSpans(s, t) && Ends(s, id, f) && Ends(t, id, g)
    ensures SameRecords(kind, Visits(kind, s, order, from, id, f), Visits(kind, t, order, from, id, g))
    decreases f, 0
  {
    var x, y := Lookup(s, id), Lookup(t, id);
    assert x.(children := []) == y.(children := []);
    forall c ensures c in x.children <==> c in y.children { assert Linked(s, id, c) <==> Linked(t, id, c); }
    assert SameIds(x.children, y.children);
    SameVisitsAll(kind, s, t, NextOrder(kind, order), Name(kind, x), x.children, y.children, f - 1, g - 1);
    var a, b := [Visit(x, from, order)], [Visit(y, from, order)];
    assert VertexStats(kind, a) == VertexStats(kind, b) && EdgeStats(kind, a) == EdgeStats(kind, b);
    RecordsJoin(kind, a, b, VisitsAll(kind, s, NextOrder(kind, order), Name(kind, x), x.children, f - 1),
                VisitsAll(kind, t, NextOrder(kind, order), Name(kind, y), y.children, g - 1));
    hide SameRecords, SameSpans, VisitsAll;
  }

  lemma {:induction false} SameVisitsAll(kind: Kind, s: seq<Span>, t: seq<Span>, order: int, from: string,
                                         a: seq<string>, b: seq<string>, f: nat, g: nat)
    requires SameSpans(s, t) && Assembly.NoRepeats(a) && Assembly.NoRepeats(b) && SameIds(a, b)
    requires (forall c :: c in a ==> Ends(s, c, f)) && (forall c :: c in b ==> Ends(t, c, g))
    ensures SameRecords(kind, VisitsAll(kind, s, order, from, a, f), VisitsAll(kind, t, order, from, b, g))
    decreases f, |a|
  {
    if a == [] {
      if b != [] { var i := TakeOut(b, a); }
    } else {
      hide SameSpans, SameRecords, VisitsAll, SameIds;
      var init, x := a[..|a| - 1], a[|a| - 1];
      var i := TakeOut(a, b);
      var l, r := b[..i], b[i + 1..];
      SameVisitsAll(kind, s, t, order, from, init, l + r, f, g);
      SameVisits(kind, s, t, order, from, x, f, g);
      MoveLast(kind, t, order, from, l, x, r, g);
      VisitsAllLast(kind, s, order, from, a, f);
      RecordsJoin(kind, VisitsAll(kind, s, order, from, init, f), VisitsAll(kind, t, order, from, l + r, g),
                  Visits(kind, s, order, from, x, f), Visits(kind, t, order, from, x, g));
      RecordsChain(kind, VisitsAll(kind, s, order, from, a, f),
                   VisitsAll(kind, t, order, from, l + r, g) + Visits(kind, t, order, from, x, g),
                   VisitsAll(kind, t, order, from, b, g));
    }
  }

  lemma VisitsAllLast(kind: Kind, spans: seq<Span>, order: int, from: string, ids: seq<string>, fuel: nat)
    requires ids != [] && forall c :: c in ids ==> Ends(spans, c, fuel)
    ensures var init := ids[..|ids| - 1];
      && (forall c :: c in init ==> Ends(spans, c, fuel)) && Ends(spans, ids[|ids| - 1], fuel)
      && VisitsAll(kind, spans, order, from, ids, fuel)
         == VisitsAll(kind, spans, order, from, init, fuel)
            + Visits(kind, spans, order, from, ids[|ids| - 1], fuel)
  {
  }

  lemma RecordsChain(kind: Kind, a: seq<Visit>, b: seq<Visit>, c: seq<Visit>)
    requires SameRecords(kind, a, b) && SameRecords(kind, b, c)
    ensures SameRecords(kind, a, c)
  {
    hide Of, VertexStats, EdgeStats;
  }

  predicate SameIds(a: seq<string>, b: seq<string>) {
    (forall c :: c in a ==> c in b) && (forall c :: c in b ==> c in a)
  }

  /** The last element of one list, found in another with the same elements. */
  lemma TakeOut(a: seq<string>, b: seq<string>) returns (i: nat)
    requires a != [] && Assembly.NoRepeats(a) && Assembly.NoRepeats(b) && SameIds(a, b)
    ensures i < |b| && b == b[..i] + [a[|a| - 1]] + b[i + 1..] && Assembly.NoRepeats(b[..i] + b[i + 1..])
    ensures Assembly.NoRepeats(a[..|a| - 1]) && SameIds(a[..|a| - 1], b[..i] + b[i + 1..])
  {
    var x, rest := a[|a| - 1], a[..|a| - 1];
    assert x in b;
    i :| 0 <= i < |b| && b[i] == x;
    var left := b[..i] + b[i + 1..];
    assert forall j :: 0 <= j < |left| ==> left[j] == b[if j < i then j else j + 1];
    forall c | c in rest ensures c in left {
      assert c in a && c != x;
      var j :| 0 <= j < |b| && b[j] == c;
      assert left[if j < i then j else j - 1] == c;
    }
    forall c | c in left ensures c in rest {
      var j :| 0 <= j < |left| && left[j] == c;
      assert b[if j < i then j else j + 1] == c;
      assert c in b && c != x;
    }
  }

  lemma MoveLast(kind: Kind, spans: seq<Span>, order: int, from: string, l: seq<string>, x: string, r: seq<string>,
                 fuel: nat)
    requires forall c :: c in l + [x] + r ==> Ends(spans, c, fuel)
    ensures forall c :: c in l + r ==> c in l + [x] + r
    ensures SameRecords(kind,
      VisitsAll(kind, spans, order, from, l + r, fuel) + Visits(kind, spans, order, from, x, fuel),
      VisitsAll(kind, spans, order, from, l + [x] + r, fuel))
  {
    hide Visits, SameRecords;
    assert forall c :: c in l + r ==> c in l + [x] + r;
    VisitsAllSplit(kind, spans, order, from, l, r, fuel);
    VisitsAllSplit(kind, spans, order, from, l, [x], fuel);
    VisitsAllSplit(kind, spans, order, from, l + [x], r, fuel);
    assert [x][..0] == [];
    RecordsMove(kind, VisitsAll(kind, spans, order, from, l, fuel), Visits(kind, spans, order, from, x, fuel),
                VisitsAll(kind, spans, order, from, r, fuel));
  }

  lemma {:induction false} SameEnds(s: seq<Span>, t: seq<Span>, id: string, fuel: nat)
    requires Ends(s, id, fuel) && forall p, c :: Linked(s, p, c) <==> Linked(t, p, c)
    ensures Ends(t, id, fuel)
    decreases fuel
  {
    forall c | c in Lookup(t, id).children ensures Ends(t, c, fuel - 1) {
      assert Linked(t, id, c) && Linked(s, id, c);
      SameEnds(s, t, c, fuel - 1);
    }
  }

  lemma EndsWithinSize(spans: seq<Span>, root: string, fuel: nat)
    requires Closed(spans) && Known(spans, root) && Ends(spans, root, fuel)
    ensures Ends(spans, root, |spans|)
  {
    hide Ends;
    FinishesIffNoPathReturns(spans, root);
  }

  lemma NoRepeatedChildren(t: Trace, id: string)
    requires Assembly.WellFormed(t)
    ensures Assembly.NoRepeats(Lookup(t.spans, id).children)
  {
    if Known(t.spans, id) {
      LookupMember(t.spans, id);
      assert Lookup(t.spans, id) in t.spans;
    } else {
      LookupUnknown(t.spans, id);
    }
  }

  lemma SameRecordsSameStats<K(!new)>(first: seq<Stat<K>>, x: seq<Stat<K>>, y: seq<Stat<K>>, key: K, m: Measure)
    requires Of(x, key, m) == Of(y, key, m)
    ensures Of(InsertAll([], first + x), key, m) == Of(InsertAll([], first + y), key, m)
  {
    InsertAllOf([], first + x, key, m);
    InsertAllOf([], first + y, key, m);
    OfAppend(first, x, key, m);
    OfAppend(first, y, key, m);
  }

  /** The two graphs hold the same calls and times under every vertex and every edge. */
  ghost predicate SameStats(g: Graph, h: Graph) {
    && (forall key, m :: Of(g.vertexes, key, m) == Of(h.vertexes, key, m))
    && (forall key, m :: Of(g.edges, key, m) == Of(h.edges, key, m))
  }

  /** Two traces that differ in the order of spans and children only have the same graph, up to the order of its
      vertexes and edges. */
  lemma SameViewSameGraph(kind: Kind, t: Trace, u: Trace)
    requires Assembly.SameView(t, u) && Assembly.WellFormed(t) && Assembly.WellFormed(u)
    requires t.tSpan != "" ==> Ends(t.spans, t.tSpan, |t.spans|)
    ensures u.tSpan != "" ==> Ends(u.spans, u.tSpan, |u.spans|)
    ensures SameStats(GraphOf(kind, t), GraphOf(kind, u))
  {
    assert t.(spans := []).tSpan == u.(spans := []).tSpan && t.(spans := []).tMaster == u.(spans := []).tMaster;
    if t.tSpan != "" {
      assert RootStat(t.(spans := [])) == RootStat(t) && RootStat(u.(spans := [])) == RootStat(u);
      SameEnds(t.spans, u.spans, t.tSpan, |t.spans|);
      EndsWithinSize(u.spans, u.tSpan, |t.spans|);
      forall id ensures Assembly.NoRepeats(Lookup(t.spans, id).children)
                        && Assembly.NoRepeats(Lookup(u.spans, id).children)
      {
        NoRepeatedChildren(t, id);
        NoRepeatedChildren(u, id);
      }
      SameVisits(kind, t.spans, u.spans, FirstOrder(kind), t.tMaster, t.tSpan, |t.spans|, |u.spans|);
      SameRecordsSameGraph(kind, t, u);
    }
  }

  lemma SameRecordsSameGraph(kind: Kind, t: Trace, u: Trace)
    requires t.tSpan == u.tSpan != "" && RootStat(t) == RootStat(u)
    requires Ends(t.spans, t.tSpan, |t.spans|) && Ends(u.spans, u.tSpan, |u.spans|)
    requires SameRecords(kind, TraceVisits(kind, t), TraceVisits(kind, u))
    ensures SameStats(GraphOf(kind, t), GraphOf(kind, u))
  {
    hide Of, VertexStats, EdgeStats, InsertAll;
    var x, y := TraceVisits(kind, t), TraceVisits(kind, u);
    var g, h := GraphOf(kind, t), GraphOf(kind, u);
    hide TraceVisits;
    forall key, m ensures Of(g.vertexes, key, m) == Of(h.vertexes, key, m) {
      SameRecordsSameStats([RootStat(t)], VertexStats(kind, x), VertexStats(kind, y), key, m);
    }
    forall key, m ensures Of(g.edges, key, m) == Of(h.edges, key, m) {
      SameRecordsSameStats([], EdgeStats(kind, x), EdgeStats(kind, y), key, m);
      assert [] + EdgeStats(kind, x) == EdgeStats(kind, x) && [] + EdgeStats(kind, y) == EdgeStats(kind, y);
    }
  }

  /** Main result: from consistent lines, every order of arrival gives the same statistics. */
  lemma AnyOrderSameGraph(kind: Kind, logs: seq<RawLog>, other: seq<RawLog>)
    requires Assembly.AllConsistent(logs) && multiset(other) == multiset(logs)
    requires var t := Assembly.Assemble(logs); t.tSpan != "" ==> Ends(t.spans, t.tSpan, |t.spans|)
    ensures var t, u := Assembly.Assemble(logs), Assembly.Assemble(other);
      (u.tSpan != "" ==> Ends(u.spans, u.tSpan, |u.spans|)) && SameStats(GraphOf(kind, t), GraphOf(kind, u))
  {
    hide Assembly.WellFormed, Assembly.SameView, Assembly.AllConsistent, Assembly.Assemble, Ends, GraphOf, SameStats;
    Assembly.ConsistentRunsAgree(logs, other);
    Assembly.AssembledIsWellFormed(logs);
    Assembly.AssembledIsWellFormed(other);
    SameViewSameGraph(kind, Assembly.Assemble(logs), Assembly.Assemble(other));
  }

  // ----- the builder as the program runs it -----

  class GraphBuilder {
    const vertexes: Table<string>
    const edges: Table<EdgeKey>

    ghost predicate Valid() { vertexes as object != edges }

    constructor ()
      ensures Valid() && fresh(vertexes) && fresh(edges) && vertexes.stats == [] && edges.stats == []
    {
      vertexes := new Table();
      edges := new Table();
    }

    /** Adds the span called id and everything below it.  The result is false when a span is missing, which is
        where the program throws. */
    method AddSpan(kind: Kind, spans: seq<Span>, order: int, fromVertex: string, id: string, ghost fuel: nat)
      returns (ok: bool)
      requires Valid() && Ends(spans, id, fuel)
      modifies vertexes, edges
      ensures ok <==> forall v :: v in Visits(kind, spans, order, fromVertex, id, fuel) ==> Known(spans, v.span.span)
      ensures ok ==> vertexes.stats == InsertAll(old(vertexes.stats),
                                                 VertexStats(kind, Visits(kind, spans, order, fromVertex, id, fuel)))
      ensures ok ==> edges.stats == InsertAll(old(edges.stats),
                                              EdgeStats(kind, Visits(kind, spans, order, fromVertex, id, fuel)))
      decreases fuel, 0
    {
      ghost var visits := Visits(kind, spans, order, fromVertex, id, fuel);
      var i := 0;
      while i < |spans| && spans[i].span != id
        invariant 0 <= i <= |spans|
        invariant forall j :: 0 <= j < i ==> spans[j].span != id
      {
        i := i + 1;
      }
      if i == |spans| {
        assert visits[0].span.span == id && visits[0] in visits;
        return false;
      }
      LookupAt(spans, i);
      var s := spans[i];
      assert s == Lookup(spans, id) && forall c :: c in s.children ==> Ends(spans, c, fuel - 1);
      var name := Name(kind, s);
      vertexes.Add(Timed(name, s.srTime, s.ssTime));
      edges.Add(Timed(EdgeKey(fromVertex, name, order), s.csTime, s.crTime));
      ghost var first := [Visit(s, fromVertex, order)];
      ghost var below := VisitsAll(kind, spans, NextOrder(kind, order), name, s.children, fuel - 1);
      assert visits == first + below;
      InsertOne(old(vertexes.stats), VertexStats(kind, first));
      InsertOne(old(edges.stats), EdgeStats(kind, first));
      AppendVisits(kind, first, below, old(vertexes.stats), old(edges.stats));
      ok := AddChildren(kind, spans, NextOrder(kind, order), name, s.children, fuel - 1);
    }

    method AddChildren(kind: Kind, spans: seq<Span>, order: int, fromVertex: string, ids: seq<string>, ghost fuel: nat)
      returns (ok: bool)
      requires Valid() && forall c :: c in ids ==> Ends(spans, c, fuel)
      modifies vertexes, edges
      ensures var visits := VisitsAll(kind, spans, order, fromVertex, ids, fuel);
        && (ok <==> forall v :: v in visits ==> Known(spans, v.span.span))
        && (ok ==> vertexes.stats == InsertAll(old(vertexes.stats), VertexStats(kind, visits)))
        && (ok ==> edges.stats == InsertAll(old(edges.stats), EdgeStats(kind, visits)))
      decreases fuel, 1
    {
      ghost var done: seq<Visit> := [];
      for k := 0 to |ids|
        invariant forall c :: c in ids[..k] ==> Ends(spans, c, fuel)
        invariant done == VisitsAll(kind, spans, order, fromVertex, ids[..k], fuel)
        invariant forall v :: v in done ==> Known(spans, v.span.span)
        invariant vertexes.stats == InsertAll(old(vertexes.stats), VertexStats(kind, done))
        invariant edges.stats == InsertAll(old(edges.stats), EdgeStats(kind, done))
      {
        ghost var more := Visits(kind, spans, order, fromVertex, ids[k], fuel);
        assert ids[..k + 1][..k] == ids[..k];
        AppendVisits(kind, done, more, old(vertexes.stats), old(edges.stats));
        ok := AddSpan(kind, spans, order, fromVertex, ids[k], fuel);
        if !ok {
          ghost var v :| v in more && !Known(spans, v.span.span);
          VisitsAllContains(kind, spans, order, fromVertex, ids, fuel, k, v);
          return;
        }
        done := done + more;
      }
      assert ids[..|ids|] == ids;
      ok := true;
    }

    method Build(kind: Kind, t: Trace) returns (ok: bool)
      requires Valid() && vertexes.stats == [] && edges.stats == []
      requires t.tSpan != "" ==> Ends(t.spans, t.tSpan, |t.spans|)
      modifies vertexes, edges
      ensures Assembly.WellFormed(t) ==> ok
      ensures ok ==> Graph(vertexes.stats, edges.stats) == GraphOf(kind, t)
    {
      if t.tSpan == "" {
        return true;
      }
      vertexes.Add(RootStat(t));
      ghost var visits := TraceVisits(kind, t);
      InsertOne([], [RootStat(t)]);
      InsertAllAppend([], [RootStat(t)], VertexStats(kind, visits));
      ok := AddSpan(kind, t.spans, FirstOrder(kind), t.tMaster, t.tSpan, |t.spans|);
      if Assembly.WellFormed(t) {
        forall v | v in visits ensures Known(t.spans, v.span.span) { VisitedIsKnown(kind, t, v); }
      }
    }
  }

  lemma InsertOne<K(!new)>(stats: seq<Stat<K>>, one: seq<Stat<K>>)
    requires |one| == 1
    ensures InsertAll(stats, one) == Insert(stats, one[0])
  {
    assert one[..0] == [];
  }

  lemma AppendVisits(kind: Kind, a: seq<Visit>, b: seq<Visit>, vs: seq<Stat<string>>, es: seq<Stat<EdgeKey>>)
    ensures InsertAll(vs, VertexStats(kind, a + b))
         == InsertAll(InsertAll(vs, VertexStats(kind, a)), VertexStats(kind, b))
    ensures InsertAll(es, EdgeStats(kind, a + b)) == InsertAll(InsertAll(es, EdgeStats(kind, a)), EdgeStats(kind, b))
  {
    assert VertexStats(kind, a + b) == VertexStats(kind, a) + VertexStats(kind, b);
    assert EdgeStats(kind, a + b) == EdgeStats(kind, a) + EdgeStats(kind, b);
    InsertAllAppend(vs, VertexStats(kind, a), VertexStats(kind, b));
    InsertAllAppend(es, EdgeStats(kind, a), EdgeStats(kind, b));
  }

  lemma {:induction false} VisitsAllContains(kind: Kind, spans: seq<Span>, order: int, from: string, ids: seq<string>,
                                             fuel: nat, k: nat, v: Visit)
    requires forall c :: c in ids ==> Ends(spans, c, fuel)
    requires k < |ids| && v in Visits(kind, spans, order, from, ids[k], fuel)
    ensures v in VisitsAll(kind, spans, order, from, ids, fuel)
    decreases |ids|
  {
    if k < |ids| - 1 {
      VisitsAllContains(kind, spans, order, from, ids[..|ids| - 1], fuel, k, v);
    }
  }

  /** In a well-formed trace the builder never looks for a span that is not there. */
  lemma VisitedIsKnown(kind: Kind, t: Trace, v: Visit)
    requires Assembly.WellFormed(t) && t.tSpan != "" && Ends(t.spans, t.tSpan, |t.spans|)
    requires v in TraceVisits(kind, t)
    ensures Known(t.spans, v.span.span)
  {
    var visits, ids := TraceVisits(kind, t), Order(t.spans, t.tSpan, |t.spans|);
    VisitsFollowOrder(kind, t.spans, FirstOrder(kind), t.tMaster, t.tSpan, |t.spans|);
    var i :| 0 <= i < |visits| && visits[i] == v;
    assert ids[i] in ids;
    OrderReaches(t.spans, t.tSpan, ids[i], |t.spans|);
    ReachedIsKnown(t.spans, t.tSpan, ids[i]);
  }
}
