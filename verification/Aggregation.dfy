/** Collecting lines into live traces, closing traces on timers, and summing their graphs into buckets. */
module Aggregation {
  import opened TraceData
  import opened CallStats
  import opened TraceGraph
  import opened TraceAssembly

  // ----- timers -----

  /** A cyclic task carries its own period; period 0 ends the cycle. */
  datatype Task = CheckTrace(name: string, cycle: nat) | CheckGraph(id: nat, cycle: nat)

  const TWO32 := 0x1_0000_0000

  /** Tasks keyed by due second and by a 32-bit sequence number that breaks ties. */
  datatype Timers = Timers(pending: map<nat, Task>, pushed: nat)

  function SeqNo(n: nat): nat { n % TWO32 }

  function TimerKey(due: nat, n: nat): nat {
    due * TWO32 + SeqNo(n)
  }

  function Due(key: nat): nat {
    key / TWO32
  }

  function Schedule(t: Timers, task: Task, due: nat): Timers {
    Timers(t.pending[TimerKey(due, t.pushed) := task], t.pushed + 1)
  }

  /** The key that the next task due at a second gets is not in use. */
  predicate KeyFree(t: Timers, due: nat) {
    TimerKey(due, t.pushed) !in t.pending
  }

  lemma TimerKeyParts(due: nat, n: nat)
    ensures SeqNo(TimerKey(due, n)) == SeqNo(n) && Due(TimerKey(due, n)) == due
  {
  }

  /** Scheduling keeps every pending task and adds one exactly if the key is free; otherwise it overwrites a task. */
  lemma ScheduleLosesExactly(t: Timers, task: Task, due: nat)
    ensures var t' := Schedule(t, task, due);
      && (KeyFree(t, due) <==> |t'.pending| == |t.pending| + 1)
      && (KeyFree(t, due) ==> t'.pending - {TimerKey(due, t.pushed)} == t.pending)
  {
    var t', key := Schedule(t, task, due), TimerKey(due, t.pushed);
    assert t'.pending.Keys == t.pending.Keys + {key};
    assert |t'.pending| == |t'.pending.Keys| && |t.pending| == |t.pending.Keys|;
  }

  /** What the queue is used for. */
  datatype Use = Put(task: Task, due: nat) | Take(key: nat)

  function Queue(uses: seq<Use>): Timers {
    if uses == [] then Timers(map[], 0)
    else
      var t := Queue(uses[..|uses| - 1]);
      match uses[|uses| - 1]
      case Put(task, due) => Schedule(t, task, due)
      case Take(key) => t.(pending := t.pending - {key})
  }

  /** How many tasks had been scheduled when each pending one was. */
  function Born(uses: seq<Use>): map<nat, nat> {
    if uses == [] then map[]
    else
      var init := uses[..|uses| - 1];
      match uses[|uses| - 1]
      case Put(task, due) => Born(init)[TimerKey(due, Queue(init).pushed) := Queue(init).pushed]
      case Take(key) => Born(init) - {key}
  }

  lemma {:induction false} BornIsInKey(uses: seq<Use>)
    ensures Born(uses).Keys == Queue(uses).pending.Keys
    ensures forall k :: k in Born(uses) ==> Born(uses)[k] < Queue(uses).pushed && k == TimerKey(Due(k), Born(uses)[k])
  {
    if uses != [] {
      var init := uses[..|uses| - 1];
      BornIsInKey(init);
      if uses[|uses| - 1].Put? { TimerKeyParts(uses[|uses| - 1].due, Queue(init).pushed); }
    }
  }

  /** Over any use of the queue: a key is taken exactly if a task due at the same second still waits that was scheduled
      a multiple of 2^32 tasks ago. */
  lemma KeyTakenExactly(uses: seq<Use>, due: nat)
    ensures !KeyFree(Queue(uses), due) <==>
            exists k :: k in Born(uses) && Due(k) == due && (Queue(uses).pushed - Born(uses)[k]) % TWO32 == 0
  {
    hide Queue, Born, TimerKey, Due, SeqNo;
    BornIsInKey(uses);
    var t, key := Queue(uses), TimerKey(due, Queue(uses).pushed);
    TimerKeyParts(due, t.pushed);
    if key in t.pending {
      TimerKeyParts(Due(key), Born(uses)[key]);
      NumbersMeet(t.pushed, Born(uses)[key]);
    }
    if k :| k in Born(uses) && Due(k) == due && (t.pushed - Born(uses)[k]) % TWO32 == 0 {
      NumbersMeet(t.pushed, Born(uses)[k]);
      KeyOfNumber(due, t.pushed, Born(uses)[k]);
    }
  }

  lemma NumbersMeet(a: nat, b: nat)
    ensures SeqNo(a) == SeqNo(b) <==> (a - b) % TWO32 == 0
  {
  }

  lemma KeyOfNumber(due: nat, a: nat, b: nat)
    requires SeqNo(a) == SeqNo(b)
    ensures TimerKey(due, a) == TimerKey(due, b)
  {
  }

  /** So as long as every task waits for fewer than 2^32 others, none is ever lost. */
  lemma ShortWaitsKeepKeysFree(uses: seq<Use>, due: nat)
    requires forall k :: k in Born(uses) ==> Queue(uses).pushed - Born(uses)[k] < TWO32
    ensures KeyFree(Queue(uses), due)
  {
    hide Queue, Born, KeyFree, Due;
    BornIsInKey(uses);
    KeyTakenExactly(uses, due);
  }

  // ----- state -----

  datatype TraceOp = TraceOp(updateTime: nat, itrace: Trace)

  datatype Bucket = Bucket(kind: string, graph: Graph)

  datatype Config = Config(firstCheck: nat, checkCycle: nat, closureOvertime: nat, maxOvertime: nat)

  /** The periods of a collector before its timers are set. */
  const DEFAULTS := Config(3, 3, 3, 100)

  const GRAPH_FIRST := 1
  const GRAPH_CYCLE := 300

  datatype State = State(traces: map<string, TraceOp>, graphs: map<nat, Bucket>, timers: Timers)

  const EMPTY := State(map[], map[], Timers(map[], 0))

  predicate Incomplete(t: Trace) {
    exists i :: 0 <= i < |t.spans| && var s := t.spans[i];
      s.csTime == 0 || s.srTime == 0 || s.ssTime == 0 || s.crTime == 0
  }

  function Overtime(c: Config, t: Trace): nat {
    if t.teTime != 0 && Incomplete(t) then c.maxOvertime else c.closureOvertime
  }

  predicate Overdue(c: Config, op: TraceOp, now: nat) {
    op.updateTime + Overtime(c, op.itrace) < now
  }

  /** The graphs of the trace can be built: the recursion over its spans finishes. */
  ghost predicate Finishes(t: Trace) {
    t.tSpan != "" ==> Ends(t.spans, t.tSpan, |t.spans|)
  }

  // ----- steps -----

  function PushLog(c: Config, s: State, l: RawLog, now: nat): State {
    if l.trace in s.traces then
      var op := s.traces[l.trace];
      s.(traces := s.traces[l.trace := op.(itrace := UpdateTrace(l, op.itrace))])
    else
      s.(traces := s.traces[l.trace := TraceOp(now, UpdateTrace(l, EMPTY_TRACE))],
         timers := Schedule(s.timers, CheckTrace(l.trace, c.checkCycle), now + c.firstCheck))
  }

  function EmptyBucket(): Bucket { Bucket("", Graph([], [])) }

  function Merge(b: Bucket, g: Graph, kind: string): Bucket {
    Bucket(Fill(b.kind, kind), Graph(InsertAll(b.graph.vertexes, g.vertexes), InsertAll(b.graph.edges, g.edges)))
  }

  /** Adds a graph to the bucket of its id; a new bucket also gets its own cyclic task. */
  function AddGraph(s: State, id: nat, g: Graph, kind: string, now: nat): State {
    if id in s.graphs then s.(graphs := s.graphs[id := Merge(s.graphs[id], g, kind)])
    else s.(graphs := s.graphs[id := Merge(EmptyBucket(), g, kind)],
            timers := Schedule(s.timers, CheckGraph(id, GRAPH_CYCLE), now + GRAPH_FIRST))
  }

  ghost function CloseTrace(hash: Graph -> nat, s: State, name: string, now: nat): State
    requires name in s.traces && Finishes(s.traces[name].itrace)
  {
    var t := s.traces[name].itrace;
    var sg, fg := GraphOf(Server, t), GraphOf(Function, t);
    var s1 := AddGraph(s, hash(sg), sg, "server", now);
    var s2 := AddGraph(s1, hash(fg), fg, "function", now);
    s2.(traces := s2.traces - {name})
  }

  predicate Closes(c: Config, s: State, task: Task, now: nat) {
    task.CheckTrace? && task.name in s.traces && Overdue(c, s.traces[task.name], now)
  }

  /** A task starts again after its period unless its trace is gone or has just been closed. */
  predicate Repeats(c: Config, s: State, task: Task, now: nat) {
    task.cycle != 0 && (task.CheckTrace? ==> task.name in s.traces && !Overdue(c, s.traces[task.name], now))
  }

  ghost function RunTask(c: Config, hash: Graph -> nat, s: State, key: nat, now: nat): State
    requires key in s.timers.pending
    requires Closes(c, s, s.timers.pending[key], now) ==> Finishes(s.traces[s.timers.pending[key].name].itrace)
  {
    var task := s.timers.pending[key];
    var s1 := s.(timers := s.timers.(pending := s.timers.pending - {key}));
    if Closes(c, s, task, now) then CloseTrace(hash, s1, task.name, now)
    else if Repeats(c, s, task, now) then s1.(timers := Schedule(s1.timers, task, now + task.cycle))
    else s1
  }

  // ----- history -----

  /** One life of a trace, from its first line to its closing. */
  datatype Life = Life(name: string, logs: seq<RawLog>)

  /** What happened so far: all lines pushed, the lives that have ended, and the lines of those still open. */
  datatype History = History(pushed: seq<RawLog>, closed: seq<Life>, live: map<string, seq<RawLog>>)

  const NO_HISTORY := History([], [], map[])

  function LiveLogs(h: History, name: string): seq<RawLog> {
    if name in h.live then h.live[name] else []
  }

  function HistoryPush(h: History, l: RawLog): History {
    h.(pushed := h.pushed + [l], live := h.live[l.trace := LiveLogs(h, l.trace) + [l]])
  }

  function HistoryClose(h: History, name: string): History {
    h.(closed := h.closed + [Life(name, LiveLogs(h, name))], live := h.live - {name})
  }

  function LinesOf(logs: seq<RawLog>, name: string): seq<RawLog> {
    if logs == [] then []
    else LinesOf(logs[..|logs| - 1], name) + if logs[|logs| - 1].trace == name then [logs[|logs| - 1]] else []
  }

  function LivesOf(lives: seq<Life>, name: string): seq<RawLog> {
    if lives == [] then []
    else LivesOf(lives[..|lives| - 1], name) + if lives[|lives| - 1].name == name then lives[|lives| - 1].logs else []
  }

  ghost predicate LivesMatch(traces: map<string, TraceOp>, live: map<string, seq<RawLog>>) {
    live.Keys == traces.Keys && forall n :: n in traces ==> traces[n].itrace == Assemble(live[n]) && live[n] != []
  }

  /** The lines of every trace id are cut, in order and without loss, into its lives. */
  ghost predicate LinesKept(h: History) {
    forall n :: LivesOf(h.closed, n) + LiveLogs(h, n) == LinesOf(h.pushed, n)
  }

  ghost predicate LifeFinishes(life: Life) { Finishes(Assemble(life.logs)) }

  function Only<K>(wanted: bool, s: seq<Stat<K>>): seq<Stat<K>> { if wanted then s else [] }

  /** The graphs of the closed lives whose id is the given one, as one list of statistics. */
  ghost function VertexesOf(hash: Graph -> nat, lives: seq<Life>, id: nat): seq<Stat<string>>
    requires forall i :: 0 <= i < |lives| ==> LifeFinishes(lives[i])
  {
    if lives == [] then []
    else
      var last := lives[|lives| - 1];
      assert LifeFinishes(last);
      var t := Assemble(last.logs);
      var sg, fg := GraphOf(Server, t), GraphOf(Function, t);
      VertexesOf(hash, lives[..|lives| - 1], id)
      + Only(hash(sg) == id, sg.vertexes) + Only(hash(fg) == id, fg.vertexes)
  }

  ghost function EdgesOf(hash: Graph -> nat, lives: seq<Life>, id: nat): seq<Stat<EdgeKey>>
    requires forall i :: 0 <= i < |lives| ==> LifeFinishes(lives[i])
  {
    if lives == [] then []
    else
      var last := lives[|lives| - 1];
      assert LifeFinishes(last);
      var t := Assemble(last.logs);
      var sg, fg := GraphOf(Server, t), GraphOf(Function, t);
      EdgesOf(hash, lives[..|lives| - 1], id)
      + Only(hash(sg) == id, sg.edges) + Only(hash(fg) == id, fg.edges)
  }

  /** The kind of the first of those graphs. */
  ghost function KindOf(hash: Graph -> nat, lives: seq<Life>, id: nat): string
    requires forall i :: 0 <= i < |lives| ==> LifeFinishes(lives[i])
  {
    if lives == [] then ""
    else
      var last := lives[|lives| - 1];
      assert LifeFinishes(last);
      var t := Assemble(last.logs);
      KindWith(KindWith(KindOf(hash, lives[..|lives| - 1], id), hash(GraphOf(Server, t)) == id, "server"),
               hash(GraphOf(Function, t)) == id, "function")
  }

  function KindWith(kind: string, wanted: bool, more: string): string {
    if wanted then Fill(kind, more) else kind
  }

  function BucketKind(s: State, id: nat): string { if id in s.graphs then s.graphs[id].kind else "" }

  function Vertexes(s: State, id: nat): seq<Stat<string>> { if id in s.graphs then s.graphs[id].graph.vertexes else [] }

  function Edges(s: State, id: nat): seq<Stat<EdgeKey>> { if id in s.graphs then s.graphs[id].graph.edges else [] }

  /** Every bucket holds exactly what the graphs of the closed lives with its id hold together. */
  ghost predicate GraphsKept(hash: Graph -> nat, s: State, h: History) {
    && (forall i :: 0 <= i < |h.closed| ==> LifeFinishes(h.closed[i]))
    && (forall id :: Vertexes(s, id) == InsertAll([], VertexesOf(hash, h.closed, id)))
    && (forall id :: Edges(s, id) == InsertAll([], EdgesOf(hash, h.closed, id)))
    && (forall id :: BucketKind(s, id) == KindOf(hash, h.closed, id))
  }

  /** What a task is about. */
  datatype Subject = OfTrace(name: string) | OfGraph(id: nat)

  function About(t: Task): Subject {
    match t case CheckTrace(name, _) => OfTrace(name) case CheckGraph(id, _) => OfGraph(id)
  }

  function Subjects(s: State): set<Subject> {
    (set n | n in s.traces :: OfTrace(n)) + (set id | id in s.graphs :: OfGraph(id))
  }

  predicate IsAbout(p: map<nat, Task>, k: nat, x: Subject) { k in p && About(p[k]) == x }

  /** Every pending task is about a present subject, and every present subject has exactly one pending task. */
  ghost predicate OnePerSubject(p: map<nat, Task>, subjects: set<Subject>) {
    && (forall k :: k in p ==> About(p[k]) in subjects && p[k].cycle > 0)
    && (forall x :: x in subjects ==> exists k :: IsAbout(p, k, x))
    && (forall k, k', x :: IsAbout(p, k, x) && IsAbout(p, k', x) ==> k == k')
  }

  /** Every live trace has exactly one pending check, every bucket exactly one post, and there are no others. */
  ghost predicate TasksMatch(s: State) {
    OnePerSubject(s.timers.pending, Subjects(s))
  }

  ghost predicate Inv(hash: Graph -> nat, s: State, h: History) {
    TasksMatch(s) && LivesMatch(s.traces, h.live) && LinesKept(h) && GraphsKept(hash, s, h)
  }

  // ----- every step keeps the invariant -----

  /** A subject has no pending task. */
  ghost predicate Forgotten(p: map<nat, Task>, subjects: set<Subject>) {
    exists x :: x in subjects && forall k :: !IsAbout(p, k, x)
  }

  lemma AddTask(p: map<nat, Task>, subjects: set<Subject>, key: nat, task: Task)
    requires OnePerSubject(p, subjects) && key !in p && task.cycle > 0 && About(task) !in subjects
    ensures OnePerSubject(p[key := task], subjects + {About(task)})
  {
    var p' := p[key := task];
    forall x | x in subjects + {About(task)} ensures exists k :: IsAbout(p', k, x) {
      if x == About(task) {
        assert IsAbout(p', key, x);
      } else {
        var k :| IsAbout(p, k, x);
        assert IsAbout(p', k, x);
      }
    }
    forall k, k', x | IsAbout(p', k, x) && IsAbout(p', k', x) ensures k == k' {
      if k != key && k' != key { assert IsAbout(p, k, x) && IsAbout(p, k', x); }
    }
  }

  /** A task put in the place of another leaves that one's subject without a task, */
  lemma OverwriteForgets(p: map<nat, Task>, subjects: set<Subject>, key: nat, task: Task)
    requires OnePerSubject(p, subjects) && key in p && About(task) !in subjects
    ensures Forgotten(p[key := task], subjects)
  {
    var x, p' := About(p[key]), p[key := task];
    forall k ensures !IsAbout(p', k, x) {
      if k != key && IsAbout(p, k, x) { assert IsAbout(p, key, x); }
    }
  }

  /** and putting more tasks for others does not help it. */
  lemma ForgottenStays(p: map<nat, Task>, subjects: set<Subject>, key: nat, task: Task)
    requires Forgotten(p, subjects) && About(task) !in subjects
    ensures Forgotten(p[key := task], subjects)
  {
    var x :| x in subjects && forall k :: !IsAbout(p, k, x);
    var p' := p[key := task];
    forall k ensures !IsAbout(p', k, x) { assert !IsAbout(p, k, x); }
  }

  lemma ForgottenBreaks(p: map<nat, Task>, subjects: set<Subject>, more: set<Subject>)
    requires Forgotten(p, subjects) && subjects <= more
    ensures !OnePerSubject(p, more)
  {
    var x :| x in subjects && forall k :: !IsAbout(p, k, x);
    assert x in more;
  }

  lemma RemoveTask(p: map<nat, Task>, subjects: set<Subject>, key: nat)
    requires OnePerSubject(p, subjects) && key in p
    ensures OnePerSubject(p - {key}, subjects - {About(p[key])})
  {
    var p' := p - {key};
    forall k | k in p' ensures About(p'[k]) in subjects - {About(p[key])} && p'[k].cycle > 0 {
      assert IsAbout(p, k, About(p[k])) && IsAbout(p, key, About(p[key]));
    }
    forall x | x in subjects - {About(p[key])} ensures exists k :: IsAbout(p', k, x) {
      var k :| IsAbout(p, k, x);
      assert IsAbout(p', k, x);
    }
    forall k, k', x | IsAbout(p', k, x) && IsAbout(p', k', x) ensures k == k' {
      assert IsAbout(p, k, x) && IsAbout(p, k', x);
    }
  }

  /** A push to a live trace schedules nothing; any other needs a free key. */
  predicate PushFree(c: Config, s: State, l: RawLog, now: nat) {
    l.trace in s.traces || KeyFree(s.timers, now + c.firstCheck)
  }

  /** A push keeps one task a subject exactly if it goes to a live trace or finds its key free. */
  lemma PushKeepsTasksExactly(c: Config, s: State, l: RawLog, now: nat)
    requires TasksMatch(s) && c.checkCycle > 0
    ensures TasksMatch(PushLog(c, s, l, now)) <==> PushFree(c, s, l, now)
  {
    hide Subjects, UpdateTrace, OnePerSubject, Forgotten, TimerKey;
    var s' := PushLog(c, s, l, now);
    PushSubjects(c, s, l, now);
    if l.trace !in s.traces {
      var task, key := CheckTrace(l.trace, c.checkCycle), TimerKey(now + c.firstCheck, s.timers.pushed);
      if PushFree(c, s, l, now) {
        AddTask(s.timers.pending, Subjects(s), key, task);
      } else {
        OverwriteForgets(s.timers.pending, Subjects(s), key, task);
        ForgottenBreaks(s'.timers.pending, Subjects(s), Subjects(s'));
      }
    }
  }

  lemma PushSubjects(c: Config, s: State, l: RawLog, now: nat)
    ensures OfTrace(l.trace) in Subjects(s) <==> l.trace in s.traces
    ensures Subjects(PushLog(c, s, l, now)) == Subjects(s) + {OfTrace(l.trace)}
    ensures l.trace in s.traces ==> Subjects(PushLog(c, s, l, now)) == Subjects(s)
  {
    hide UpdateTrace;
    assert l.trace in PushLog(c, s, l, now).traces;
  }

  lemma AssembleMore(logs: seq<RawLog>, l: RawLog)
    ensures Assemble(logs + [l]) == UpdateTrace(l, Assemble(logs))
  {
    assert (logs + [l])[..|logs|] == logs;
  }

  lemma PushKeepsLives(c: Config, s: State, h: History, l: RawLog, now: nat)
    requires LivesMatch(s.traces, h.live)
    ensures LivesMatch(PushLog(c, s, l, now).traces, HistoryPush(h, l).live)
  {
    hide Assemble, UpdateTrace;
    AssembleMore(LiveLogs(h, l.trace), l);
    EmptyAssembles();
  }

  lemma EmptyAssembles()
    ensures Assemble([]) == EMPTY_TRACE
  {
  }

  lemma PushKeepsLines(h: History, l: RawLog)
    requires LinesKept(h)
    ensures LinesKept(HistoryPush(h, l))
  {
    var h' := HistoryPush(h, l);
    forall n ensures LivesOf(h'.closed, n) + LiveLogs(h', n) == LinesOf(h'.pushed, n) {
      var lives, logs, more := LivesOf(h.closed, n), LiveLogs(h, n), if l.trace == n then [l] else [];
      assert (h.pushed + [l])[..|h.pushed|] == h.pushed;
      assert LinesOf(h'.pushed, n) == LinesOf(h.pushed, n) + more;
      assert LiveLogs(h', n) == logs + more;
      assert lives + (logs + more) == (lives + logs) + more;
    }
  }

  /** Pushing a line keeps everything: it goes to the one open life of its trace, opening it if need be. */
  lemma PushKeepsInv(c: Config, hash: Graph -> nat, s: State, h: History, l: RawLog, now: nat)
    requires Inv(hash, s, h) && c.checkCycle > 0 && PushFree(c, s, l, now)
    ensures Inv(hash, PushLog(c, s, l, now), HistoryPush(h, l))
  {
    PushKeepsTasksExactly(c, s, l, now);
    PushKeepsLives(c, s, h, l, now);
    PushKeepsLines(h, l);
    SameGraphs(hash, s, h, PushLog(c, s, l, now), HistoryPush(h, l));
  }

  lemma SameGraphs(hash: Graph -> nat, s: State, h: History, s': State, h': History)
    requires GraphsKept(hash, s, h) && s'.graphs == s.graphs && h'.closed == h.closed
    ensures GraphsKept(hash, s', h')
  {
    assert forall id :: Vertexes(s', id) == Vertexes(s, id) && Edges(s', id) == Edges(s, id);
    assert forall id :: BucketKind(s', id) == BucketKind(s, id);
  }

  predicate AddFree(s: State, id: nat, now: nat) {
    id in s.graphs || KeyFree(s.timers, now + GRAPH_FIRST)
  }

  lemma AddGraphKeepsTasks(s: State, id: nat, g: Graph, kind: string, now: nat)
    requires TasksMatch(s)
    ensures AddFree(s, id, now) ==> TasksMatch(AddGraph(s, id, g, kind, now))
    ensures !AddFree(s, id, now) ==> Forgotten(AddGraph(s, id, g, kind, now).timers.pending, Subjects(s))
    ensures Subjects(AddGraph(s, id, g, kind, now)) == Subjects(s) + {OfGraph(id)}
  {
    var s' := AddGraph(s, id, g, kind, now);
    assert Subjects(s') == Subjects(s) + {OfGraph(id)};
    if id !in s.graphs {
      var task, key := CheckGraph(id, GRAPH_CYCLE), TimerKey(now + GRAPH_FIRST, s.timers.pushed);
      if AddFree(s, id, now) {
        AddTask(s.timers.pending, Subjects(s), key, task);
      } else {
        OverwriteForgets(s.timers.pending, Subjects(s), key, task);
      }
    } else {
      assert OfGraph(id) in Subjects(s);
      assert Subjects(s') == Subjects(s);
    }
  }

  /** Adding another graph does not bring a lost task back. */
  lemma AddGraphKeepsForgotten(s: State, id: nat, g: Graph, kind: string, now: nat, subjects: set<Subject>)
    requires Forgotten(s.timers.pending, subjects) && subjects <= Subjects(s)
    ensures !TasksMatch(AddGraph(s, id, g, kind, now))
  {
    var s' := AddGraph(s, id, g, kind, now);
    assert Subjects(s) <= Subjects(s');
    if id !in s.graphs {
      assert OfGraph(id) !in subjects;
      var key := TimerKey(now + GRAPH_FIRST, s.timers.pushed);
      ForgottenStays(s.timers.pending, subjects, key, CheckGraph(id, GRAPH_CYCLE));
    }
    ForgottenBreaks(s'.timers.pending, subjects, Subjects(s'));
  }

  lemma AddGraphContents(s: State, id: nat, g: Graph, kind: string, now: nat, id': nat)
    ensures var s' := AddGraph(s, id, g, kind, now);
      && Vertexes(s', id') == InsertAll(Vertexes(s, id'), Only(id' == id, g.vertexes))
      && Edges(s', id') == InsertAll(Edges(s, id'), Only(id' == id, g.edges))
      && BucketKind(s', id') == KindWith(BucketKind(s, id'), id' == id, kind)
  {
  }

  /** Closing only touches the closed trace: it could as well have been dropped first. */
  lemma CloseFirstDrops(hash: Graph -> nat, s: State, name: string, now: nat)
    requires name in s.traces && Finishes(s.traces[name].itrace)
    ensures var t := s.traces[name].itrace;
            var sg, fg := GraphOf(Server, t), GraphOf(Function, t);
            var dropped := s.(traces := s.traces - {name});
            CloseTrace(hash, s, name, now)
            == AddGraph(AddGraph(dropped, hash(sg), sg, "server", now), hash(fg), fg, "function", now)
  {
  }

  /** The collector without the task and, if it closes one, the trace. */
  function Dropped(s: State, key: nat, name: string): State {
    State(s.traces - {name}, s.graphs, s.timers.(pending := s.timers.pending - {key}))
  }

  /** Both graphs of the closed trace find a bucket or a free key. */
  ghost predicate CloseFree(hash: Graph -> nat, s: State, key: nat, name: string, now: nat)
    requires name in s.traces && Finishes(s.traces[name].itrace)
  {
    var t := s.traces[name].itrace;
    var sg, fg := GraphOf(Server, t), GraphOf(Function, t);
    var dropped := Dropped(s, key, name);
    AddFree(dropped, hash(sg), now) && AddFree(AddGraph(dropped, hash(sg), sg, "server", now), hash(fg), now)
  }

  lemma CloseKeepsTasksExactly(c: Config, hash: Graph -> nat, s: State, key: nat, now: nat)
    requires TasksMatch(s) && key in s.timers.pending
    requires Closes(c, s, s.timers.pending[key], now) && Finishes(s.traces[s.timers.pending[key].name].itrace)
    ensures TasksMatch(RunTask(c, hash, s, key, now)) <==> CloseFree(hash, s, key, s.timers.pending[key].name, now)
  {
    var name := s.timers.pending[key].name;
    var t := s.traces[name].itrace;
    var sg, fg := GraphOf(Server, t), GraphOf(Function, t);
    var dropped := Dropped(s, key, name);
    RemoveTask(s.timers.pending, Subjects(s), key);
    assert Subjects(dropped) == Subjects(s) - {OfTrace(name)};
    CloseFirstDrops(hash, s.(timers := dropped.timers), name, now);
    hide Subjects, OnePerSubject, Forgotten, GraphOf, Ends;
    var one := AddGraph(dropped, hash(sg), sg, "server", now);
    AddGraphKeepsTasks(dropped, hash(sg), sg, "server", now);
    if !AddFree(dropped, hash(sg), now) {
      AddGraphKeepsForgotten(one, hash(fg), fg, "function", now, Subjects(dropped));
    } else {
      AddGraphKeepsTasks(one, hash(fg), fg, "function", now);
      if !AddFree(one, hash(fg), now) {
        var two := AddGraph(one, hash(fg), fg, "function", now);
        ForgottenBreaks(two.timers.pending, Subjects(one), Subjects(two));
      }
    }
  }

  lemma LivesOfClose(lives: seq<Life>, life: Life, n: string)
    ensures LivesOf(lives + [life], n) == LivesOf(lives, n) + if life.name == n then life.logs else []
  {
    assert (lives + [life])[..|lives|] == lives;
  }

  lemma CloseKeepsLines(h: History, name: string)
    requires LinesKept(h)
    ensures LinesKept(HistoryClose(h, name))
  {
    var h' := HistoryClose(h, name);
    forall n ensures LivesOf(h'.closed, n) + LiveLogs(h', n) == LinesOf(h'.pushed, n) {
      LivesOfClose(h.closed, Life(name, LiveLogs(h, name)), n);
      assert LivesOf(h.closed, n) + LiveLogs(h, n) == LinesOf(h.pushed, n);
      if n == name { assert LiveLogs(h', n) == []; } else { assert LiveLogs(h', n) == LiveLogs(h, n); }
    }
  }

  lemma VertexesOfClose(hash: Graph -> nat, lives: seq<Life>, life: Life, id: nat)
    requires forall i :: 0 <= i < |lives| ==> LifeFinishes(lives[i])
    requires LifeFinishes(life)
    ensures forall i :: 0 <= i < |lives + [life]| ==> LifeFinishes((lives + [life])[i])
    ensures var t := Assemble(life.logs);
            var sg, fg := GraphOf(Server, t), GraphOf(Function, t);
      && VertexesOf(hash, lives + [life], id) == VertexesOf(hash, lives, id)
           + Only(hash(sg) == id, sg.vertexes) + Only(hash(fg) == id, fg.vertexes)
      && EdgesOf(hash, lives + [life], id) == EdgesOf(hash, lives, id)
           + Only(hash(sg) == id, sg.edges) + Only(hash(fg) == id, fg.edges)
      && KindOf(hash, lives + [life], id)
         == KindWith(KindWith(KindOf(hash, lives, id), hash(sg) == id, "server"), hash(fg) == id, "function")
  {
    assert (lives + [life])[..|lives|] == lives;
  }

  lemma CloseKeepsGraphs(hash: Graph -> nat, s: State, h: History, name: string, now: nat)
    requires LivesMatch(s.traces, h.live) && GraphsKept(hash, s, h)
    requires name in s.traces && Finishes(s.traces[name].itrace)
    ensures GraphsKept(hash, CloseTrace(hash, s, name, now), HistoryClose(h, name))
  {
    var life := Life(name, h.live[name]);
    var t := s.traces[name].itrace;
    assert LifeFinishes(life);
    VertexesOfClose(hash, h.closed, life, 0);
    forall id
      ensures Vertexes(CloseTrace(hash, s, name, now), id) == InsertAll([], VertexesOf(hash, h.closed + [life], id))
      ensures Edges(CloseTrace(hash, s, name, now), id) == InsertAll([], EdgesOf(hash, h.closed + [life], id))
      ensures BucketKind(CloseTrace(hash, s, name, now), id) == KindOf(hash, h.closed + [life], id)
    {
      CloseContents(hash, s, h.closed, life, now, id);
    }
  }

  lemma CloseContents(hash: Graph -> nat, s: State, closed: seq<Life>, life: Life, now: nat, id: nat)
    requires (forall i :: 0 <= i < |closed| ==> LifeFinishes(closed[i])) && LifeFinishes(life)
    requires life.name in s.traces && s.traces[life.name].itrace == Assemble(life.logs)
    requires Vertexes(s, id) == InsertAll([], VertexesOf(hash, closed, id))
    requires Edges(s, id) == InsertAll([], EdgesOf(hash, closed, id)) && BucketKind(s, id) == KindOf(hash, closed, id)
    ensures forall i :: 0 <= i < |closed + [life]| ==> LifeFinishes((closed + [life])[i])
    ensures Vertexes(CloseTrace(hash, s, life.name, now), id) == InsertAll([], VertexesOf(hash, closed + [life], id))
    ensures Edges(CloseTrace(hash, s, life.name, now), id) == InsertAll([], EdgesOf(hash, closed + [life], id))
    ensures BucketKind(CloseTrace(hash, s, life.name, now), id) == KindOf(hash, closed + [life], id)
  {
    var t := Assemble(life.logs);
    var sg, fg := GraphOf(Server, t), GraphOf(Function, t);
    CloseAddsBoth(hash, s, life.name, now, id);
    VertexesOfClose(hash, closed, life, id);
    InsertTwice(VertexesOf(hash, closed, id), Only(hash(sg) == id, sg.vertexes), Only(hash(fg) == id, fg.vertexes));
    InsertTwice(EdgesOf(hash, closed, id), Only(hash(sg) == id, sg.edges), Only(hash(fg) == id, fg.edges));
  }

  lemma CloseAddsBoth(hash: Graph -> nat, s: State, name: string, now: nat, id: nat)
    requires name in s.traces && Finishes(s.traces[name].itrace)
    ensures var t := s.traces[name].itrace;
            var sg, fg := GraphOf(Server, t), GraphOf(Function, t);
            var s' := CloseTrace(hash, s, name, now);
      && Vertexes(s', id) == InsertAll(InsertAll(Vertexes(s, id), Only(hash(sg) == id, sg.vertexes)),
                                       Only(hash(fg) == id, fg.vertexes))
      && Edges(s', id) == InsertAll(InsertAll(Edges(s, id), Only(hash(sg) == id, sg.edges)),
                                    Only(hash(fg) == id, fg.edges))
      && BucketKind(s', id)
         == KindWith(KindWith(BucketKind(s, id), hash(sg) == id, "server"), hash(fg) == id, "function")
  {
    var t := s.traces[name].itrace;
    var sg, fg := GraphOf(Server, t), GraphOf(Function, t);
    AddGraphContents(s, hash(sg), sg, "server", now, id);
    AddGraphContents(AddGraph(s, hash(sg), sg, "server", now), hash(fg), fg, "function", now, id);
  }

  lemma InsertTwice<K(!new)>(s: seq<Stat<K>>, a: seq<Stat<K>>, b: seq<Stat<K>>)
    ensures InsertAll([], s + a + b) == InsertAll(InsertAll(InsertAll([], s), a), b)
  {
    InsertAllAppend([], s, a);
    InsertAllAppend([], s + a, b);
  }

  /** A task that starts again is replaced by itself at a later second, which keeps one task a subject exactly if
      its new key is free. */
  lemma RepeatKeepsTasksExactly(s: State, key: nat, due: nat)
    requires TasksMatch(s) && key in s.timers.pending
    ensures var timers := s.timers.(pending := s.timers.pending - {key});
            TasksMatch(s.(timers := Schedule(timers, s.timers.pending[key], due))) <==> KeyFree(timers, due)
  {
    var p, task := s.timers.pending, s.timers.pending[key];
    var timers := s.timers.(pending := p - {key});
    RemoveTask(p, Subjects(s), key);
    assert IsAbout(p, key, About(task));
    assert Subjects(s) - {About(task)} + {About(task)} == Subjects(s);
    assert Subjects(s.(timers := Schedule(timers, task, due))) == Subjects(s);
    hide Subjects;
    var subjects, key' := Subjects(s) - {About(task)}, TimerKey(due, timers.pushed);
    if KeyFree(timers, due) {
      AddTask(timers.pending, subjects, key', task);
    } else {
      OverwriteForgets(timers.pending, subjects, key', task);
      ForgottenBreaks(timers.pending[key' := task], subjects, Subjects(s));
    }
  }

  ghost function HistoryRun(c: Config, s: State, h: History, key: nat, now: nat): History
    requires key in s.timers.pending
  {
    if Closes(c, s, s.timers.pending[key], now) then HistoryClose(h, s.timers.pending[key].name) else h
  }

  /** Whatever the task schedules finds its key free. */
  ghost predicate RunFree(c: Config, hash: Graph -> nat, s: State, key: nat, now: nat)
    requires key in s.timers.pending
    requires Closes(c, s, s.timers.pending[key], now) ==> Finishes(s.traces[s.timers.pending[key].name].itrace)
  {
    var task := s.timers.pending[key];
    if Closes(c, s, task, now) then CloseFree(hash, s, key, task.name, now)
    else KeyFree(s.timers.(pending := s.timers.pending - {key}), now + task.cycle)
  }

  /** Running a task keeps one task a subject exactly if whatever it schedules finds its key free. */
  lemma TaskKeepsTasksExactly(c: Config, hash: Graph -> nat, s: State, key: nat, now: nat)
    requires TasksMatch(s) && key in s.timers.pending
    requires Closes(c, s, s.timers.pending[key], now) ==> Finishes(s.traces[s.timers.pending[key].name].itrace)
    ensures TasksMatch(RunTask(c, hash, s, key, now)) <==> RunFree(c, hash, s, key, now)
  {
    hide TasksMatch, CloseFree;
    if Closes(c, s, s.timers.pending[key], now) {
      CloseKeepsTasksExactly(c, hash, s, key, now);
    } else {
      WaitingMovesTask(c, hash, s, key, now);
      RepeatKeepsTasksExactly(s, key, now + s.timers.pending[key].cycle);
    }
  }

  /** Running a task keeps everything: the trace it checks is closed and its graphs are added, or the task
      waits for its next period. */
  lemma TaskKeepsInv(c: Config, hash: Graph -> nat, s: State, h: History, key: nat, now: nat)
    requires Inv(hash, s, h) && key in s.timers.pending
    requires Closes(c, s, s.timers.pending[key], now) ==> Finishes(s.traces[s.timers.pending[key].name].itrace)
    requires RunFree(c, hash, s, key, now)
    ensures Inv(hash, RunTask(c, hash, s, key, now), HistoryRun(c, s, h, key, now))
  {
    hide TasksMatch, RunFree;
    TaskKeepsTasksExactly(c, hash, s, key, now);
    if Closes(c, s, s.timers.pending[key], now) {
      ClosingKeepsContents(c, hash, s, h, key, now);
    } else {
      WaitingMovesTask(c, hash, s, key, now);
      SameGraphs(hash, s, h, RunTask(c, hash, s, key, now), h);
    }
  }

  lemma ClosingKeepsContents(c: Config, hash: Graph -> nat, s: State, h: History, key: nat, now: nat)
    requires LivesMatch(s.traces, h.live) && LinesKept(h) && GraphsKept(hash, s, h) && key in s.timers.pending
    requires Closes(c, s, s.timers.pending[key], now) && Finishes(s.traces[s.timers.pending[key].name].itrace)
    ensures var s', h' := RunTask(c, hash, s, key, now), HistoryClose(h, s.timers.pending[key].name);
            LivesMatch(s'.traces, h'.live) && LinesKept(h') && GraphsKept(hash, s', h')
  {
    hide Assemble, UpdateTrace, Ends, VertexesOf, EdgesOf, LivesOf, LinesOf, Visits, VisitsAll, InsertAll;
    var name := s.timers.pending[key].name;
    var s1 := s.(timers := s.timers.(pending := s.timers.pending - {key}));
    CloseKeepsLines(h, name);
    SameGraphs(hash, s, h, s1, h);
    CloseKeepsGraphs(hash, s1, h, name, now);
    CloseFirstDrops(hash, s1, name, now);
  }

  lemma WaitingMovesTask(c: Config, hash: Graph -> nat, s: State, key: nat, now: nat)
    requires TasksMatch(s) && key in s.timers.pending && !Closes(c, s, s.timers.pending[key], now)
    ensures var task := s.timers.pending[key];
            var timers := s.timers.(pending := s.timers.pending - {key});
            RunTask(c, hash, s, key, now) == s.(timers := Schedule(timers, task, now + task.cycle))
  {
    var p, task := s.timers.pending, s.timers.pending[key];
    assert About(p[key]) in Subjects(s);
    assert Repeats(c, s, task, now);
  }

  // ----- when a trace is opened and closed, by its times -----

  /** A line of a live trace changes neither its time nor any timer; any other opens its trace at the present second,
      with a check that is due after the first period and repeated in the other. */
  lemma PushSetsTimes(c: Config, s: State, l: RawLog, now: nat)
    ensures var s' := PushLog(c, s, l, now);
      && l.trace in s'.traces && s'.graphs == s.graphs && s'.traces - {l.trace} == s.traces - {l.trace}
      && (l.trace in s.traces ==>
            s'.traces[l.trace].updateTime == s.traces[l.trace].updateTime && s'.timers == s.timers)
      && (l.trace !in s.traces ==>
            && s'.traces[l.trace].updateTime == now && s'.timers.pushed == s.timers.pushed + 1
            && exists key: nat ::
                 key / TWO32 == now + c.firstCheck
                 && s'.timers.pending == s.timers.pending[key := CheckTrace(l.trace, c.checkCycle)])
  {
    hide UpdateTrace;
    if l.trace !in s.traces {
      var key := TimerKey(now + c.firstCheck, s.timers.pushed);
      TimerKeyParts(now + c.firstCheck, s.timers.pushed);
      assert key / TWO32 == now + c.firstCheck;
    }
  }

  /** A new bucket is posted a second later and then every five minutes; a present one keeps its task. */
  lemma AddGraphSetsTimes(s: State, id: nat, g: Graph, kind: string, now: nat)
    ensures var s' := AddGraph(s, id, g, kind, now);
      && id in s'.graphs && s'.traces == s.traces && s'.graphs - {id} == s.graphs - {id}
      && (id in s.graphs ==> s'.timers == s.timers)
      && (id !in s.graphs ==>
            exists key: nat ::
              key / TWO32 == now + 1 && s'.timers.pending == s.timers.pending[key := CheckGraph(id, 300)])
  {
    hide Merge;
    if id !in s.graphs {
      TimerKeyParts(now + GRAPH_FIRST, s.timers.pushed);
      assert TimerKey(now + GRAPH_FIRST, s.timers.pushed) / TWO32 == now + 1;
    }
  }

  /** Main result: a check that runs closes its trace exactly if more than `wait` seconds have passed since the trace
      was opened, where `wait` is the longer period for a trace that has ended with one of the four times of some span
      missing, and the shorter one for any other. Exactly then both its graphs are added; otherwise nothing changes but
      that the check is due again after its period. */
  lemma CheckClosesExactly(c: Config, hash: Graph -> nat, s: State, key: nat, name: string, cycle: nat, now: nat,
                           wait: nat, id: nat, vertex: string, edge: EdgeKey, m: Measure)
    requires key in s.timers.pending && s.timers.pending[key] == CheckTrace(name, cycle) && name in s.traces
    requires var t := s.traces[name].itrace;
      wait == if t.teTime != 0 && (exists x :: x in t.spans && 0 in {x.csTime, x.crTime, x.srTime, x.ssTime})
              then c.maxOvertime else c.closureOvertime
    requires s.traces[name].updateTime + wait < now ==> Finishes(s.traces[name].itrace)
    ensures var s' := RunTask(c, hash, s, key, now);
      && (name !in s'.traces <==> s.traces[name].updateTime + wait < now)
      && s'.traces - {name} == s.traces - {name}
      && (name in s'.traces ==>
            && s'.traces == s.traces && s'.graphs == s.graphs
            && (cycle == 0 ==> s'.timers.pending == s.timers.pending - {key})
            && (cycle != 0 ==> exists next: nat ::
                  next / TWO32 == now + cycle
                  && s'.timers.pending == (s.timers.pending - {key})[next := CheckTrace(name, cycle)]))
      && (name !in s'.traces ==>
            var sg, fg := GraphOf(Server, s.traces[name].itrace), GraphOf(Function, s.traces[name].itrace);
            && Of(Vertexes(s', id), vertex, m)
               == Of(Vertexes(s, id), vertex, m) + (if hash(sg) == id then Of(sg.vertexes, vertex, m) else 0)
                                                 + (if hash(fg) == id then Of(fg.vertexes, vertex, m) else 0)
            && Of(Edges(s', id), edge, m)
               == Of(Edges(s, id), edge, m) + (if hash(sg) == id then Of(sg.edges, edge, m) else 0)
                                            + (if hash(fg) == id then Of(fg.edges, edge, m) else 0))
  {
    OverdueByTimes(c, s.traces[name], now, wait);
    hide Overdue, Overtime, GraphOf, Ends;
    if s.traces[name].updateTime + wait < now {
      var t := s.traces[name].itrace;
      var sg, fg := GraphOf(Server, t), GraphOf(Function, t);
      var s1 := s.(timers := s.timers.(pending := s.timers.pending - {key}));
      CloseAddsBoth(hash, s1, name, now, id);
      CloseFirstDrops(hash, s1, name, now);
      CloseKeepsOtherTraces(hash, s1, name, now);
      hide CloseTrace;
      OfBoth(Vertexes(s1, id), Only(hash(sg) == id, sg.vertexes), Only(hash(fg) == id, fg.vertexes), vertex, m);
      OfBoth(Edges(s1, id), Only(hash(sg) == id, sg.edges), Only(hash(fg) == id, fg.edges), edge, m);
      hide InsertAll;
    } else {
      TimerKeyParts(now + cycle, s.timers.pushed);
      assert TimerKey(now + cycle, s.timers.pushed) / TWO32 == now + cycle;
      hide TimerKey;
    }
  }

  /** The check of a trace that is gone ends, and the post of a bucket is due again after its period. */
  lemma OtherTasksByKind(c: Config, hash: Graph -> nat, s: State, key: nat, now: nat)
    requires key in s.timers.pending
    requires s.timers.pending[key].CheckTrace? ==> s.timers.pending[key].name !in s.traces
    ensures var task, s' := s.timers.pending[key], RunTask(c, hash, s, key, now);
      && s'.traces == s.traces && s'.graphs == s.graphs
      && (task.CheckTrace? || task.cycle == 0 ==> s'.timers == s.timers.(pending := s.timers.pending - {key}))
      && (task.CheckGraph? && task.cycle != 0 ==>
            exists next: nat ::
              next / TWO32 == now + task.cycle && s'.timers.pending == (s.timers.pending - {key})[next := task])
  {
    var task := s.timers.pending[key];
    TimerKeyParts(now + task.cycle, s.timers.pushed);
    assert TimerKey(now + task.cycle, s.timers.pushed) / TWO32 == now + task.cycle;
    hide TimerKey;
  }

  lemma OverdueByTimes(c: Config, op: TraceOp, now: nat, wait: nat)
    requires var t := op.itrace;
      wait == if t.teTime != 0 && (exists x :: x in t.spans && 0 in {x.csTime, x.crTime, x.srTime, x.ssTime})
              then c.maxOvertime else c.closureOvertime
    ensures Overdue(c, op, now) <==> op.updateTime + wait < now
  {
    if x :| x in op.itrace.spans && 0 in {x.csTime, x.crTime, x.srTime, x.ssTime} {
      var i :| 0 <= i < |op.itrace.spans| && op.itrace.spans[i] == x;
    }
  }

  lemma CloseKeepsOtherTraces(hash: Graph -> nat, s: State, name: string, now: nat)
    requires name in s.traces && Finishes(s.traces[name].itrace)
    ensures CloseTrace(hash, s, name, now).traces == s.traces - {name}
  {
  }

  lemma OfBoth<K(!new)>(s: seq<Stat<K>>, a: seq<Stat<K>>, b: seq<Stat<K>>, key: K, m: Measure)
    ensures Of(InsertAll(InsertAll(s, a), b), key, m) == Of(s, key, m) + Of(a, key, m) + Of(b, key, m)
  {
    InsertAllOf(s, a, key, m);
    InsertAllOf(InsertAll(s, a), b, key, m);
  }

  // ----- whole runs -----

  datatype Event = Push(log: RawLog, now: nat) | Fire(key: nat, now: nat)

  ghost predicate CanHappen(c: Config, hash: Graph -> nat, s: State, e: Event) {
    match e
    case Push(l, now) => PushFree(c, s, l, now)
    case Fire(key, now) =>
      && key in s.timers.pending
      && Due(key) <= now
      && (Closes(c, s, s.timers.pending[key], now) ==> Finishes(s.traces[s.timers.pending[key].name].itrace))
      && RunFree(c, hash, s, key, now)
  }

  ghost function Step(c: Config, hash: Graph -> nat, s: State, e: Event): State
    requires CanHappen(c, hash, s, e)
  {
    match e
    case Push(l, now) => PushLog(c, s, l, now)
    case Fire(key, now) => RunTask(c, hash, s, key, now)
  }

  ghost function StepHistory(c: Config, hash: Graph -> nat, s: State, h: History, e: Event): History
    requires CanHappen(c, hash, s, e)
  {
    match e
    case Push(l, _) => HistoryPush(h, l)
    case Fire(key, now) => HistoryRun(c, s, h, key, now)
  }

  ghost predicate IsRun(c: Config, hash: Graph -> nat, s: State, events: seq<Event>)
    decreases |events|
  {
    events == [] || (CanHappen(c, hash, s, events[0]) && IsRun(c, hash, Step(c, hash, s, events[0]), events[1..]))
  }

  ghost function AfterRun(c: Config, hash: Graph -> nat, s: State, h: History, events: seq<Event>): (State, History)
    requires IsRun(c, hash, s, events)
    decreases |events|
  {
    if events == [] then (s, h)
    else AfterRun(c, hash, Step(c, hash, s, events[0]), StepHistory(c, hash, s, h, events[0]), events[1..])
  }

  lemma EmptyInv(hash: Graph -> nat)
    ensures Inv(hash, EMPTY, NO_HISTORY)
  {
  }

  lemma {:induction false} RunKeepsInv(c: Config, hash: Graph -> nat, s: State, h: History, events: seq<Event>)
    requires Inv(hash, s, h) && c.checkCycle > 0 && IsRun(c, hash, s, events)
    ensures var (s', h') := AfterRun(c, hash, s, h, events); Inv(hash, s', h')
    decreases |events|
  {
    if events != [] {
      match events[0] {
        case Push(l, now) => PushKeepsInv(c, hash, s, h, l, now);
        case Fire(key, now) => TaskKeepsInv(c, hash, s, h, key, now);
      }
      RunKeepsInv(c, hash, Step(c, hash, s, events[0]), StepHistory(c, hash, s, h, events[0]), events[1..]);
    }
  }

  /** Main result, over any run from the start.  Every live trace has exactly one pending check and nothing else
      is ever checked; the lines of each trace id are split in order into its closed lives and its open one,
      so no life is closed twice; and every bucket holds, vertex by vertex and edge by edge, exactly what the
      graphs of the closed lives add up to. */
  lemma RunsLoseNothing(c: Config, hash: Graph -> nat, events: seq<Event>, name: string, id: nat, vertex: string,
                        edge: EdgeKey, m: Measure)
    requires c.checkCycle > 0 && IsRun(c, hash, EMPTY, events)
    ensures var (s, h) := AfterRun(c, hash, EMPTY, NO_HISTORY, events);
      && TasksMatch(s)
      && LivesOf(h.closed, name) + LiveLogs(h, name) == LinesOf(h.pushed, name)
      && (name in s.traces ==>
            s.traces[name].itrace == Assemble(LiveLogs(h, name)) && WellFormed(s.traces[name].itrace))
      && (forall i :: 0 <= i < |h.closed| ==> LifeFinishes(h.closed[i]))
      && Of(Vertexes(s, id), vertex, m) == Of(VertexesOf(hash, h.closed, id), vertex, m)
      && Of(Edges(s, id), edge, m) == Of(EdgesOf(hash, h.closed, id), edge, m)
      && Total(Vertexes(s, id), m) == Total(VertexesOf(hash, h.closed, id), m)
      && Total(Edges(s, id), m) == Total(EdgesOf(hash, h.closed, id), m)
      && BucketKind(s, id) == KindOf(hash, h.closed, id)
  {
    EmptyInv(hash);
    RunKeepsInv(c, hash, EMPTY, NO_HISTORY, events);
    var (s, h) := AfterRun(c, hash, EMPTY, NO_HISTORY, events);
    if name in s.traces { AssembledIsWellFormed(h.live[name]); }
    InsertAllOf([], VertexesOf(hash, h.closed, id), vertex, m);
    InsertAllOf([], EdgesOf(hash, h.closed, id), edge, m);
    InsertAllTotal([], VertexesOf(hash, h.closed, id), m);
    InsertAllTotal([], EdgesOf(hash, h.closed, id), m);
  }

  // ----- a run that loses a task -----

  /** The first line of the n-th of many traces. */
  function NthLine(n: nat): RawLog {
    RawLog(seq(n, i => 'x'), "s", "p", Cs, "", "", "", 0, "", "")
  }

  function NewTraces(n: nat, end: nat, now: nat): seq<Event>
    requires n <= end
    decreases end - n
  {
    if n == end then [] else [Push(NthLine(n), now)] + NewTraces(n + 1, end, now)
  }

  /** n new traces in one second. */
  ghost predicate Filled(c: Config, s: State, n: nat, now: nat) {
    && s.timers.pushed == n
    && (forall k :: k in s.timers.pending ==> SeqNo(k) < n)
    && (n > 0 ==> TimerKey(now + c.firstCheck, 0) in s.timers.pending)
    && (forall t :: t in s.traces ==> |t| < n)
  }

  lemma NewTraceFits(c: Config, s: State, n: nat, now: nat)
    requires Filled(c, s, n, now) && n < TWO32
    ensures PushFree(c, s, NthLine(n), now) && Filled(c, PushLog(c, s, NthLine(n), now), n + 1, now)
  {
    hide UpdateTrace;
    TimerKeyParts(now + c.firstCheck, n);
    assert |NthLine(n).trace| == n;
    hide NthLine;
  }

  lemma {:induction false} ManyTracesFit(c: Config, hash: Graph -> nat, s: State, h: History, n: nat, now: nat)
    requires Filled(c, s, n, now) && n <= TWO32
    ensures IsRun(c, hash, s, NewTraces(n, TWO32, now))
    ensures Filled(c, AfterRun(c, hash, s, h, NewTraces(n, TWO32, now)).0, TWO32, now)
    decreases TWO32 - n
  {
    hide Filled, PushLog, NthLine;
    if n < TWO32 {
      NewTraceFits(c, s, n, now);
      var e := Push(NthLine(n), now);
      ManyTracesFit(c, hash, PushLog(c, s, NthLine(n), now), StepHistory(c, hash, s, h, e), n + 1, now);
      assert NewTraces(n, TWO32, now)[1..] == NewTraces(n + 1, TWO32, now);
    }
  }

  /** The condition is not idle: the first lines of 2^32 traces in one second make a run in which nothing is lost, and
      the line of one more trace in that second overwrites the check of the first. */
  lemma OneTraceTooMany(c: Config, hash: Graph -> nat, now: nat)
    requires c.checkCycle > 0
    ensures var events := NewTraces(0, TWO32, now);
      && IsRun(c, hash, EMPTY, events)
      && var s := AfterRun(c, hash, EMPTY, NO_HISTORY, events).0;
         TasksMatch(s) && !TasksMatch(PushLog(c, s, NthLine(TWO32), now))
  {
    hide NewTraces, IsRun, AfterRun, TasksMatch, PushLog, Inv;
    ManyTracesFit(c, hash, EMPTY, NO_HISTORY, 0, now);
    var events := NewTraces(0, TWO32, now);
    var (s, h) := AfterRun(c, hash, EMPTY, NO_HISTORY, events);
    EmptyInv(hash);
    RunKeepsInv(c, hash, EMPTY, NO_HISTORY, events);
    InvHasTasks(hash, s, h);
    PushKeepsTasksExactly(c, s, NthLine(TWO32), now);
    assert SeqNo(TWO32) == SeqNo(0);
    assert |NthLine(TWO32).trace| == TWO32;
  }

  lemma InvHasTasks(hash: Graph -> nat, s: State, h: History)
    requires Inv(hash, s, h)
    ensures TasksMatch(s)
  {
  }

  // ----- the collector as the program runs it -----

  ghost predicate IsFirst(p: map<nat, Task>, k: nat) {
    k in p && forall j :: j in p ==> k <= j
  }

  class TimerTaskQueue {
    var pending: map<nat, Task>
    var pushed: nat

    function Value(): Timers
      reads this
    {
      Timers(pending, pushed)
    }

    constructor ()
      ensures Value() == Timers(map[], 0)
    {
      pending, pushed := map[], 0;
    }

    method PushTimerTask(task: Task, due: nat)
      modifies this
      ensures Value() == Schedule(old(Value()), task, due)
    {
      pending := pending[TimerKey(due, pushed) := task];
      pushed := pushed + 1;
    }

    /** Takes out the earliest task if its second has come. */
    method TakeDue(now: nat) returns (found: bool, key: nat, task: Task)
      modifies this
      ensures found <==> exists k :: k in old(pending) && Due(k) <= now
      ensures found ==> IsFirst(old(pending), key) && Due(key) <= now && task == old(pending)[key]
      ensures Value() == if found then old(Value()).(pending := old(pending) - {key}) else old(Value())
    {
      found, key, task := false, 0, CheckGraph(0, 0);
      if pending == map[] {
        return;
      }
      key := First();
      forall k | k in pending ensures Due(key) <= Due(k) { DueOrder(key, k); }
      if Due(key) <= now {
        found, task := true, pending[key];
        pending := pending - {key};
      }
    }

    method First() returns (key: nat)
      requires pending != map[]
      ensures IsFirst(pending, key)
    {
      var left := pending.Keys;
      assert exists k :: k in pending;
      key :| key in left;
      left := left - {key};
      while left != {}
        invariant key in pending && left <= pending.Keys
        invariant forall k :: k in pending && k !in left ==> key <= k
        decreases left
      {
        var k :| k in left;
        if k < key { key := k; }
        left := left - {k};
      }
    }
  }

  lemma DueOrder(a: nat, b: nat)
    requires a <= b
    ensures Due(a) <= Due(b)
  {
  }

  class LogAggregation {
    const config: Config
    const hash: Graph -> nat
    const queue: TimerTaskQueue
    var traces: map<string, TraceOp>
    var graphs: map<nat, Bucket>

    function Value(): State
      reads this, queue
    {
      State(traces, graphs, queue.Value())
    }

    ghost predicate Valid()
      reads this, queue
    {
      forall n :: n in traces ==> WellFormed(traces[n].itrace)
    }

    constructor (config: Config, hash: Graph -> nat)
      ensures Valid() && Value() == EMPTY && this.config == config && this.hash == hash && fresh(queue)
    {
      this.config, this.hash := config, hash;
      queue := new TimerTaskQueue();
      traces, graphs := map[], map[];
    }

    method PushRawLog(l: RawLog, now: nat)
      requires Valid()
      modifies this, queue
      ensures Valid() && Value() == PushLog(config, old(Value()), l, now)
    {
      if l.trace in traces {
        var op := traces[l.trace];
        UpdateKeepsWellFormed(l, op.itrace);
        var t := UpdateITrace(l, op.itrace);
        traces := traces[l.trace := op.(itrace := t)];
      } else {
        UpdateKeepsWellFormed(l, EMPTY_TRACE);
        var t := UpdateITrace(l, EMPTY_TRACE);
        queue.PushTimerTask(CheckTrace(l.trace, config.checkCycle), now + config.firstCheck);
        traces := traces[l.trace := TraceOp(now, t)];
      }
    }

    method MergerIGraph(g: Graph, kind: string, b: Bucket) returns (r: Bucket)
      ensures r == Merge(b, g, kind)
    {
      var vertexes := new Table<string>.Holding(b.graph.vertexes);
      var edges := new Table<EdgeKey>.Holding(b.graph.edges);
      vertexes.AddAll(g.vertexes);
      edges.AddAll(g.edges);
      r := Bucket(if b.kind == "" then kind else b.kind, Graph(vertexes.stats, edges.stats));
    }

    method MergeGraph(id: nat, g: Graph, kind: string, now: nat)
      modifies this`graphs, queue
      ensures Value() == AddGraph(old(Value()), id, g, kind, now)
    {
      if id in graphs {
        var b := MergerIGraph(g, kind, graphs[id]);
        graphs := graphs[id := b];
      } else {
        var b := MergerIGraph(g, kind, EmptyBucket());
        graphs := graphs[id := b];
        queue.PushTimerTask(CheckGraph(id, GRAPH_CYCLE), now + GRAPH_FIRST);
      }
    }

    /** The period after which to check again; 0 for never. */
    method CheckAndUpdateITrace(name: string, cycle: nat, now: nat) returns (next: nat)
      requires Valid()
      requires Closes(config, Value(), CheckTrace(name, cycle), now) ==> Finishes(traces[name].itrace)
      modifies this, queue
      ensures Valid()
      ensures Value() == if old(Closes(config, Value(), CheckTrace(name, cycle), now))
                         then old(CloseTrace(hash, Value(), name, now)) else old(Value())
      ensures next == if name in old(traces) && !old(Closes(config, Value(), CheckTrace(name, cycle), now)) then cycle
                      else 0
    {
      if name !in traces {
        return 0;
      }
      var op := traces[name];
      if !Overdue(config, op, now) {
        return cycle;
      }
      var sg, fg := BuildBoth(op.itrace);
      MergeGraph(hash(sg), sg, "server", now);
      MergeGraph(hash(fg), fg, "function", now);
      traces := traces - {name};
      return 0;
    }

    /** One turn of the timer thread: the earliest task, if its second has come, and its next period. */
    method RunTimer(now: nat) returns (ran: bool, key: nat)
      requires Valid()
      requires forall k :: IsFirst(queue.pending, k) && Closes(config, Value(), queue.pending[k], now)
                           ==> Finishes(traces[queue.pending[k].name].itrace)
      modifies this, queue
      ensures Valid()
      ensures ran <==> exists k :: k in old(queue.pending) && Due(k) <= now
      ensures !ran ==> Value() == old(Value())
      ensures ran ==> old(IsFirst(queue.pending, key)) && Due(key) <= now
      ensures ran ==> Value() == old(RunTask(config, hash, Value(), key, now))
    {
      var task: Task;
      ran, key, task := queue.TakeDue(now);
      if ran {
        match task {
          case CheckTrace(name, cycle) =>
            var next := CheckAndUpdateITrace(name, cycle, now);
            if next != 0 {
              queue.PushTimerTask(CheckTrace(name, next), now + next);
            }
          case CheckGraph(id, cycle) =>
            if cycle != 0 {
              queue.PushTimerTask(task, now + cycle);
            }
        }
      }
    }
  }

  method UpdateITrace(l: RawLog, t: Trace) returns (r: Trace)
    ensures r == UpdateTrace(l, t)
  {
    var b := new TraceBuilder.Of(t);
    b.Update(l);
    r := Trace(b.trace, b.tSpan, b.tMaster, b.tsTime, b.teTime, b.spans);
  }

  method BuildBoth(t: Trace) returns (sg: Graph, fg: Graph)
    requires WellFormed(t) && Finishes(t)
    ensures sg == GraphOf(Server, t) && fg == GraphOf(Function, t)
  {
    var b := new GraphBuilder();
    var ok := b.Build(Server, t);
    sg := Graph(b.vertexes.stats, b.edges.stats);
    b := new GraphBuilder();
    ok := b.Build(Function, t);
    fg := Graph(b.vertexes.stats, b.edges.stats);
  }
}
