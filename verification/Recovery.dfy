/** The whole pipeline, from bytes of the log file to traces and graphs, and its restart from a snapshot. */
module Recovery {
  import opened TraceData
  import opened CallStats
  import opened LogLines
  import opened TraceGraph
  import opened TraceAssembly
  import R = LogReader
  import A = Aggregation

  /** Reader and collector together, with the history of the lines pushed so far. */
  datatype Pipeline = Pipeline(reader: R.Reader, state: A.State, history: A.History)

  const START := Pipeline(R.FRESH, A.EMPTY, A.NO_HISTORY)

  datatype Event = ReadFile(input: R.Input) | Fire(key: nat, now: nat)

  function PushAll(c: A.Config, s: A.State, logs: seq<RawLog>, now: nat): A.State
    decreases |logs|
  {
    if logs == [] then s else PushAll(c, A.PushLog(c, s, logs[0], now), logs[1..], now)
  }

  function HistoryPushAll(h: A.History, logs: seq<RawLog>): A.History
    decreases |logs|
  {
    if logs == [] then h else HistoryPushAll(A.HistoryPush(h, logs[0]), logs[1..])
  }

  /** Every line that opens a trace finds the key of its check free. */
  predicate PushesFree(c: A.Config, s: A.State, logs: seq<RawLog>, now: nat)
    decreases |logs|
  {
    logs == [] || (A.PushFree(c, s, logs[0], now) && PushesFree(c, A.PushLog(c, s, logs[0], now), logs[1..], now))
  }

  ghost predicate CanHappen(c: A.Config, hash: Graph -> nat, p: Pipeline, e: Event, before: string) {
    match e
    case ReadFile(i) =>
      && before <= i.data && i.now >= 0 && R.Possible(p.reader, i)
      && AllReadable(R.Delivered(p.reader, i))
      && PushesFree(c, p.state, ParseAll(R.Delivered(p.reader, i)), i.now)
    case Fire(key, now) => A.CanHappen(c, hash, p.state, A.Fire(key, now))
  }

  ghost function Step(c: A.Config, hash: Graph -> nat, p: Pipeline, e: Event, before: string): Pipeline
    requires CanHappen(c, hash, p, e, before)
  {
    match e
    case ReadFile(i) =>
      var logs := ParseAll(R.Delivered(p.reader, i));
      Pipeline(R.Read(p.reader, i), PushAll(c, p.state, logs, i.now), HistoryPushAll(p.history, logs))
    case Fire(key, now) =>
      p.(state := A.RunTask(c, hash, p.state, key, now), history := A.HistoryRun(c, p.state, p.history, key, now))
  }

  function DataAfter(e: Event, before: string): string {
    if e.ReadFile? then e.input.data else before
  }

  ghost predicate IsRun(c: A.Config, hash: Graph -> nat, p: Pipeline, events: seq<Event>, before: string)
    decreases |events|
  {
    events == [] ||
    (CanHappen(c, hash, p, events[0], before)
     && IsRun(c, hash, Step(c, hash, p, events[0], before), events[1..], DataAfter(events[0], before)))
  }

  ghost function After(c: A.Config, hash: Graph -> nat, p: Pipeline, events: seq<Event>, before: string)
    : (Pipeline, string)
    requires IsRun(c, hash, p, events, before)
    decreases |events|
  {
    if events == [] then (p, before)
    else After(c, hash, Step(c, hash, p, events[0], before), events[1..], DataAfter(events[0], before))
  }

  /** The collector has been given exactly the complete lines of the bytes read so far, each once and in order,
      and everything it keeps is accounted for by them. */
  ghost predicate UpToDate(hash: Graph -> nat, p: Pipeline, data: string) {
    && R.InStep(p.reader, data)
    && A.Inv(hash, p.state, p.history)
    && AllReadable(Lines(data[..p.reader.seek]))
    && p.history.pushed == ParseAll(Lines(data[..p.reader.seek]))
  }

  lemma {:induction false} PushAllKeeps(c: A.Config, hash: Graph -> nat, s: A.State, h: A.History, logs: seq<RawLog>,
                                        now: nat)
    requires A.Inv(hash, s, h) && c.checkCycle > 0 && PushesFree(c, s, logs, now)
    ensures A.Inv(hash, PushAll(c, s, logs, now), HistoryPushAll(h, logs))
    ensures HistoryPushAll(h, logs).pushed == h.pushed + logs
    ensures HistoryPushAll(h, logs).closed == h.closed
    decreases |logs|
  {
    hide A.Inv, A.PushLog;
    if logs != [] {
      A.PushKeepsInv(c, hash, s, h, logs[0], now);
      PushAllKeeps(c, hash, A.PushLog(c, s, logs[0], now), A.HistoryPush(h, logs[0]), logs[1..], now);
      assert h.pushed + [logs[0]] + logs[1..] == h.pushed + logs;
    }
  }

  lemma ReadKeepsUpToDate(c: A.Config, hash: Graph -> nat, p: Pipeline, i: R.Input, before: string)
    requires UpToDate(hash, p, before) && c.checkCycle > 0 && CanHappen(c, hash, p, ReadFile(i), before)
    ensures UpToDate(hash, Step(c, hash, p, ReadFile(i), before), i.data)
  {
    R.InStepStays(p.reader, before, i.data);
    R.ReadKeepsStep(p.reader, i);
    var lines := R.Delivered(p.reader, i);
    PushAllKeeps(c, hash, p.state, p.history, ParseAll(lines), i.now);
    JoinParsed(Lines(before[..p.reader.seek]), lines);
  }

  lemma JoinParsed(a: seq<string>, b: seq<string>)
    requires AllReadable(a) && AllReadable(b)
    ensures AllReadable(a + b) && ParseAll(a + b) == ParseAll(a) + ParseAll(b)
  {
  }

  lemma {:induction false} RunKeepsUpToDate(c: A.Config, hash: Graph -> nat, p: Pipeline, events: seq<Event>,
                                            before: string)
    requires UpToDate(hash, p, before) && c.checkCycle > 0 && IsRun(c, hash, p, events, before)
    ensures var (p', data) := After(c, hash, p, events, before); UpToDate(hash, p', data) && before <= data
    decreases |events|
  {
    if events != [] {
      var e := events[0];
      match e {
        case ReadFile(i) => ReadKeepsUpToDate(c, hash, p, i, before);
        case Fire(key, now) => A.TaskKeepsInv(c, hash, p.state, p.history, key, now);
          assert A.HistoryRun(c, p.state, p.history, key, now).pushed == p.history.pushed;
      }
      RunKeepsUpToDate(c, hash, Step(c, hash, p, e, before), events[1..], DataAfter(e, before));
    }
  }

  // ----- snapshots -----

  datatype Snapshot = Snapshot(fileName: string, seek: nat, traces: map<string, Trace>, graphs: map<nat, A.Bucket>)

  function Dump(file: string, r: R.Reader, s: A.State): Snapshot
    requires |r.pending| <= r.seek
  {
    Snapshot(file, r.seek - |r.pending|, map n | n in s.traces :: s.traces[n].itrace, s.graphs)
  }

  function RestoredReader(r: R.Reader, file: string, snap: Snapshot): R.Reader {
    if snap.fileName != file then r else r.(seek := snap.seek, pending := "")
  }

  /** The collector after a restore: the saved traces, all stamped with the time of the restore, the saved
      graphs, and one task for each of them. */
  ghost predicate Restored(snap: Snapshot, s: A.State, now: nat) {
    && s.traces == (map n | n in snap.traces :: A.TraceOp(now, snap.traces[n]))
    && s.graphs == snap.graphs
    && A.TasksMatch(s)
  }

  /** A new process that starts from the snapshot of p. */
  ghost predicate Restarted(file: string, p: Pipeline, p': Pipeline, now: nat) {
    && |p.reader.pending| <= p.reader.seek
    && p'.reader == RestoredReader(R.FRESH, file, Dump(file, p.reader, p.state))
    && Restored(Dump(file, p.reader, p.state), p'.state, now)
    && p'.history == p.history
  }

  lemma RestartKeepsUpToDate(hash: Graph -> nat, file: string, p: Pipeline, p': Pipeline, data: string, now: nat)
    requires UpToDate(hash, p, data) && Restarted(file, p, p', now)
    ensures UpToDate(hash, p', data)
  {
    hide A.Inv;
    R.IdleClose(data, p.reader.seek);
    RestoreKeepsInv(hash, file, p, p', now);
  }

  lemma RestoreKeepsInv(hash: Graph -> nat, file: string, p: Pipeline, p': Pipeline, now: nat)
    requires A.Inv(hash, p.state, p.history) && Restarted(file, p, p', now)
    ensures A.Inv(hash, p'.state, p'.history)
  {
    hide Assemble, A.TasksMatch, A.LinesKept, A.GraphsKept;
    var s, s' := p.state, p'.state;
    A.SameGraphs(hash, s, p.history, s', p.history);
  }

  /** Main result.  A process runs, saves a snapshot and runs on; whatever it does after the snapshot is lost in a
      crash.  A new process restores the snapshot and runs until it has read data[..seek].  Then every
      complete line of data[..seek] has been applied exactly once, and the live traces and the graph buckets
      are exactly those that the applied lines and the closed lives account for. */
  lemma CrashRecovery(c: A.Config, hash: Graph -> nat, file: string,
                      saved: seq<Event>, p': Pipeline, now: nat,
                      grown: string, resumed: seq<Event>)
    requires c.checkCycle > 0 && IsRun(c, hash, START, saved, "")
    requires var (p, data) := After(c, hash, START, saved, ""); Restarted(file, p, p', now) && data <= grown
    requires IsRun(c, hash, p', resumed, grown)
    ensures var (q, data) := After(c, hash, p', resumed, grown);
      && UpToDate(hash, q, data)
      && q.history.pushed == ParseAll(Lines(data[..q.reader.seek]))
      && A.Inv(hash, q.state, q.history)
  {
    A.EmptyInv(hash);
    assert Lines("") == [] && ParseAll([]) == [];
    assert UpToDate(hash, START, "") by { assert ""[..0] == ""; }
    RunKeepsUpToDate(c, hash, START, saved, "");
    var (p, data) := After(c, hash, START, saved, "");
    RestartKeepsUpToDate(hash, file, p, p', data, now);
    R.InStepStays(p'.reader, data, grown);
    RunKeepsUpToDate(c, hash, p', resumed, grown);
  }

  // ----- what the restarted process shares with one that never stopped -----

  lemma LiveIsWhatIsLeft(s: A.State, h: A.History, n: string)
    requires A.LinesKept(h) && A.LivesMatch(s.traces, h.live)
    ensures |A.LivesOf(h.closed, n)| <= |A.LinesOf(h.pushed, n)|
    ensures A.LiveLogs(h, n) == A.LinesOf(h.pushed, n)[|A.LivesOf(h.closed, n)|..]
    ensures n in s.traces <==> A.LiveLogs(h, n) != []
  {
    hide Assemble, A.LinesOf, A.LivesOf;
    assert A.LivesOf(h.closed, n) + A.LiveLogs(h, n) == A.LinesOf(h.pushed, n);
  }

  /** What one closed life contributes to: a vertex or an edge of a bucket, or the lines of a trace id. */
  datatype Place = AtVertex(id: nat, vertex: string) | AtEdge(id: nat, edge: EdgeKey) | AtTrace(name: string)

  ghost function Share(hash: Graph -> nat, life: A.Life, at: Place, m: Measure): int {
    var t := Assemble(life.logs);
    if at.AtTrace? then if life.name == at.name then |life.logs| else 0
    else if !A.LifeFinishes(life) then 0
    else
      var sg, fg := GraphOf(Server, t), GraphOf(Function, t);
      if at.AtVertex? then Of(A.Only(hash(sg) == at.id, sg.vertexes), at.vertex, m)
                         + Of(A.Only(hash(fg) == at.id, fg.vertexes), at.vertex, m)
      else Of(A.Only(hash(sg) == at.id, sg.edges), at.edge, m) + Of(A.Only(hash(fg) == at.id, fg.edges), at.edge, m)
  }

  ghost function Shares(hash: Graph -> nat, lives: seq<A.Life>, at: Place, m: Measure): int {
    if lives == [] then 0
    else Shares(hash, lives[..|lives| - 1], at, m) + Share(hash, lives[|lives| - 1], at, m)
  }

  lemma {:induction false} SharesSplit(hash: Graph -> nat, a: seq<A.Life>, b: seq<A.Life>, at: Place, m: Measure)
    ensures Shares(hash, a + b, at, m) == Shares(hash, a, at, m) + Shares(hash, b, at, m)
  {
    hide Share;
    if b == [] {
      assert a + b == a;
    } else {
      var init := b[..|b| - 1];
      SharesSplit(hash, a, init, at, m);
      assert (a + b)[..|a + b| - 1] == a + init;
    }
  }

  lemma WithoutOne<T>(init: seq<T>, last: T, b: seq<T>) returns (left: seq<T>, right: seq<T>)
    requires multiset(init + [last]) == multiset(b)
    ensures b == left + [last] + right && multiset(init) == multiset(left + right) && |init| == |left + right|
  {
    assert last in multiset(b);
    var j :| 0 <= j < |b| && b[j] == last;
    left, right := b[..j], b[j + 1..];
    assert b == left + [last] + right;
    assert multiset(b) == multiset(left + right) + multiset{last};
    assert multiset(init + [last]) == multiset(init) + multiset{last};
    assert multiset(init) == multiset(b) - multiset{last} == multiset(left + right);
    assert |multiset(init)| == |init| && |multiset(left + right)| == |left + right|;
  }

  /** The sum does not depend on the order in which the lives were closed. */
  lemma {:induction false} SharesOfSameLives(hash: Graph -> nat, a: seq<A.Life>, b: seq<A.Life>, at: Place, m: Measure)
    requires multiset(a) == multiset(b)
    ensures Shares(hash, a, at, m) == Shares(hash, b, at, m)
  {
    hide Share;
    assert |multiset(a)| == |multiset(b)| == |b|;
    if a != [] {
      var init, last := a[..|a| - 1], a[|a| - 1];
      assert a == init + [last];
      var left, right := WithoutOne(init, last, b);
      SharesOfSameLives(hash, init, left + right, at, m);
      SharesSplit(hash, left, right, at, m);
      SharesSplit(hash, left + [last], right, at, m);
      SharesSplit(hash, left, [last], at, m);
      SharesSplit(hash, init, [last], at, m);
    }
  }

  lemma {:induction false} VertexesAreShares(hash: Graph -> nat, lives: seq<A.Life>, id: nat, key: string, m: Measure)
    requires forall i :: 0 <= i < |lives| ==> A.LifeFinishes(lives[i])
    ensures Of(A.VertexesOf(hash, lives, id), key, m) == Shares(hash, lives, AtVertex(id, key), m)
  {
    if lives != [] {
      var init, last := lives[..|lives| - 1], lives[|lives| - 1];
      VertexesAreShares(hash, init, id, key, m);
      assert A.LifeFinishes(last);
      var t := Assemble(last.logs);
      var sg, fg := GraphOf(Server, t), GraphOf(Function, t);
      var own, other := A.Only(hash(sg) == id, sg.vertexes), A.Only(hash(fg) == id, fg.vertexes);
      OfAppend(A.VertexesOf(hash, init, id) + own, other, key, m);
      OfAppend(A.VertexesOf(hash, init, id), own, key, m);
    }
  }

  lemma {:induction false} EdgesAreShares(hash: Graph -> nat, lives: seq<A.Life>, id: nat, key: EdgeKey, m: Measure)
    requires forall i :: 0 <= i < |lives| ==> A.LifeFinishes(lives[i])
    ensures Of(A.EdgesOf(hash, lives, id), key, m) == Shares(hash, lives, AtEdge(id, key), m)
  {
    if lives != [] {
      var init, last := lives[..|lives| - 1], lives[|lives| - 1];
      EdgesAreShares(hash, init, id, key, m);
      assert A.LifeFinishes(last);
      var t := Assemble(last.logs);
      var sg, fg := GraphOf(Server, t), GraphOf(Function, t);
      var own, other := A.Only(hash(sg) == id, sg.edges), A.Only(hash(fg) == id, fg.edges);
      OfAppend(A.EdgesOf(hash, init, id) + own, other, key, m);
      OfAppend(A.EdgesOf(hash, init, id), own, key, m);
    }
  }

  lemma {:induction false} LinesAreShares(hash: Graph -> nat, lives: seq<A.Life>, n: string, m: Measure)
    ensures |A.LivesOf(lives, n)| == Shares(hash, lives, AtTrace(n), m)
  {
    if lives != [] { LinesAreShares(hash, lives[..|lives| - 1], n, m); }
  }

  /** Two processes that have read to the same position of the same file, one of them restarted on the way, and
      that have closed the same lives in whatever order, hold the same traces and the same statistics under every key;
      if the order is the same, also the same graphs in the same order and of the same kind. */
  lemma RestartChangesNothing(hash: Graph -> nat, p: Pipeline, q: Pipeline, data: string,
                              id: nat, vertex: string, edge: EdgeKey, m: Measure)
    requires UpToDate(hash, p, data) && UpToDate(hash, q, data) && p.reader.seek == q.reader.seek
    requires multiset(p.history.closed) == multiset(q.history.closed)
    ensures p.state.traces.Keys == q.state.traces.Keys
    ensures forall n :: n in p.state.traces ==> p.state.traces[n].itrace == q.state.traces[n].itrace
    ensures Of(A.Vertexes(p.state, id), vertex, m) == Of(A.Vertexes(q.state, id), vertex, m)
    ensures Of(A.Edges(p.state, id), edge, m) == Of(A.Edges(q.state, id), edge, m)
    ensures p.history.closed == q.history.closed ==>
      && A.Vertexes(p.state, id) == A.Vertexes(q.state, id) && A.Edges(p.state, id) == A.Edges(q.state, id)
      && A.BucketKind(p.state, id) == A.BucketKind(q.state, id)
  {
    hide A.LinesKept, A.LivesMatch, A.GraphsKept, A.TasksMatch, A.Vertexes, A.Edges, A.BucketKind;
    forall n ensures n in p.state.traces <==> n in q.state.traces
      ensures n in p.state.traces ==> p.state.traces[n].itrace == q.state.traces[n].itrace
    {
      SameTrace(hash, p.state, p.history, q.state, q.history, n);
    }
    BucketIsShares(hash, p.state, p.history, id, vertex, edge, m);
    BucketIsShares(hash, q.state, q.history, id, vertex, edge, m);
    SharesOfSameLives(hash, p.history.closed, q.history.closed, AtVertex(id, vertex), m);
    SharesOfSameLives(hash, p.history.closed, q.history.closed, AtEdge(id, edge), m);
    if p.history.closed == q.history.closed { SameBucket(hash, p.state, p.history, q.state, q.history, id); }
  }

  lemma SameTrace(hash: Graph -> nat, s: A.State, h: A.History, s': A.State, h': A.History, n: string)
    requires A.LinesKept(h) && A.LivesMatch(s.traces, h.live) && A.LinesKept(h') && A.LivesMatch(s'.traces, h'.live)
    requires h.pushed == h'.pushed && multiset(h.closed) == multiset(h'.closed)
    ensures n in s.traces <==> n in s'.traces
    ensures n in s.traces ==> s.traces[n].itrace == s'.traces[n].itrace
  {
    hide Assemble, A.LinesKept, A.LinesOf, A.LivesOf, Shares;
    LiveIsWhatIsLeft(s, h, n);
    LiveIsWhatIsLeft(s', h', n);
    LinesAreShares(hash, h.closed, n, Calls);
    LinesAreShares(hash, h'.closed, n, Calls);
    SharesOfSameLives(hash, h.closed, h'.closed, AtTrace(n), Calls);
  }

  lemma BucketIsShares(hash: Graph -> nat, s: A.State, h: A.History, id: nat, vertex: string, edge: EdgeKey, m: Measure)
    requires A.GraphsKept(hash, s, h)
    ensures Of(A.Vertexes(s, id), vertex, m) == Shares(hash, h.closed, AtVertex(id, vertex), m)
    ensures Of(A.Edges(s, id), edge, m) == Shares(hash, h.closed, AtEdge(id, edge), m)
  {
    hide A.Vertexes, A.Edges, A.VertexesOf, A.EdgesOf, A.LifeFinishes, Shares, InsertAll;
    InsertAllOf([], A.VertexesOf(hash, h.closed, id), vertex, m);
    InsertAllOf([], A.EdgesOf(hash, h.closed, id), edge, m);
    VertexesAreShares(hash, h.closed, id, vertex, m);
    EdgesAreShares(hash, h.closed, id, edge, m);
  }

  lemma SameBucket(hash: Graph -> nat, s: A.State, h: A.History, s': A.State, h': A.History, id: nat)
    requires A.GraphsKept(hash, s, h) && A.GraphsKept(hash, s', h') && h.closed == h'.closed
    ensures A.Vertexes(s, id) == A.Vertexes(s', id) && A.Edges(s, id) == A.Edges(s', id)
    ensures A.BucketKind(s, id) == A.BucketKind(s', id)
  {
    hide A.Vertexes, A.Edges, A.BucketKind, A.VertexesOf, A.EdgesOf, A.KindOf, A.LifeFinishes;
  }

  /** A restore does not keep the times of the traces, so it can put a closing off but never bring it forward: the
      restored trace is overdue if and only if it would be overdue had it begun at the restore. `wait` is how long the
      trace is kept, as in `CheckClosesExactly`. */
  lemma RestoreDelaysClosing(c: A.Config, hash: Graph -> nat, file: string, p: Pipeline, p': Pipeline, restore: nat,
                             n: string, now: nat, wait: nat)
    requires Restarted(file, p, p', restore) && n in p.state.traces && p.state.traces[n].updateTime <= restore
    requires var t := p.state.traces[n].itrace;
      wait == if t.teTime != 0 && (exists x :: x in t.spans && 0 in {x.csTime, x.crTime, x.srTime, x.ssTime})
              then c.maxOvertime else c.closureOvertime
    ensures n in p'.state.traces && p'.state.traces[n].itrace == p.state.traces[n].itrace
    ensures A.Overdue(c, p'.state.traces[n], now) <==> restore + wait < now
    ensures A.Overdue(c, p.state.traces[n], now) <==> p.state.traces[n].updateTime + wait < now
    ensures A.Overdue(c, p'.state.traces[n], now) ==> A.Overdue(c, p.state.traces[n], now)
    ensures (A.Overdue(c, p'.state.traces[n], now) <==> A.Overdue(c, p.state.traces[n], now)) <==>
            now <= p.state.traces[n].updateTime + wait || restore + wait < now
  {
    A.OverdueByTimes(c, p.state.traces[n], now, wait);
    A.OverdueByTimes(c, p'.state.traces[n], now, wait);
  }

  // ----- as the program runs it -----

  method CreateSnapshot(file: string, reader: R.FileReader, collector: A.LogAggregation) returns (snap: Snapshot)
    requires reader.Valid()
    ensures snap == Dump(file, reader.State(), collector.Value())
  {
    snap := Snapshot(file, reader.readSeek - reader.inputPos,
                     map n | n in collector.traces :: collector.traces[n].itrace, collector.graphs);
  }

  /** Into a new reader and a new collector, whose timers are set only later: the restored checks run with the default
      period. A snapshot of another file is ignored. */
  method RestoreSnapshot(file: string, snap: Snapshot, reader: R.FileReader, collector: A.LogAggregation, now: nat)
    requires reader.Valid() && reader as object != collector && reader as object != collector.queue
    requires collector.Value() == A.EMPTY
    requires |snap.traces| + |snap.graphs| <= A.TWO32
    modifies reader, collector, collector.queue
    ensures reader.Valid() && reader.State() == RestoredReader(old(reader.State()), file, snap)
    ensures snap.fileName != file ==> collector.Value() == A.EMPTY
    ensures snap.fileName == file ==> Restored(snap, collector.Value(), now)
    ensures forall k :: k in collector.queue.pending && collector.queue.pending[k].CheckTrace? ==>
      collector.queue.pending[k].cycle == A.DEFAULTS.checkCycle
  {
    if snap.fileName != file {
      return;
    }
    reader.readSeek, reader.inputPos := snap.seek, 0;
    collector.traces := map n | n in snap.traces :: A.TraceOp(now, snap.traces[n]);
    collector.graphs := snap.graphs;
    ScheduleChecks(collector, snap.traces.Keys, now);
    ScheduleGraphs(collector, snap.graphs.Keys, now, set n | n in snap.traces :: A.OfTrace(n));
    assert A.Subjects(collector.Value())
        == (set n | n in snap.traces :: A.OfTrace(n)) + (set id | id in snap.graphs :: A.OfGraph(id));
  }

  /** A queue that has scheduled n tasks, all pending checks with the default period. */
  ghost predicate Young(q: A.TimerTaskQueue, n: int)
    reads q
  {
    && q.pushed == n && (forall k :: k in q.pending ==> A.SeqNo(k) < n)
    && forall k :: k in q.pending && q.pending[k].CheckTrace? ==> q.pending[k].cycle == A.DEFAULTS.checkCycle
  }

  method ScheduleChecks(collector: A.LogAggregation, names: set<string>, now: nat)
    requires collector.queue.Value() == A.Timers(map[], 0)
    requires |names| <= A.TWO32
    modifies collector.queue
    ensures A.OnePerSubject(collector.queue.pending, set n | n in names :: A.OfTrace(n))
    ensures Young(collector.queue, |names|)
  {
    var left := names;
    ghost var done: set<A.Subject> := {};
    while left != {}
      invariant left <= names && done == set n | n in names && n !in left :: A.OfTrace(n)
      invariant A.OnePerSubject(collector.queue.pending, done) && Young(collector.queue, |names| - |left|)
      decreases left
    {
      var n :| n in left;
      Reschedule(collector, A.CheckTrace(n, A.DEFAULTS.checkCycle), now + A.DEFAULTS.checkCycle, done);
      left := left - {n};
      done := done + {A.OfTrace(n)};
    }
    assert done == set n | n in names :: A.OfTrace(n);
  }

  method ScheduleGraphs(collector: A.LogAggregation, ids: set<nat>, now: nat, ghost checks: set<A.Subject>)
    requires forall x :: x in checks ==> x.OfTrace?
    requires A.OnePerSubject(collector.queue.pending, checks) && Young(collector.queue, collector.queue.pushed)
    requires collector.queue.pushed + |ids| <= A.TWO32
    modifies collector.queue
    ensures A.OnePerSubject(collector.queue.pending, checks + (set id | id in ids :: A.OfGraph(id)))
    ensures Young(collector.queue, collector.queue.pushed)
  {
    var left := ids;
    ghost var done := checks;
    while left != {}
      invariant left <= ids && done == checks + (set id | id in ids && id !in left :: A.OfGraph(id))
      invariant A.OnePerSubject(collector.queue.pending, done)
      invariant Young(collector.queue, old(collector.queue.pushed) + |ids| - |left|)
      decreases left
    {
      var id :| id in left;
      Reschedule(collector, A.CheckGraph(id, A.GRAPH_CYCLE), now + A.GRAPH_FIRST, done);
      left := left - {id};
      done := done + {A.OfGraph(id)};
    }
    assert done == checks + (set id | id in ids :: A.OfGraph(id));
  }

  method Reschedule(collector: A.LogAggregation, task: A.Task, due: nat, ghost done: set<A.Subject>)
    requires A.OnePerSubject(collector.queue.pending, done) && A.About(task) !in done && task.cycle > 0
    requires Young(collector.queue, collector.queue.pushed) && collector.queue.pushed < A.TWO32
    requires task.CheckTrace? ==> task.cycle == A.DEFAULTS.checkCycle
    modifies collector.queue
    ensures A.OnePerSubject(collector.queue.pending, done + {A.About(task)})
    ensures Young(collector.queue, old(collector.queue.pushed) + 1)
  {
    var t := collector.queue.Value();
    A.TimerKeyParts(due, t.pushed);
    A.AddTask(t.pending, done, A.TimerKey(due, t.pushed), task);
    collector.queue.PushTimerTask(task, due);
  }

  /** One turn of the watcher's inner loop: read, then push every line read. */
  method ReadAndPush(reader: R.FileReader, collector: A.LogAggregation, i: R.Input) returns (more: bool)
    requires reader.Valid() && collector.Valid() && i.now >= 0
    requires reader as object != collector && reader as object != collector.queue
    requires R.Possible(reader.State(), i) && AllReadable(R.Delivered(reader.State(), i))
    modifies reader, reader.buff, reader.line, collector, collector.queue
    ensures reader.Valid() && collector.Valid()
    ensures reader.State() == R.Read(old(reader.State()), i)
    ensures collector.Value() == PushAll(collector.config, old(collector.Value()),
                                         old(ParseAll(R.Delivered(reader.State(), i))), i.now)
    ensures more <==> old(R.Delivered(reader.State(), i)) != []
  {
    reader.ReadFile(i);
    var logs := reader.v;
    more := logs != [];
    ghost var target := PushAll(collector.config, collector.Value(), logs, i.now);
    assert logs[0..] == logs;
    for k := 0 to |logs|
      invariant reader.Valid() && collector.Valid()
      invariant reader.State() == R.Read(old(reader.State()), i)
      invariant PushAll(collector.config, collector.Value(), logs[k..], i.now) == target
    {
      assert logs[k..][1..] == logs[k + 1..];
      collector.PushRawLog(logs[k], i.now);
    }
  }
}
