/** How a node patches its servers: a request is accepted, queued, taken by one of several worker threads and
    executed, while the admin registry polls for its outcome and other commands may touch the same server. */
module PatchProtocol {
  import opened Basics

  datatype State = Inactive | Activating | Active | Deactivating | Destroying | Destroyed
                 | Loading | Patching | BatchPatching | AddFilesing

  /** The states whose name ends in "ing": a command is at work on the server. */
  predicate Busy(s: State) {
    s !in {Inactive, Active, Destroyed}
  }

  /** What has become of an accepted patch; `back` is the state its command restores at the end, `ret` its outcome. */
  datatype Phase = Accepted | Queued | Taken | Running(back: State) | Judged(back: State, ret: int)
                 | Finished(back: State, ret: int) | Over(ret: int) | Refused

  /** One accepted patch, with the state the server was found in. */
  datatype Job = Job(found: State, phase: Phase)

  /** A server: its state, the state saved on acceptance, the progress and result of its patches, the states that
      commands at work on it will restore, and every patch accepted so far. */
  datatype Server = Server(state: State, last: State, percent: int, ok: bool, holds: seq<Option<State>>, jobs: seq<Job>)

  // ----- steps on one server -----

  /** Progress is capped below 100 until the patch is finished. */
  function Capped(percent: int): int {
    if percent > 99 then 99 else percent
  }

  predicate Accepts(v: Server, valid: bool) {
    (!Busy(v.state) || v.state == Activating) && valid
  }

  /** A patch request; `valid` says that it names a checksum and fits the operating system. */
  function Accept(v: Server, valid: bool): Server {
    if Accepts(v, valid)
    then v.(last := v.state, state := BatchPatching, percent := 0, jobs := v.jobs + [Job(v.state, Accepted)])
    else v
  }

  function Move(v: Server, k: nat, phase: Phase): Server
    requires k < |v.jobs|
  {
    v.(jobs := v.jobs[k := v.jobs[k].(phase := phase)])
  }

  /** What the worker executing a patch does to the server. */
  datatype Work = Begin | Progress(percent: int) | Judge(ret: int) | Finish | Release

  function Do(v: Server, k: nat, work: Work): Server
    requires k < |v.jobs|
  {
    match (v.jobs[k].phase, work)
    case (Taken, Begin) => Move(v, k, Running(v.last)).(state := BatchPatching, percent := 0, ok := true)
    case (Running(_), Progress(percent)) => v.(percent := Capped(percent))
    case (Running(back), Judge(ret)) => Move(v, k, Judged(back, ret)).(ok := ret == 0)
    case (Judged(back, ret), Finish) => Move(v, k, Finished(back, ret)).(percent := 100)
    case (Finished(back, ret), Release) => Move(v, k, Over(ret)).(state := back)
    case (_, _) => v
  }

  /** What else happens to a server: heartbeats of the process, start (`found` says that there is something to
      execute), stop (`idle` is the time since the last progress of a patch), the check that finds the process dead, the
      unconditional write that ends a failed start or a stop (or that check, when it acts on an outdated state), and
      the commands that hold a state and restore the one before. */
  datatype Event = Heartbeat | KeepActivating | Start(found: bool) | WentInactive | Stop(idle: nat)
                 | Dead(startTimedOut: bool) | Load | AddFile | Restore(h: nat)

  predicate MayStop(v: Server, idle: nat) {
    && v.state !in {Inactive, Destroying}
    && (v.state == Patching ==> idle >= 10)
    && (v.state == BatchPatching ==> idle >= 600)
  }

  function Happen(v: Server, e: Event): Server {
    match e
    case Heartbeat => if !Busy(v.state) || v.state == Activating then v.(state := Active) else v
    case KeepActivating => v.(state := Activating)
    case Start(found) =>
      if v.state != Inactive then v
      else if found then v.(percent := 100, state := Activating) else v.(percent := 100)
    case WentInactive => v.(state := Inactive)
    case Stop(idle) => if MayStop(v, idle) then v.(state := Deactivating) else v
    case Dead(startTimedOut) =>
      if v.state in {Inactive, Patching, BatchPatching} || (v.state == Activating && !startTimedOut) then v
      else v.(state := Inactive)
    case Load =>
      if Busy(v.state) && v.state != Activating then v else v.(state := Loading, holds := v.holds + [Some(v.state)])
    case AddFile => v.(state := AddFilesing, holds := v.holds + [Some(v.state)])
    case Restore(h) =>
      if h < |v.holds| && v.holds[h].Some? then v.(state := v.holds[h].value, holds := v.holds[h := None]) else v
  }

  // ----- steps of the node -----

  datatype Id = Id(app: string, name: string)

  /** What the set of patches in waiting is keyed by. */
  function Key(id: Id): string {
    id.app + id.name
  }

  /** The k-th patch of a server, waiting in the queue. */
  datatype Item = Item(id: Id, k: nat)

  datatype Node = Node(servers: map<Id, Server>, queue: seq<Item>, patching: set<string>)

  datatype Step = Accepting(id: Id, valid: bool) | Push(id: Id, k: nat) | Pop
                | Working(id: Id, k: nat, work: Work) | Happening(id: Id, event: Event)

  predicate HasJob(n: Node, id: Id, k: nat) {
    id in n.servers && k < |n.servers[id].jobs|
  }

  function PhaseOf(n: Node, id: Id, k: nat): Phase
    requires HasJob(n, id, k)
  {
    n.servers[id].jobs[k].phase
  }

  function Pushed(n: Node, id: Id, k: nat): Node
    requires HasJob(n, id, k)
  {
    if Key(id) in n.patching then n.(servers := n.servers[id := Move(n.servers[id], k, Refused)])
    else Node(n.servers[id := Move(n.servers[id], k, Queued)], n.queue + [Item(id, k)], n.patching + {Key(id)})
  }

  function Popped(n: Node): Node {
    if n.queue == [] then n
    else
      var Item(id, k) := n.queue[0];
      var left := Node(n.servers, n.queue[1..], n.patching - {Key(id)});
      if HasJob(n, id, k) && PhaseOf(n, id, k).Queued?
      then left.(servers := n.servers[id := Move(n.servers[id], k, Taken)]) else left
  }

  function Next(n: Node, s: Step): Node {
    match s
    case Accepting(id, valid) =>
      if id in n.servers then n.(servers := n.servers[id := Accept(n.servers[id], valid)]) else n
    case Push(id, k) =>
      if HasJob(n, id, k) && PhaseOf(n, id, k).Accepted? then Pushed(n, id, k) else n
    case Pop => Popped(n)
    case Working(id, k, work) =>
      if HasJob(n, id, k) then n.(servers := n.servers[id := Do(n.servers[id], k, work)]) else n
    case Happening(id, event) =>
      if id in n.servers then n.(servers := n.servers[id := Happen(n.servers[id], event)]) else n
  }

  function Run(n: Node, steps: seq<Step>): Node {
    if steps == [] then n else Next(Run(n, steps[..|steps| - 1]), steps[|steps| - 1])
  }

  // ----- the invariant of one server -----

  predicate InProgress(p: Phase) {
    !p.Over? && !p.Refused?
  }

  /** How the server looks while its latest patch is in a phase. */
  predicate Fits(v: Server, j: Job) {
    && (v.state == BatchPatching <==> InProgress(j.phase))
    && (!Busy(j.found) || j.found == Activating)
    && match j.phase
       case Accepted => v.last == j.found && v.percent <= 99
       case Queued => v.last == j.found && v.percent <= 99
       case Taken => v.last == j.found && v.percent <= 99
       case Running(back) => back == j.found && v.percent <= 99 && v.ok
       case Judged(back, ret) => back == j.found && v.percent <= 99 && (v.ok <==> ret == 0)
       case Finished(back, ret) => back == j.found && v.percent == 100 && (v.ok <==> ret == 0)
       case Over(ret) => v.percent == 100 && (v.ok <==> ret == 0)
       case Refused => false
  }

  ghost predicate ServerInv(v: Server) {
    && v.state != Patching
    && (forall i :: 0 <= i < |v.jobs| - 1 ==> v.jobs[i].phase.Over?)
    && (v.jobs == [] ==> v.state != BatchPatching)
    && (v.jobs != [] ==> Fits(v, v.jobs[|v.jobs| - 1]))
    && (forall h :: 0 <= h < |v.holds| ==> v.holds[h] !in {Some(BatchPatching), Some(Patching)})
  }

  /** An event disturbs a patch when it takes the server out of the patching state. */
  predicate Disturbs(v: Server, e: Event) {
    v.state == BatchPatching && Happen(v, e).state != BatchPatching
  }

  /** The events that disturb a patch, by the branch they take. */
  lemma DisturbingEvents(v: Server, e: Event)
    requires ServerInv(v)
    ensures Disturbs(v, e) <==>
      && v.state == BatchPatching
      && (e.KeepActivating? || e.WentInactive? || e.AddFile? || (e.Stop? && e.idle >= 600)
          || (e.Restore? && e.h < |v.holds| && v.holds[e.h].Some?))
  {
  }

  lemma AcceptKeepsServer(v: Server, valid: bool)
    requires ServerInv(v)
    ensures ServerInv(Accept(v, valid))
    ensures Accepts(v, valid) ==> forall i :: 0 <= i < |v.jobs| ==> v.jobs[i].phase.Over?
  {
    if Accepts(v, valid) && v.jobs != [] {
      assert !InProgress(v.jobs[|v.jobs| - 1].phase);
    }
  }

  lemma MoveKeepsServer(v: Server, k: nat, phase: Phase)
    requires ServerInv(v) && k < |v.jobs|
    requires (v.jobs[k].phase == Accepted && phase == Queued) || (v.jobs[k].phase == Queued && phase == Taken)
    ensures ServerInv(Move(v, k, phase)) && k == |v.jobs| - 1
  {
  }

  lemma WorkKeepsServer(v: Server, k: nat, work: Work)
    requires ServerInv(v) && k < |v.jobs|
    ensures ServerInv(Do(v, k, work))
    ensures v.jobs[k].phase.Finished? && work == Release ==> Do(v, k, work).state == v.jobs[k].found
  {
  }

  /** Exactly the disturbing events break what holds of a server. */
  lemma EventKeepsServer(v: Server, e: Event)
    requires ServerInv(v)
    ensures ServerInv(Happen(v, e)) <==> !Disturbs(v, e)
  {
    if Disturbs(v, e) {
      assert !Fits(Happen(v, e), v.jobs[|v.jobs| - 1]);
    }
  }

  // ----- the invariant of the node -----

  ghost predicate DistinctKeys(n: Node) {
    forall a, b :: a in n.servers && b in n.servers && Key(a) == Key(b) ==> a == b
  }

  predicate IsQueued(n: Node, id: Id, k: nat) {
    HasJob(n, id, k) && PhaseOf(n, id, k).Queued?
  }

  ghost predicate QueueHolds(n: Node) {
    && (forall i :: 0 <= i < |n.queue| ==> IsQueued(n, n.queue[i].id, n.queue[i].k))
    && (forall i, j :: 0 <= i < j < |n.queue| ==> n.queue[i] != n.queue[j])
    && (forall id, k: nat :: IsQueued(n, id, k) ==> Item(id, k) in n.queue)
  }

  ghost predicate KeysWait(queue: seq<Item>, patching: set<string>) {
    forall key :: key in patching ==> exists i :: 0 <= i < |queue| && Key(queue[i].id) == key
  }

  /** The queue holds exactly the waiting patches, each once, and a key in the set is that of one of them. */
  ghost predicate QueueInv(n: Node) {
    QueueHolds(n) && KeysWait(n.queue, n.patching)
  }

  ghost predicate ServersInv(n: Node) {
    forall id :: id in n.servers ==> ServerInv(n.servers[id])
  }

  ghost predicate Inv(n: Node) {
    DistinctKeys(n) && ServersInv(n) && QueueInv(n)
  }

  /** The step does not take a server out of the patching state behind the back of its patch. */
  predicate Quiet(n: Node, s: Step) {
    s.Happening? && s.id in n.servers ==> !Disturbs(n.servers[s.id], s.event)
  }

  ghost predicate QuietRun(n: Node, steps: seq<Step>) {
    forall i :: 0 <= i < |steps| ==> Quiet(Run(n, steps[..i]), steps[i])
  }

  /** A step on one server that starts or ends no wait in the queue. */
  lemma OneServerKeepsQueue(n: Node, id: Id, v: Server)
    requires QueueInv(n) && id in n.servers
    requires |v.jobs| >= |n.servers[id].jobs|
    requires forall k :: 0 <= k < |v.jobs| ==>
      (v.jobs[k].phase.Queued? <==> k < |n.servers[id].jobs| && n.servers[id].jobs[k].phase.Queued?)
    ensures QueueInv(n.(servers := n.servers[id := v]))
  {
    var n' := n.(servers := n.servers[id := v]);
    forall id', k: nat | HasJob(n', id', k) && PhaseOf(n', id', k).Queued? ensures Item(id', k) in n'.queue {
      assert HasJob(n, id', k) && PhaseOf(n, id', k).Queued?;
    }
  }

  lemma AcceptedIsAlone(v: Server, k: nat)
    requires ServerInv(v) && k < |v.jobs| && v.jobs[k].phase.Accepted?
    ensures forall i :: 0 <= i < |v.jobs| ==> !v.jobs[i].phase.Queued?
  {
  }

  /** Only the waiting patch itself can keep its server's key in the set, so a push is never refused. */
  lemma KeyIsFree(n: Node, id: Id, k: nat)
    requires Inv(n) && HasJob(n, id, k) && PhaseOf(n, id, k).Accepted?
    ensures Key(id) !in n.patching
  {
    hide ServerInv;
    AcceptedIsAlone(n.servers[id], k);
    forall i | 0 <= i < |n.queue| ensures Key(n.queue[i].id) != Key(id) {
      assert IsQueued(n, n.queue[i].id, n.queue[i].k) && n.queue[i].id != id;
    }
  }

  lemma PushKeepsQueue(n: Node, id: Id, k: nat)
    requires QueueInv(n) && HasJob(n, id, k) && PhaseOf(n, id, k).Accepted? && Key(id) !in n.patching
    ensures QueueInv(Pushed(n, id, k))
  {
    hide Key;
    var n' := Pushed(n, id, k);
    assert n'.queue == n.queue + [Item(id, k)];
    assert forall id', k': nat :: IsQueued(n', id', k') <==> IsQueued(n, id', k') || (id' == id && k' == k);
    hide IsQueued, Pushed;
    assert KeysWait(n'.queue, n'.patching) by { KeyAdded(n.queue, n.patching, Item(id, k)); }
    hide KeysWait;
    assert !IsQueued(n, id, k) by { NotQueuedYet(n, id, k); }
    assert forall i :: 0 <= i < |n.queue| ==> n'.queue[i] == n.queue[i];
    assert n'.queue[|n.queue|] == Item(id, k);
  }

  lemma NotQueuedYet(n: Node, id: Id, k: nat)
    requires HasJob(n, id, k) && PhaseOf(n, id, k).Accepted?
    ensures !IsQueued(n, id, k)
  {
  }

  lemma KeyAdded(queue: seq<Item>, patching: set<string>, item: Item)
    requires KeysWait(queue, patching)
    ensures KeysWait(queue + [item], patching + {Key(item.id)})
  {
    hide Key;
    var queue' := queue + [item];
    assert queue'[|queue|] == item;
    forall key | key in patching ensures exists i :: 0 <= i < |queue'| && Key(queue'[i].id) == key {
      var i :| 0 <= i < |queue| && Key(queue[i].id) == key;
      assert Key(queue'[i].id) == key;
    }
  }

  lemma PushKeepsInv(n: Node, id: Id, k: nat)
    requires Inv(n) && HasJob(n, id, k) && PhaseOf(n, id, k).Accepted?
    ensures Inv(Pushed(n, id, k))
  {
    KeyIsFree(n, id, k);
    PushKeepsQueue(n, id, k);
    hide QueueInv;
    MoveKeepsServer(n.servers[id], k, Queued);
    hide ServerInv;
  }

  lemma PoppedParts(n: Node)
    requires n.queue != [] && IsQueued(n, n.queue[0].id, n.queue[0].k)
    ensures var n' := Popped(n);
      && n'.queue == n.queue[1..] && n'.patching == n.patching - {Key(n.queue[0].id)}
      && forall id, k: nat :: IsQueued(n', id, k) <==> IsQueued(n, id, k) && Item(id, k) != n.queue[0]
  {
    hide Key;
  }

  lemma PopKeepsQueue(n: Node)
    requires QueueInv(n) && n.queue != []
    ensures QueueInv(Popped(n))
  {
    hide Key, IsQueued, Popped, KeysWait;
    var n' := Popped(n);
    PoppedParts(n);
    KeyRemoved(n.queue, n.patching);
    forall i | 0 <= i < |n'.queue| ensures IsQueued(n', n'.queue[i].id, n'.queue[i].k) {
      assert n'.queue[i] == n.queue[i + 1] && n.queue[0] != n.queue[i + 1];
    }
    assert n.queue == [n.queue[0]] + n'.queue;
  }

  lemma KeyRemoved(queue: seq<Item>, patching: set<string>)
    requires KeysWait(queue, patching) && queue != []
    ensures KeysWait(queue[1..], patching - {Key(queue[0].id)})
  {
    hide Key;
    forall key | key in patching && key != Key(queue[0].id)
      ensures exists i :: 0 <= i < |queue[1..]| && Key(queue[1..][i].id) == key
    {
      var i :| 0 <= i < |queue| && Key(queue[i].id) == key;
      assert Key(queue[1..][i - 1].id) == key;
    }
  }

  lemma PopKeepsInv(n: Node)
    requires Inv(n)
    ensures Inv(Popped(n))
  {
    if n.queue != [] {
      var Item(id, k) := n.queue[0];
      assert IsQueued(n, id, k);
      PopKeepsQueue(n);
      hide QueueInv;
      MoveKeepsServer(n.servers[id], k, Taken);
      hide ServerInv;
    }
  }

  /** Main result, one step: a quiet step keeps the protocol in order, */
  lemma StepKeepsInv(n: Node, s: Step)
    requires Inv(n) && Quiet(n, s)
    ensures Inv(Next(n, s))
  {
    hide ServerInv, Inv;
    match s
    case Accepting(id, valid) =>
      if id in n.servers {
        InvParts(n);
        AcceptKeepsServer(n.servers[id], valid);
        ReplacedKeepsInv(n, id, Accept(n.servers[id], valid));
      }
    case Push(id, k) => if HasJob(n, id, k) && PhaseOf(n, id, k).Accepted? { PushKeepsInv(n, id, k); }
    case Pop => PopKeepsInv(n);
    case Working(id, k, work) =>
      if HasJob(n, id, k) {
        InvParts(n);
        WorkKeepsServer(n.servers[id], k, work);
        ReplacedKeepsInv(n, id, Do(n.servers[id], k, work));
      }
    case Happening(id, event) =>
      if id in n.servers {
        InvParts(n);
        EventKeepsServer(n.servers[id], event);
        ReplacedKeepsInv(n, id, Happen(n.servers[id], event));
      }
  }

  /** A node as it is constructed: its servers have no patches and no command at work, and nothing is queued. */
  ghost predicate FreshNode(n: Node) {
    && n.queue == [] && n.patching == {}
    && forall id :: id in n.servers ==>
         n.servers[id].jobs == [] && n.servers[id].holds == [] && n.servers[id].state !in {Patching, BatchPatching}
  }

  /** Such a node is in order. */
  lemma FreshNodeInv(n: Node)
    requires DistinctKeys(n) && FreshNode(n)
    ensures Inv(n)
  {
    forall id, k: nat ensures !IsQueued(n, id, k) { }
  }

  lemma InvParts(n: Node)
    ensures Inv(n) <==> DistinctKeys(n) && ServersInv(n) && QueueInv(n)
  {
  }

  lemma ReplacedKeepsInv(n: Node, id: Id, v: Server)
    requires Inv(n) && id in n.servers && ServerInv(v)
    requires |v.jobs| >= |n.servers[id].jobs|
    requires forall k :: 0 <= k < |v.jobs| ==>
      (v.jobs[k].phase.Queued? <==> k < |n.servers[id].jobs| && n.servers[id].jobs[k].phase.Queued?)
    ensures Inv(n.(servers := n.servers[id := v]))
  {
    OneServerKeepsQueue(n, id, v);
  }

  /** and a step that is not quiet breaks it. */
  lemma OnlyQuietStepsKeepInv(n: Node, s: Step)
    requires Inv(n)
    ensures Inv(Next(n, s)) <==> Quiet(n, s)
  {
    if Quiet(n, s) {
      StepKeepsInv(n, s);
    } else {
      EventKeepsServer(n.servers[s.id], s.event);
      assert !ServerInv(Next(n, s).servers[s.id]);
    }
  }

  /** Main result, whole runs. */
  lemma {:induction false} RunKeepsInv(n: Node, steps: seq<Step>)
    requires Inv(n) && QuietRun(n, steps)
    ensures Inv(Run(n, steps))
  {
    if steps != [] {
      var init := steps[..|steps| - 1];
      assert forall i :: 0 <= i < |init| ==> init[..i] == steps[..i];
      RunKeepsInv(n, init);
      StepKeepsInv(Run(n, init), steps[|steps| - 1]);
    }
  }

  // ----- what the protocol promises -----

  /** Patch k of the server has been accepted and is not over. */
  predicate Ongoing(v: Server, k: nat) {
    k < |v.jobs| && InProgress(v.jobs[k].phase)
  }

  /** A server is in the patching state exactly when a patch of it is waiting or being executed; there is never more
      than one, and it is the latest accepted. */
  lemma PatchingIffOngoing(v: Server)
    requires ServerInv(v)
    ensures v.state == BatchPatching <==> exists k: nat :: Ongoing(v, k)
    ensures forall k: nat :: Ongoing(v, k) ==> k == |v.jobs| - 1
  {
    if v.state == BatchPatching {
      assert Ongoing(v, |v.jobs| - 1);
    }
  }

  /** When a patch ends, its server is back in the state the patch was accepted in. */
  lemma RunRestoresState(n: Node, steps: seq<Step>, id: Id, k: nat)
    requires Inv(n) && QuietRun(n, steps) && HasJob(Run(n, steps), id, k)
    requires PhaseOf(Run(n, steps), id, k).Finished?
    ensures Next(Run(n, steps), Working(id, k, Release)).servers[id].state == Run(n, steps).servers[id].jobs[k].found
  {
    hide Inv, Run, QuietRun;
    RunKeepsInv(n, steps);
    InvParts(Run(n, steps));
    WorkKeepsServer(Run(n, steps).servers[id], k, Release);
  }

  // ----- the poller -----

  /** What the admin registry concludes from one answer. */
  datatype Verdict = Success | Failure | Again

  /** The node's answer: an error when the last result is a failure and no patch is going on. */
  function AnswerOf(v: Server): (int, int, bool) {
    (if v.ok || v.state == Patching || v.state == BatchPatching then 0 else -1, v.percent, v.ok)
  }

  function Judgement(ret: int, percent: int, ok: bool): Verdict {
    if ret != 0 then Failure else if percent == 100 && ok then Success else Again
  }

  function Poll(v: Server): Verdict {
    var (ret, percent, ok) := AnswerOf(v);
    Judgement(ret, percent, ok)
  }

  lemma {:induction false} RunKeepsServers(n: Node, steps: seq<Step>)
    ensures Run(n, steps).servers.Keys == n.servers.Keys
  {
    if steps != [] { RunKeepsServers(n, steps[..|steps| - 1]); }
  }

  /** A poll tells the truth about the latest accepted patch: success exactly when its command ended with 0, failure
      exactly when it ended otherwise and is over. The answer does not say which patch it is about: a poller of an
      earlier patch learns about the latest. */
  predicate Truthful(v: Server) {
    v.jobs == [] ||
    (var p := v.jobs[|v.jobs| - 1].phase;
     && (Poll(v).Success? <==> (p.Finished? || p.Over?) && p.ret == 0)
     && (Poll(v).Failure? <==> p.Over? && p.ret != 0))
  }

  lemma OrderlyIsTruthful(v: Server)
    requires ServerInv(v)
    ensures Truthful(v)
    ensures v.jobs != [] ==> (v.percent == 100 <==> var p := v.jobs[|v.jobs| - 1].phase; p.Finished? || p.Over?)
  {
  }

  /** In every state a quiet run reaches, a poll tells the truth, and the progress is at 100 exactly when the latest
      accepted patch has been executed. */
  lemma PollTellsTheTruth(n: Node, steps: seq<Step>, id: Id)
    requires Inv(n) && QuietRun(n, steps) && id in n.servers
    ensures id in Run(n, steps).servers && Truthful(Run(n, steps).servers[id])
    ensures var v := Run(n, steps).servers[id];
      v.jobs != [] ==> (v.percent == 100 <==> var p := v.jobs[|v.jobs| - 1].phase; p.Finished? || p.Over?)
  {
    hide Inv, Run, QuietRun;
    RunKeepsServers(n, steps);
    RunKeepsInv(n, steps);
    InvParts(Run(n, steps));
    OrderlyIsTruthful(Run(n, steps).servers[id]);
  }

  lemma QuietOneMore(n: Node, steps: seq<Step>, s: Step)
    requires QuietRun(n, steps) && Quiet(Run(n, steps), s)
    ensures QuietRun(n, steps + [s])
  {
    var all := steps + [s];
    forall i | 0 <= i < |all| ensures Quiet(Run(n, all[..i]), all[i]) {
      if i < |steps| { assert all[..i] == steps[..i]; } else { assert all[..i] == steps; }
    }
  }

  /** The server is out of the patching state although its latest patch has not been released. */
  predicate Interrupted(v: Server) {
    v.jobs != [] && InProgress(v.jobs[|v.jobs| - 1].phase) && v.state !in {BatchPatching, Patching}
  }

  /** If the last result was a success, the events of a failed start and of a start that finds nothing to execute bring
      the progress to 100. */
  lemma StartFinishesProgress(n: Node, id: Id) returns (more: seq<Step>)
    requires id in n.servers && Interrupted(n.servers[id]) && n.servers[id].ok
    ensures QuietRun(n, more) && id in Run(n, more).servers
    ensures Run(n, more).servers[id] == n.servers[id].(state := Inactive, percent := 100)
  {
    var s0, s1 := Happening(id, WentInactive), Happening(id, Start(false));
    var n1 := Next(n, s0);
    RunStep(n, s0);
    RunOneMore(n, [s0], s1);
    assert QuietRun(n, []) && Run(n, []) == n;
    QuietOneMore(n, [], s0);
    QuietOneMore(n, [s0], s1);
    more := [s0] + [s1];
    assert [] + [s0] == [s0];
  }

  /** If moreover the patch has just finished with 0, the next patch is accepted and the old one released first. */
  lemma NextPatchIsInterrupted(n: Node, id: Id) returns (more: seq<Step>)
    requires id in n.servers && Interrupted(n.servers[id]) && n.servers[id].ok
    requires var p := n.servers[id].jobs[|n.servers[id].jobs| - 1].phase;
      p.Finished? && p.back !in {BatchPatching, Patching}
    ensures QuietRun(n, more) && id in Run(n, more).servers
    ensures Interrupted(Run(n, more).servers[id]) && Run(n, more).servers[id].ok
    ensures Run(n, more).servers[id].jobs[|Run(n, more).servers[id].jobs| - 1].phase == Accepted
  {
    hide Run, QuietRun;
    var k := |n.servers[id].jobs| - 1;
    var s0, s1, s2 := Happening(id, WentInactive), Accepting(id, true), Working(id, k, Release);
    RunStep(n, s0);
    RunOneMore(n, [s0], s1);
    RunOneMore(n, [s0] + [s1], s2);
    QuietNone(n);
    QuietOneMore(n, [], s0);
    QuietOneMore(n, [s0], s1);
    QuietOneMore(n, [s0] + [s1], s2);
    more := [s0] + [s1] + [s2];
    assert [] + [s0] == [s0];
  }

  lemma QuietNone(n: Node)
    ensures QuietRun(n, []) && Run(n, []) == n
  {
  }

  /** From an interrupted patch some quiet continuation leads to a poll that lies. */
  lemma InterruptedLies(n: Node, id: Id) returns (more: seq<Step>)
    requires id in n.servers && Interrupted(n.servers[id])
    requires var p := n.servers[id].jobs[|n.servers[id].jobs| - 1].phase;
      p.Finished? ==> p.back !in {BatchPatching, Patching} && (n.servers[id].ok <==> p.ret == 0)
    ensures QuietRun(n, more) && id in Run(n, more).servers && !Truthful(Run(n, more).servers[id])
  {
    hide Run, QuietRun;
    var v := n.servers[id];
    QuietNone(n);
    if !v.ok {
      more := [];
    } else if v.jobs[|v.jobs| - 1].phase.Finished? {
      var first := NextPatchIsInterrupted(n, id);
      var rest := StartFinishesProgress(Run(n, first), id);
      QuietJoin(n, first, rest);
      more := first + rest;
    } else {
      more := StartFinishesProgress(n, id);
    }
  }

  lemma QuietJoin(n: Node, a: seq<Step>, b: seq<Step>)
    requires QuietRun(n, a) && QuietRun(Run(n, a), b)
    ensures QuietRun(n, a + b) && Run(n, a + b) == Run(Run(n, a), b)
  {
    var all := a + b;
    RunTwo(n, a, b);
    forall i | 0 <= i < |all| ensures Quiet(Run(n, all[..i]), all[i]) {
      if i < |a| {
        assert all[..i] == a[..i];
      } else {
        assert all[..i] == a + b[..i - |a|];
        RunTwo(n, a, b[..i - |a|]);
      }
    }
  }

  /** The polls of a server tell the truth in every quiet continuation. */
  ghost predicate AlwaysTruthful(n: Node, id: Id) {
    forall more :: QuietRun(n, more) ==> id in Run(n, more).servers && Truthful(Run(n, more).servers[id])
  }

  /** Main result: after an event, the polls of its server tell the truth in every quiet continuation if and only if the
      event does not take the server out of the patching state. */
  lemma PollIsTruthfulExactly(n: Node, id: Id, e: Event)
    requires Inv(n) && id in n.servers
    ensures AlwaysTruthful(Next(n, Happening(id, e)), id) <==> !Disturbs(n.servers[id], e)
  {
    var n' := Next(n, Happening(id, e));
    if Disturbs(n.servers[id], e) {
      EventInterrupts(n.servers[id], e);
      var more := InterruptedLies(n', id);
    } else {
      StepKeepsInv(n, Happening(id, e));
      forall more | QuietRun(n', more) ensures id in Run(n', more).servers && Truthful(Run(n', more).servers[id]) {
        PollTellsTheTruth(n', more, id);
      }
    }
  }

  lemma EventInterrupts(v: Server, e: Event)
    requires ServerInv(v) && Disturbs(v, e)
    ensures var v' := Happen(v, e);
      Interrupted(v') && var p := v'.jobs[|v'.jobs| - 1].phase;
        p.Finished? ==> p.back !in {BatchPatching, Patching} && (v'.ok <==> p.ret == 0)
  {
  }

  // ----- where the promises end -----

  lemma RunOneMore(n: Node, steps: seq<Step>, s: Step)
    ensures Run(n, steps + [s]) == Next(Run(n, steps), s)
  {
    assert (steps + [s])[..|steps|] == steps;
  }

  lemma {:induction false} RunTwo(n: Node, a: seq<Step>, b: seq<Step>)
    ensures Run(n, a + b) == Run(Run(n, a), b)
  {
    if b == [] {
      assert a + b == a;
    } else {
      var init := b[..|b| - 1];
      RunTwo(n, a, init);
      assert a + b == a + init + [b[|b| - 1]];
      RunOneMore(n, a + init, b[|b| - 1]);
    }
  }

  lemma RunStep(n: Node, s: Step)
    ensures Run(n, [s]) == Next(n, s)
  {
    RunOneMore(n, [], s);
  }

  /** A start that fails while a patch is being executed makes the poll credit the first patch's success to a second
      patch that is still waiting. */
  lemma FailedStartFakesSuccess(n: Node, id: Id)
    requires Inv(n) && id in n.servers && n.servers[id].state == Activating && n.queue == []
    ensures var k := |n.servers[id].jobs|;
      var during := [Accepting(id, true), Push(id, k), Pop, Working(id, k, Begin)];
      var after := [Accepting(id, true), Push(id, k + 1), Working(id, k, Judge(0)), Working(id, k, Finish)];
      var end := Run(n, during + [Happening(id, WentInactive)] + after);
      HasJob(end, id, k + 1) && PhaseOf(end, id, k + 1) == Queued && Poll(end.servers[id]) == Success
  {
    var k := |n.servers[id].jobs|;
    var during := [Accepting(id, true), Push(id, k), Pop, Working(id, k, Begin)];
    var after := [Accepting(id, true), Push(id, k + 1), Working(id, k, Judge(0)), Working(id, k, Finish)];
    assert n.patching == {} by { if key :| key in n.patching { assert false; } }
    var mid := FirstPatchRuns(n, id);
    var idle := Next(mid, Happening(id, WentInactive));
    RunTwo(n, during, [Happening(id, WentInactive)]);
    RunStep(mid, Happening(id, WentInactive));
    RunTwo(n, during + [Happening(id, WentInactive)], after);
    SecondPatchWaits(idle, id, k);
  }

  lemma FirstPatchRuns(n: Node, id: Id) returns (mid: Node)
    requires id in n.servers && n.servers[id].state == Activating && n.queue == [] && n.patching == {}
    ensures var k := |n.servers[id].jobs|;
      && mid == Run(n, [Accepting(id, true), Push(id, k), Pop, Working(id, k, Begin)])
      && id in mid.servers && |mid.servers[id].jobs| == k + 1
      && mid.servers[id].jobs[k].phase == Running(Activating) && mid.queue == [] && mid.patching == {}
  {
    hide Run;
    var k := |n.servers[id].jobs|;
    var s0, s1, s2, s3 := Accepting(id, true), Push(id, k), Pop, Working(id, k, Begin);
    var n1 := Next(n, s0);
    var n2 := Next(n1, s1);
    var n3 := Next(n2, s2);
    mid := Next(n3, s3);
    RunStep(n, s0);
    RunOneMore(n, [s0], s1);
    RunOneMore(n, [s0, s1], s2);
    RunOneMore(n, [s0, s1, s2], s3);
    assert [s0] + [s1] == [s0, s1] && [s0, s1] + [s2] == [s0, s1, s2] && [s0, s1, s2] + [s3] == [s0, s1, s2, s3];
  }

  lemma SecondPatchWaits(n: Node, id: Id, k: nat)
    requires id in n.servers && n.servers[id].state == Inactive && n.queue == [] && n.patching == {}
    requires |n.servers[id].jobs| == k + 1 && n.servers[id].jobs[k].phase == Running(Activating)
    ensures var end := Run(n, [Accepting(id, true), Push(id, k + 1), Working(id, k, Judge(0)), Working(id, k, Finish)]);
      HasJob(end, id, k + 1) && PhaseOf(end, id, k + 1) == Queued && Poll(end.servers[id]) == Success
  {
    hide Run;
    var s0, s1, s2, s3 := Accepting(id, true), Push(id, k + 1), Working(id, k, Judge(0)), Working(id, k, Finish);
    RunStep(n, s0);
    RunOneMore(n, [s0], s1);
    RunOneMore(n, [s0, s1], s2);
    RunOneMore(n, [s0, s1, s2], s3);
    assert [s0] + [s1] == [s0, s1] && [s0, s1] + [s2] == [s0, s1, s2] && [s0, s1, s2] + [s3] == [s0, s1, s2, s3];
  }

  /** In the patching state without a patch going on. */
  ghost predicate Stranded(n: Node, id: Id) {
    && id in n.servers && n.servers[id].state == BatchPatching
    && forall k: nat :: !Ongoing(n.servers[id], k)
  }

  /** Two servers whose application and server names run together the same way share a key: a patch of one that is
      accepted while the other's is waiting is refused by the queue, but its server is left in the patching state. */
  lemma SharedKeyStrands(n: Node, a: Id, b: Id)
    requires ServersInv(n) && a in n.servers && b in n.servers && a != b && Key(a) == Key(b) && Key(a) !in n.patching
    requires Accepts(n.servers[a], true) && Accepts(n.servers[b], true)
    ensures var ka, kb := |n.servers[a].jobs|, |n.servers[b].jobs|;
      Stranded(Run(n, [Accepting(a, true), Push(a, ka), Accepting(b, true), Push(b, kb)]), b)
  {
    hide Run, Key, ServerInv;
    var ka, kb := |n.servers[a].jobs|, |n.servers[b].jobs|;
    var s0, s1, s2, s3 := Accepting(a, true), Push(a, ka), Accepting(b, true), Push(b, kb);
    RunStep(n, s0);
    RunOneMore(n, [s0], s1);
    RunOneMore(n, [s0, s1], s2);
    RunOneMore(n, [s0, s1, s2], s3);
    assert [s0] + [s1] == [s0, s1] && [s0, s1] + [s2] == [s0, s1, s2] && [s0, s1, s2] + [s3] == [s0, s1, s2, s3];
    RefusedIsStranded(n.servers[b]);
    hide Accept, Move;
  }

  lemma RefusedIsStranded(v: Server)
    requires ServerInv(v) && Accepts(v, true)
    ensures var v' := Move(Accept(v, true), |v.jobs|, Refused);
      v'.state == BatchPatching && forall k: nat :: !Ongoing(v', k)
    ensures |Accept(v, true).jobs| == |v.jobs| + 1 && Accept(v, true).jobs[|v.jobs|].phase == Accepted
  {
    AcceptKeepsServer(v, true);
  }

  /** Whatever states the two servers of a fresh node are in, quiet steps lead there. */
  lemma SharedKeyRun(n: Node, a: Id, b: Id) returns (steps: seq<Step>)
    requires FreshNode(n) && a in n.servers && b in n.servers && a != b && Key(a) == Key(b)
    ensures QuietRun(n, steps) && Stranded(Run(n, steps), b)
  {
    hide Run, QuietRun, Stranded, Key;
    var s0, s1 := Happening(a, WentInactive), Happening(b, WentInactive);
    var idle := Next(Next(n, s0), s1);
    RunStep(n, s0);
    RunOneMore(n, [s0], s1);
    QuietNone(n);
    QuietOneMore(n, [], s0);
    assert [] + [s0] == [s0];
    QuietOneMore(n, [s0], s1);
    var rest := [Accepting(a, true), Push(a, 0), Accepting(b, true), Push(b, 0)];
    SharedKeyStrands(idle, a, b);
    NoEventsAreQuiet(idle, rest);
    QuietJoin(n, [s0] + [s1], rest);
    steps := [s0] + [s1] + rest;
  }

  lemma NoEventsAreQuiet(n: Node, steps: seq<Step>)
    requires forall i :: 0 <= i < |steps| ==> !steps[i].Happening?
    ensures QuietRun(n, steps)
  {
    hide Run;
  }

  /** Main result: from a node as it is constructed, no quiet run leaves a server in the patching state without a patch,
      if and only if no two of its servers share a key. */
  lemma NoServerStrandsExactly(n: Node)
    requires FreshNode(n)
    ensures (forall steps, id :: QuietRun(n, steps) ==> !Stranded(Run(n, steps), id)) <==>
      forall a, b :: a in n.servers && b in n.servers && a.app + a.name == b.app + b.name ==> a == b
  {
    assert DistinctKeys(n) <==>
      forall a, b :: a in n.servers && b in n.servers && a.app + a.name == b.app + b.name ==> a == b;
    hide Run, QuietRun, Key, FreshNode;
    if DistinctKeys(n) {
      FreshNodeInv(n);
      forall steps, id | QuietRun(n, steps) ensures !Stranded(Run(n, steps), id) {
        RunKeepsInv(n, steps);
        if id in Run(n, steps).servers { PatchingIffOngoing(Run(n, steps).servers[id]); }
      }
    } else {
      var a, b :| a in n.servers && b in n.servers && Key(a) == Key(b) && a != b;
      var steps := SharedKeyRun(n, a, b);
    }
  }

  /** Nothing but a disturbing event ever frees a stranded server: no patch of it is accepted again. */
  lemma {:induction false} StrandedForGood(n: Node, id: Id, steps: seq<Step>)
    requires Stranded(n, id) && QuietRun(n, steps)
    ensures Stranded(Run(n, steps), id)
  {
    if steps != [] {
      var init := steps[..|steps| - 1];
      assert forall i :: 0 <= i < |init| ==> init[..i] == steps[..i];
      StrandedForGood(n, id, init);
      StrandedStep(Run(n, init), id, steps[|steps| - 1]);
    }
  }

  lemma StrandedStep(n: Node, id: Id, s: Step)
    requires Stranded(n, id) && Quiet(n, s)
    ensures Stranded(Next(n, s), id)
  {
    var v := n.servers[id];
    forall k | 0 <= k < |v.jobs| ensures !InProgress(v.jobs[k].phase) { assert !Ongoing(v, k); }
    var v' := Next(n, s).servers[id];
    match s {
      case Push(id', k) => if HasJob(n, id, k) { assert PhaseOf(n, id, k) == v.jobs[k].phase; }
      case Pop =>
        if n.queue != [] && HasJob(n, id, n.queue[0].k) {
          assert PhaseOf(n, id, n.queue[0].k) == v.jobs[n.queue[0].k].phase;
        }
      case Working(id', k, work) =>
        if id' == id && HasJob(n, id, k) { assert !InProgress(v.jobs[k].phase) && Do(v, k, work) == v; }
      case _ =>
    }
    assert forall k: nat :: !Ongoing(v, k) ==> !Ongoing(v', k);
  }

  // ----- one patch command from start to end -----

  function DoAll(v: Server, k: nat, works: seq<Work>): (r: Server)
    requires k < |v.jobs|
    ensures |r.jobs| == |v.jobs|
  {
    if works == [] then v else Do(DoAll(v, k, works[..|works| - 1]), k, works[|works| - 1])
  }

  function Reports(progress: seq<int>): seq<Work> {
    seq(|progress|, i requires 0 <= i < |progress| => Progress(progress[i]))
  }

  /** The server after a patch has been executed with nothing in between. */
  function Executed(v: Server, k: nat, ret: int): Server
    requires k < |v.jobs|
  {
    v.(state := v.last, percent := 100, ok := ret == 0, jobs := v.jobs[k := v.jobs[k].(phase := Over(ret))])
  }

  lemma {:induction false} ReportsOnlyProgress(v: Server, k: nat, progress: seq<int>)
    requires k < |v.jobs| && v.jobs[k].phase == Taken
    ensures DoAll(v, k, [Begin] + Reports(progress)) ==
      Move(v, k, Running(v.last)).(state := BatchPatching, ok := true,
        percent := if progress == [] then 0 else Capped(progress[|progress| - 1]))
  {
    if progress == [] {
      assert [Begin] + Reports(progress) == [Begin];
      assert DoAll(v, k, [Begin]) == Do(DoAll(v, k, []), k, Begin);
    } else {
      var init := progress[..|progress| - 1];
      ReportsOnlyProgress(v, k, init);
      var works := [Begin] + Reports(progress);
      assert works[..|works| - 1] == [Begin] + Reports(init);
    }
  }

  /** Executed by itself, a patch leaves the server as it was accepted, with its result and at 100%. */
  lemma ExecutionByItself(v: Server, k: nat, progress: seq<int>, ret: int)
    requires k < |v.jobs| && v.jobs[k].phase == Taken
    ensures DoAll(v, k, [Begin] + Reports(progress) + [Judge(ret)] + [Finish] + [Release]) == Executed(v, k, ret)
  {
    var w := [Begin] + Reports(progress);
    ReportsOnlyProgress(v, k, progress);
    hide Reports;
    DoAllOneMore(v, k, w, Judge(ret));
    DoAllOneMore(v, k, w + [Judge(ret)], Finish);
    DoAllOneMore(v, k, w + [Judge(ret)] + [Finish], Release);
    hide DoAll;
  }

  lemma DoAllOneMore(v: Server, k: nat, works: seq<Work>, w: Work)
    requires k < |v.jobs|
    ensures DoAll(v, k, works + [w]) == Do(DoAll(v, k, works), k, w)
  {
    assert (works + [w])[..|works|] == works;
  }

  // ----- what requests, heartbeats and commands do, state by state -----

  /** A valid request is accepted in four states, and only there: the state found is saved, and one patch more is going
      on. Any other request changes nothing. */
  lemma RequestByState(n: Node, id: Id, valid: bool)
    requires id in n.servers
    ensures var v, n' := n.servers[id], Next(n, Accepting(id, valid));
      if valid && v.state in {Inactive, Active, Destroyed, Activating}
      then n' == n.(servers := n.servers[id := Server(BatchPatching, v.state, 0, v.ok, v.holds,
                                                      v.jobs + [Job(v.state, Accepted)])])
      else n' == n
  {
    assert n.servers[id := n.servers[id]] == n.servers;
  }

  /** A heartbeat makes a server active in the same four states; */
  lemma HeartbeatByState(v: Server)
    ensures Happen(v, Heartbeat) ==
      if v.state in {Inactive, Active, Destroyed, Activating} then v.(state := Active) else v
  {
  }

  /** the report of a process that is starting, and a start that failed, set the state whatever it was; */
  lemma SetInAnyState(v: Server)
    ensures Happen(v, KeepActivating) == v.(state := Activating) && Happen(v, WentInactive) == v.(state := Inactive)
  {
  }

  /** a start goes ahead in one; */
  lemma StartByState(v: Server, found: bool)
    ensures v.state == Inactive && found ==> Happen(v, Start(found)) == v.(state := Activating, percent := 100)
    ensures v.state == Inactive && !found ==> Happen(v, Start(found)) == v.(percent := 100)
    ensures v.state != Inactive ==> Happen(v, Start(found)) == v
  {
  }

  /** a stop in all but two, after ten seconds or ten minutes without progress if a patch is going on; */
  lemma StopByState(v: Server, idle: nat)
    ensures v.state in {Active, Activating, Deactivating, Destroyed, Loading, AddFilesing} ==>
      Happen(v, Stop(idle)) == v.(state := Deactivating)
    ensures v.state in {Inactive, Destroying} ==> Happen(v, Stop(idle)) == v
    ensures v.state == Patching ==> Happen(v, Stop(idle)) == if idle >= 10 then v.(state := Deactivating) else v
    ensures v.state == BatchPatching ==> Happen(v, Stop(idle)) == if idle >= 600 then v.(state := Deactivating) else v
  {
  }

  /** the check that finds the process dead stops the server unless it is patching, or starting and still in time; */
  lemma DeadByState(v: Server, startTimedOut: bool)
    ensures v.state in {Active, Deactivating, Destroying, Destroyed, Loading, AddFilesing} ==>
      Happen(v, Dead(startTimedOut)) == v.(state := Inactive)
    ensures v.state == Activating ==>
      Happen(v, Dead(startTimedOut)) == if startTimedOut then v.(state := Inactive) else v
    ensures v.state in {Inactive, Patching, BatchPatching} ==> Happen(v, Dead(startTimedOut)) == v
  {
  }

  /** loading goes ahead in the four states again, and adding a file always; both give back the state they found. */
  lemma HoldByState(v: Server)
    ensures v.state in {Inactive, Active, Destroyed, Activating} ==>
      Happen(v, Load) == v.(state := Loading, holds := v.holds + [Some(v.state)])
    ensures v.state !in {Inactive, Active, Destroyed, Activating} ==> Happen(v, Load) == v
    ensures Happen(v, AddFile) == v.(state := AddFilesing, holds := v.holds + [Some(v.state)])
    ensures Happen(Happen(v, AddFile), Restore(|v.holds|)) == v.(holds := v.holds + [None])
    ensures v.state in {Inactive, Active, Destroyed, Activating} ==>
      Happen(Happen(v, Load), Restore(|v.holds|)) == v.(holds := v.holds + [None])
  {
  }

  function WorkSteps(id: Id, k: nat, works: seq<Work>): (r: seq<Step>)
    ensures |r| == |works|
  {
    seq(|works|, i requires 0 <= i < |works| => Working(id, k, works[i]))
  }

  lemma {:induction false} WorkRuns(n: Node, id: Id, k: nat, works: seq<Work>)
    requires HasJob(n, id, k)
    ensures Run(n, WorkSteps(id, k, works)) == n.(servers := n.servers[id := DoAll(n.servers[id], k, works)])
  {
    hide Do;
    if works == [] {
      assert n.servers[id := n.servers[id]] == n.servers;
    } else {
      var init, w := works[..|works| - 1], works[|works| - 1];
      WorkRuns(n, id, k, init);
      RunOneMore(n, WorkSteps(id, k, init), Working(id, k, w));
      assert WorkSteps(id, k, works) == WorkSteps(id, k, init) + [Working(id, k, w)];
    }
  }

  lemma AcceptedIsTaken(n: Node, id: Id)
    requires id in n.servers && n.queue == [] && Key(id) !in n.patching
    requires n.servers[id].state in {Inactive, Active, Destroyed, Activating}
    ensures var v, k := n.servers[id], |n.servers[id].jobs|;
      Run(n, [Accepting(id, true), Push(id, k), Pop])
      == n.(servers := n.servers[id := Server(BatchPatching, v.state, 0, v.ok, v.holds,
                                              v.jobs + [Job(v.state, Taken)])])
  {
    hide Run, Key;
    var v, k := n.servers[id], |n.servers[id].jobs|;
    var s0, s1, s2 := Accepting(id, true), Push(id, k), Pop;
    RequestByState(n, id, true);
    RunStep(n, s0);
    RunOneMore(n, [s0], s1);
    RunOneMore(n, [s0, s1], s2);
    assert [s0] + [s1] == [s0, s1] && [s0, s1] + [s2] == [s0, s1, s2];
    var n2 := Next(Next(n, s0), s1);
    assert n2.queue == [Item(id, k)] && n2.patching - {Key(id)} == n.patching;
    assert n2.servers[id].jobs == v.jobs + [Job(v.state, Queued)];
    assert (v.jobs + [Job(v.state, Queued)])[k := Job(v.state, Taken)] == v.jobs + [Job(v.state, Taken)];
  }

  /** Main result: the round trip of one patch. Accepted in any of the four states, queued, taken and executed with any
      progress, it leaves its server in the state it was found in, at 100 percent, and successful iff the result is 0.
  */
  lemma PatchRoundTrip(n: Node, id: Id, progress: seq<int>, ret: int)
    requires id in n.servers && n.queue == [] && Key(id) !in n.patching
    requires n.servers[id].state in {Inactive, Active, Destroyed, Activating}
    ensures var v, k := n.servers[id], |n.servers[id].jobs|;
      var works := [Begin] + Reports(progress) + [Judge(ret)] + [Finish] + [Release];
      Run(n, [Accepting(id, true), Push(id, k), Pop] + WorkSteps(id, k, works))
      == n.(servers := n.servers[id := Server(v.state, v.state, 100, ret == 0, v.holds,
                                              v.jobs + [Job(v.state, Over(ret))])])
  {
    var v, k := n.servers[id], |n.servers[id].jobs|;
    var works := [Begin] + Reports(progress) + [Judge(ret)] + [Finish] + [Release];
    var first := [Accepting(id, true), Push(id, k), Pop];
    hide Run, Key, Reports, DoAll, WorkSteps, Next;
    AcceptedIsTaken(n, id);
    var mid := Run(n, first);
    RunTwo(n, first, WorkSteps(id, k, works));
    WorkRuns(mid, id, k, works);
    ExecutionByItself(mid.servers[id], k, progress, ret);
    assert (v.jobs + [Job(v.state, Taken)])[k := Job(v.state, Over(ret))] == v.jobs + [Job(v.state, Over(ret))];
  }

  /** The patches that enter the queue in a run, in order. */
  function Entered(n: Node, steps: seq<Step>): seq<Item> {
    if steps == [] then []
    else
      var init, s := steps[..|steps| - 1], steps[|steps| - 1];
      var before := Run(n, init);
      Entered(n, init) + if s.Push? && |Next(before, s).queue| > |before.queue| then [Item(s.id, s.k)] else []
  }

  /** Patches leave the queue in the order in which they entered it: what is left is the latest of them. */
  lemma {:induction false} FirstInFirstOut(n: Node, steps: seq<Step>) returns (gone: nat)
    ensures gone <= |n.queue + Entered(n, steps)| && Run(n, steps).queue == (n.queue + Entered(n, steps))[gone..]
  {
    gone := 0;
    if steps != [] {
      var init, s := steps[..|steps| - 1], steps[|steps| - 1];
      gone := FirstInFirstOut(n, init);
      StepOnQueue(Run(n, init), s);
      assert Run(n, steps) == Next(Run(n, init), s);
      var all := n.queue + Entered(n, init);
      if Run(n, steps).queue == Run(n, init).queue {
        assert Entered(n, steps) == Entered(n, init);
      } else if s.Push? {
        assert n.queue + Entered(n, steps) == all + [Item(s.id, s.k)];
        assert (all + [Item(s.id, s.k)])[gone..] == all[gone..] + [Item(s.id, s.k)];
      } else {
        assert Entered(n, steps) == Entered(n, init);
        gone := gone + 1;
      }
    }
  }

  lemma StepOnQueue(n: Node, s: Step)
    ensures var q := Next(n, s).queue;
      q == n.queue || (s.Push? && q == n.queue + [Item(s.id, s.k)]) || (s == Pop && n.queue != [] && q == n.queue[1..])
  {
  }

  // ----- the poller's loop -----

  /** The answers of the node in the time the poller has, one a second; a call that fails gives none. */
  datatype Answer = Answer(ret: int, percent: int, ok: bool) | NoAnswer

  function VerdictOf(a: Answer): Verdict {
    if a.NoAnswer? then Again else Judgement(a.ret, a.percent, a.ok)
  }

  /** The first answer that is not "again" gives the verdict. */
  ghost predicate Decides(answers: seq<Answer>, verdict: Verdict) {
    exists i :: 0 <= i < |answers| && VerdictOf(answers[i]) == verdict != Again
                && forall j :: 0 <= j < i ==> VerdictOf(answers[j]) == Again
  }

  /** The poller succeeds exactly when the first decisive answer in time is a success. */
  method WaitForPatch(answers: seq<Answer>) returns (success: bool)
    ensures success <==> Decides(answers, Success)
  {
    var i := 0;
    while i < |answers|
      invariant 0 <= i <= |answers|
      invariant forall j :: 0 <= j < i ==> VerdictOf(answers[j]) == Again
    {
      if answers[i].Answer? {
        if answers[i].ret != 0 {
          return false;
        }
        if answers[i].percent == 100 && answers[i].ok {
          return true;
        }
      }
      i := i + 1;
    }
    return false;
  }

  /** Each answer is one the node gives in some state of the run. */
  ghost predicate AnswersFrom(n: Node, steps: seq<Step>, id: Id, answers: seq<Answer>) {
    forall i :: 0 <= i < |answers| && answers[i].Answer? ==> exists t: nat :: GivenAt(n, steps, id, answers[i], t)
  }

  predicate GivenAt(n: Node, steps: seq<Step>, id: Id, a: Answer, t: nat) {
    a.Answer? && t <= |steps| && id in Run(n, steps[..t]).servers
    && AnswerOf(Run(n, steps[..t]).servers[id]) == (a.ret, a.percent, a.ok)
  }

  predicate EndedWith(p: Phase, ret: int) {
    (p.Finished? || p.Over?) && p.ret == ret
  }

  lemma StepKeepsOutcome(n: Node, s: Step, id: Id, k: nat)
    requires HasJob(n, id, k)
    ensures HasJob(Next(n, s), id, k) && |Next(n, s).servers[id].jobs| >= |n.servers[id].jobs|
    ensures var p, p' := PhaseOf(n, id, k), PhaseOf(Next(n, s), id, k);
      (p.Finished? || p.Over? ==> EndedWith(p', p.ret)) && (p.Over? ==> p'.Over?)
  {
    var v, v' := n.servers[id], Next(n, s).servers[id];
    match s {
      case Accepting(id', valid) => assert v' == v || v' == Accept(v, valid);
      case Push(id', k') =>
      case Pop => assert v' == v || (var k' := n.queue[0].k; k' < |v.jobs| && v' == Move(v, k', Taken));
      case Working(id', k', work) => assert v' == v || (k' < |v.jobs| && v' == Do(v, k', work));
      case Happening(id', event) => assert v' == v || v' == Happen(v, event);
    }
  }

  lemma {:induction false} RunKeepsOutcome(n: Node, steps: seq<Step>, id: Id, k: nat)
    requires HasJob(n, id, k)
    ensures HasJob(Run(n, steps), id, k) && |Run(n, steps).servers[id].jobs| >= |n.servers[id].jobs|
    ensures var p, p' := PhaseOf(n, id, k), PhaseOf(Run(n, steps), id, k);
      (p.Finished? || p.Over? ==> EndedWith(p', p.ret)) && (p.Over? ==> p'.Over?)
  {
    hide Next;
    if steps != [] {
      var init := steps[..|steps| - 1];
      RunKeepsOutcome(n, init, id, k);
      StepKeepsOutcome(Run(n, init), steps[|steps| - 1], id, k);
    }
  }

  lemma QuietLess(n: Node, steps: seq<Step>, t: nat)
    requires QuietRun(n, steps) && t <= |steps|
    ensures QuietRun(n, steps[..t])
  {
    hide Run;
    assert forall i :: 0 <= i < t ==> steps[..t][..i] == steps[..i];
  }

  /** One decisive answer is about the latest patch accepted before it, and what it says stays true. */
  lemma AnswerIsAboutLatest(n: Node, steps: seq<Step>, id: Id, a: Answer, t: nat)
    requires Inv(n) && QuietRun(n, steps) && id in n.servers && n.servers[id].jobs != []
    requires id in Run(n, steps).servers && |Run(n, steps).servers[id].jobs| == |n.servers[id].jobs|
    requires GivenAt(n, steps, id, a, t)
    ensures var k := |n.servers[id].jobs| - 1;
      && HasJob(Run(n, steps), id, k)
      && (VerdictOf(a).Success? ==> EndedWith(PhaseOf(Run(n, steps), id, k), 0))
      && (VerdictOf(a).Failure? ==> var p := PhaseOf(Run(n, steps), id, k); p.Over? && p.ret != 0)
  {
    hide Inv, Run, QuietRun;
    var k := |n.servers[id].jobs| - 1;
    RunTwo(n, steps[..t], steps[t..]);
    assert steps[..t] + steps[t..] == steps;
    RunKeepsOutcome(n, steps[..t], id, k);
    RunKeepsOutcome(Run(n, steps[..t]), steps[t..], id, k);
    QuietLess(n, steps, t);
    PollTellsTheTruth(n, steps[..t], id);
  }

  /** Main result: if no later patch of its server is accepted while it waits, a poller that succeeds in a quiet run
      has seen its own patch end with 0, and one that is told of a failure has seen it end otherwise. */
  lemma PollerSeesItsPatch(n: Node, steps: seq<Step>, id: Id, answers: seq<Answer>)
    requires Inv(n) && QuietRun(n, steps) && id in n.servers && n.servers[id].jobs != []
    requires id in Run(n, steps).servers && |Run(n, steps).servers[id].jobs| == |n.servers[id].jobs|
    requires AnswersFrom(n, steps, id, answers)
    ensures var k := |n.servers[id].jobs| - 1;
      && HasJob(Run(n, steps), id, k)
      && (Decides(answers, Success) ==> EndedWith(PhaseOf(Run(n, steps), id, k), 0))
      && (Decides(answers, Failure) ==> var p := PhaseOf(Run(n, steps), id, k); p.Over? && p.ret != 0)
  {
    hide Inv, Run, QuietRun, GivenAt;
    RunKeepsOutcome(n, steps, id, |n.servers[id].jobs| - 1);
    forall i | 0 <= i < |answers| && VerdictOf(answers[i]) != Again
      ensures var p := PhaseOf(Run(n, steps), id, |n.servers[id].jobs| - 1);
        (VerdictOf(answers[i]).Success? ==> EndedWith(p, 0))
        && (VerdictOf(answers[i]).Failure? ==> p.Over? && p.ret != 0)
    {
      var t: nat :| GivenAt(n, steps, id, answers[i], t);
      AnswerIsAboutLatest(n, steps, id, answers[i], t);
    }
  }

  // ----- the objects -----

  class ServerObject {
    var state: State
    var lastState: State
    var enabled: bool
    var percent: int
    var succ: bool
    var holds: seq<Option<State>>
    ghost var jobs: seq<Job>

    ghost function Value(): Server
      reads this
    {
      Server(state, lastState, percent, succ, holds, jobs)
    }

    method SetPatchPercent(iPercent: int)
      modifies this`percent
      ensures percent <= 99 && (iPercent <= 99 ==> percent == iPercent) && (iPercent > 99 ==> percent == 99)
    {
      percent := if iPercent > 99 then 99 else iPercent;
    }

    method SetPatched()
      modifies this`percent
      ensures percent == 100
    {
      percent := 100;
    }

    /** The locked part of accepting a patch request. */
    method PatchPro(valid: bool) returns (accepted: bool)
      modifies this
      ensures Value() == Accept(old(Value()), valid)
      ensures accepted <==> valid && old(state) in {Inactive, Active, Destroyed, Activating}
    {
      if Busy(state) && state != Activating {
        return false;
      }
      if !valid {
        return false;
      }
      lastState := state;
      state := BatchPatching;
      SetPatchPercent(0);
      jobs := jobs + [Job(lastState, Accepted)];
      return true;
    }

    /** A worker thread executes a taken patch; `downloaded` are the percentages reported on the way, `ret` what the
        download, the unpacking and the report to the registry come to. */
    method DoPatchRequest(ghost k: nat, downloaded: seq<int>, ret: int)
      requires k < |jobs| && jobs[k].phase == Taken
      modifies this
      ensures Value() == Executed(old(Value()), k, ret)
      ensures Value() == DoAll(old(Value()), k, [Begin] + Reports(downloaded) + [Judge(ret)] + [Finish] + [Release])
    {
      ExecutionByItself(Value(), k, downloaded, ret);
      var back := lastState;
      state := BatchPatching;
      SetPatchPercent(0);
      succ := true;
      for i := 0 to |downloaded|
        invariant Value() == old(Value()).(state := BatchPatching, percent := percent, ok := true)
      {
        SetPatchPercent(downloaded[i]);
      }
      succ := ret == 0;
      SetPatched();
      state := back;
      jobs := jobs[k := jobs[k].(phase := Over(ret))];
    }

    method GetPatchPercent() returns (ret: int, iPercent: int, bSucc: bool)
      ensures (ret, iPercent, bSucc) == AnswerOf(Value())
      ensures ret == -1 || ret == 0
      ensures ret == -1 <==> !succ && state !in {Patching, BatchPatching}
    {
      iPercent, bSucc := percent, succ;
      if bSucc || state == Patching || state == BatchPatching {
        ret := 0;
      } else {
        ret := -1;
      }
    }

    method KeepAlive(pid: int)
      modifies this
      ensures Value() == if pid <= 0 then old(Value()) else Happen(old(Value()), Heartbeat)
    {
      if pid > 0 && (!Busy(state) || state == Activating) {
        state := Active;
      }
    }

    method KeepActiving(pid: int)
      modifies this
      ensures Value() == if pid <= 0 then old(Value()) else Happen(old(Value()), KeepActivating)
    {
      if pid > 0 {
        state := Activating;
      }
    }

    /** May the server be started? Says so only when the start goes ahead. */
    method CanStart(byNode: bool, found: bool) returns (executable: bool)
      modifies this
      ensures Value() == if byNode || old(enabled) then Happen(old(Value()), Start(found)) else old(Value())
      ensures executable == ((byNode || old(enabled)) && old(state) == Inactive && found)
      ensures enabled == (byNode || old(enabled))
    {
      if byNode {
        enabled := true;
      } else if !enabled {
        return false;
      }
      if state != Inactive {
        return false;
      }
      if !found {
        SetPatched();
        return false;
      }
      SetPatched();
      state := Activating;
      return true;
    }

    method StartFinish(bSucc: bool)
      modifies this
      ensures Value() == if bSucc then old(Value()) else Happen(old(Value()), WentInactive)
    {
      if !bSucc {
        state := Inactive;
      }
    }

    method CanStop(byNode: bool, idle: nat) returns (executable: bool)
      modifies this
      ensures Value() == Happen(old(Value()), Stop(idle)) && executable == MayStop(old(Value()), idle)
      ensures enabled == (old(enabled) && !byNode)
    {
      if byNode {
        enabled := false;
      }
      if state == Inactive || state == Destroying {
        return false;
      }
      if state == Patching || state == BatchPatching {
        var times := if state == BatchPatching then 10 * 60 else 10;
        if idle < times {
          return false;
        }
      }
      state := Deactivating;
      return true;
    }

    /** The check of a process, as far as it decides on the state by itself. */
    method CheckServer(alive: bool, startTimedOut: bool)
      modifies this
      ensures Value() == if alive then old(Value()) else Happen(old(Value()), Dead(startTimedOut))
    {
      if !alive && state != Inactive && !(state == Activating && !startTimedOut)
         && !(state == Patching || state == BatchPatching) {
        state := Inactive;
      }
    }

    /** Loading the configuration: the state before is kept and restored when the command object goes. */
    method CanLoad() returns (executable: bool)
      modifies this
      ensures Value() == Happen(old(Value()), Load)
      ensures executable <==> old(state) in {Inactive, Active, Destroyed, Activating}
    {
      if Busy(state) && state != Activating {
        return false;
      }
      holds := holds + [Some(state)];
      state := Loading;
      return true;
    }

    method CanAddFile()
      modifies this
      ensures Value() == Happen(old(Value()), AddFile)
    {
      holds := holds + [Some(state)];
      state := AddFilesing;
    }

    method RestoreState(h: nat)
      requires h < |holds| && holds[h].Some?
      modifies this
      ensures Value() == Happen(old(Value()), Restore(h))
    {
      state := holds[h].value;
      holds := holds[h := None];
    }
  }

  /** The queue of accepted patches and the set of their keys. */
  class BatchPatch {
    var patchQueue: seq<Item>
    var patchIng: set<string>

    ghost predicate Holds(n: Node)
      reads this
    {
      patchQueue == n.queue && patchIng == n.patching
    }

    method PushBack(ghost n: Node, id: Id, k: nat) returns (queued: bool)
      requires Holds(n) && HasJob(n, id, k)
      modifies this
      ensures Holds(Pushed(n, id, k)) && queued == (Key(id) !in n.patching)
    {
      if Key(id) in patchIng {
        return false;
      }
      patchQueue := patchQueue + [Item(id, k)];
      patchIng := patchIng + {Key(id)};
      return true;
    }

    method PopFront(ghost n: Node) returns (item: Option<Item>)
      requires Holds(n)
      modifies this
      ensures Holds(Popped(n)) && item == if n.queue == [] then None else Some(n.queue[0])
    {
      if patchQueue == [] {
        return None;
      }
      item := Some(patchQueue[0]);
      patchQueue := patchQueue[1..];
      patchIng := patchIng - {Key(item.value.id)};
    }
  }
}
