/** The elegant task list of the admin registry: the items of a task are executed in slices. The traffic of a whole
    slice is stopped, its items are executed by a pool of threads, and only then the next slice begins; meanwhile the
    task may be cancelled. */
module ElegantTask {
  import opened Basics

  datatype Status = NotStart | Prepare | PauseFlow | Running | Success | Failed | Cancelled

  /** What is asked for: which items are patches (they have to be prepared), how many items make a slice, and whether
      the items should be executed one by one. */
  datatype Plan = Plan(patch: seq<bool>, eachNum: nat, serial: bool)

  /** Where the task stands: preparing item k, about to begin the slice at i, or in that slice with some of its items
      waiting for a thread. */
  datatype Phase = Preparing(k: nat) | Looping(i: nat) | Slicing(i: nat, waiting: set<nat>) | Ended | Unprepared

  /** A task, with how often each item was started, the items being executed, the number of items taken into slices
      so far, and the items that a cancellation found not started. */
  datatype Task = Task(items: seq<Status>, canceled: bool, phase: Phase,
                       starts: seq<nat>, running: set<nat>, begun: nat, dropped: set<nat>)

  /** The number of threads. */
  function Workers(p: Plan): (r: nat)
    ensures p.eachNum == 0 ==> r == 1
    ensures 1 <= p.eachNum <= 5 ==> r == p.eachNum
    ensures p.eachNum >= 5 ==> r == 5
  {
    if p.eachNum > 5 then 5 else if p.eachNum < 1 then 1 else p.eachNum
  }

  // ----- steps -----

  datatype Step = PrepareNext | PrepareFails | Cancel | NextSlice | Start(j: nat) | End(j: nat, ok: bool) | SliceDone

  function CancelItems(items: seq<Status>): seq<Status> {
    seq(|items|, j requires 0 <= j < |items| => if items[j] == NotStart then Cancelled else items[j])
  }

  function Paused(items: seq<Status>, lo: nat, hi: nat): seq<Status> {
    seq(|items|, j requires 0 <= j < |items| => if lo <= j < hi then PauseFlow else items[j])
  }

  predicate Within(lo: nat, j: nat, hi: nat) {
    lo <= j < hi
  }

  function Range(lo: nat, hi: nat): set<nat> {
    set j: nat | j < hi && Within(lo, j, hi)
  }

  function CancelTask(t: Task): Task {
    if NotStart in t.items
    then t.(items := CancelItems(t.items), canceled := true,
            dropped := t.dropped + set j: nat | j < |t.items| && t.items[j] == NotStart)
    else t
  }

  function BeginSlice(p: Plan, t: Task, i: nat): Task {
    var n := |t.items|;
    if i >= n || p.serial || t.canceled then t.(phase := Ended)
    else
      var hi := Min(i + p.eachNum, n);
      t.(items := Paused(t.items, i, hi), phase := Slicing(i, Range(i, hi)), begun := hi)
  }

  function StartItem(p: Plan, t: Task, j: nat): Task
    requires t.phase.Slicing?
  {
    if j in t.phase.waiting && |t.running| < Workers(p) && j < |t.items| && j < |t.starts|
    then t.(items := t.items[j := Running], phase := Slicing(t.phase.i, t.phase.waiting - {j}),
            starts := t.starts[j := t.starts[j] + 1], running := t.running + {j})
    else t
  }

  function EndItem(t: Task, j: nat, ok: bool): Task {
    if j in t.running && j < |t.items|
    then t.(items := t.items[j := if ok then Success else Failed], running := t.running - {j})
    else t
  }

  function Next(p: Plan, t: Task, s: Step): Task {
    match (t.phase, s)
    case (Preparing(k), PrepareNext) =>
      if k >= |t.items| then t.(phase := Looping(0))
      else if k < |p.patch| && p.patch[k] then t.(items := t.items[k := Prepare], phase := Preparing(k + 1))
      else t.(phase := Preparing(k + 1))
    case (Preparing(k), PrepareFails) => t.(items := seq(|t.items|, j => Failed), phase := Unprepared)
    case (_, Cancel) => CancelTask(t)
    case (Looping(i), NextSlice) => BeginSlice(p, t, i)
    case (Slicing(i, waiting), Start(j)) => StartItem(p, t, j)
    case (Slicing(i, waiting), End(j, ok)) => EndItem(t, j, ok)
    case (Slicing(i, waiting), SliceDone) =>
      if waiting == {} && t.running == {} then t.(phase := Looping(i + p.eachNum)) else t
    case (_, _) => t
  }

  function Run(p: Plan, t: Task, steps: seq<Step>): Task {
    if steps == [] then t else Next(p, Run(p, t, steps[..|steps| - 1]), steps[|steps| - 1])
  }

  function New(p: Plan): Task {
    Task(seq(|p.patch|, j => NotStart), false, Preparing(0), seq(|p.patch|, j => 0), {}, 0, {})
  }

  // ----- the invariant -----

  predicate InFlight(s: Status) {
    s == PauseFlow || s == Running
  }

  predicate Final(s: Status) {
    s == Success || s == Failed
  }

  function Waiting(t: Task): set<nat> {
    if t.phase.Slicing? then t.phase.waiting else {}
  }

  /** Where the loop stands agrees with the number of items taken into slices. */
  predicate PhaseInv(p: Plan, t: Task) {
    match t.phase
    case Preparing(k) => t.begun == 0 && k <= |t.items|
    case Looping(i) => t.begun == Min(i, |t.items|)
    case Slicing(i, waiting) => i < |t.items| && t.begun == Min(i + p.eachNum, |t.items|)
    case Ended => t.begun == |t.items| || p.serial || t.canceled
    case Unprepared => t.begun == 0
  }

  /** An item before its slice: a prepared patch or not started, as long as nobody cancels. */
  predicate Untouched(p: Plan, t: Task, j: nat)
    requires j < |t.items| == |p.patch|
  {
    t.phase.Unprepared? || t.canceled
    || t.items[j] == if p.patch[j] && (t.phase.Preparing? ==> j < t.phase.k) then Prepare else NotStart
  }

  /** Items of earlier slices are done, those of the present slice wait, run or are done, the others are untouched. */
  ghost predicate ItemInv(p: Plan, t: Task, j: nat)
    requires j < |t.items| == |t.starts| == |p.patch|
  {
    if j >= t.begun then Untouched(p, t, j) && t.starts[j] == 0 && !InFlight(t.items[j])
                         && (t.phase.Unprepared? || !Final(t.items[j])) && j !in Waiting(t) && j !in t.running
    else
      && j !in t.dropped
      && if j in Waiting(t) then t.starts[j] == 0 && t.items[j] == PauseFlow && j !in t.running && j >= t.phase.i
         else if j in t.running then t.starts[j] == 1 && t.items[j] == Running && t.phase.Slicing? && j >= t.phase.i
         else t.starts[j] == 1 && Final(t.items[j])
  }

  ghost predicate Below(s: set<nat>, n: nat) {
    forall j :: j in s ==> j < n
  }

  ghost predicate ItemsInv(p: Plan, t: Task)
    requires |t.items| == |t.starts| == |p.patch|
  {
    forall j :: 0 <= j < |t.items| ==> ItemInv(p, t, j)
  }

  ghost predicate Inv(p: Plan, t: Task) {
    && |t.items| == |t.starts| == |p.patch| && t.begun <= |t.items|
    && PhaseInv(p, t)
    && (t.canceled <==> t.dropped != {}) && (p.serial ==> t.begun == 0)
    && Below(Waiting(t), |t.items|) && Below(t.running, |t.items|) && Below(t.dropped, |t.items|)
    && |t.running| <= Workers(p)
    && ItemsInv(p, t)
  }

  lemma CancelKeepsInv(p: Plan, t: Task)
    requires Inv(p, t)
    ensures Inv(p, CancelTask(t))
    ensures CancelTask(t).begun == t.begun
  {
    var t' := CancelTask(t);
    if NotStart in t.items {
      var k :| 0 <= k < |t.items| && t.items[k] == NotStart;
      assert k in t'.dropped;
      forall j | 0 <= j < |t.items| ensures ItemInv(p, t', j) { assert ItemInv(p, t, j); }
      assert ItemsInv(p, t');
      hide ItemsInv;
    }
  }

  lemma SliceKeepsInv(p: Plan, t: Task, i: nat)
    requires p.eachNum >= 1 && Inv(p, t) && t.phase == Looping(i)
    ensures Inv(p, BeginSlice(p, t, i))
  {
    var t' := BeginSlice(p, t, i);
    forall j | 0 <= j < |t.items| ensures ItemInv(p, t', j) {
      assert ItemInv(p, t, j);
      if t'.phase.Slicing? && i <= j < t'.begun { assert t.dropped == {}; }
    }
  }

  lemma StartKeepsItem(p: Plan, t: Task, j0: nat, j: nat)
    requires t.phase.Slicing? && j < |t.items| == |t.starts| == |p.patch| && j0 < |t.items|
    requires ItemInv(p, t, j) && ItemInv(p, t, j0)
    ensures |StartItem(p, t, j0).items| == |StartItem(p, t, j0).starts| == |p.patch|
    ensures ItemInv(p, StartItem(p, t, j0), j)
  {
    hide Workers;
  }

  lemma StartKeepsItems(p: Plan, t: Task, j0: nat)
    requires t.phase.Slicing? && j0 < |t.items| == |t.starts| == |p.patch| && ItemsInv(p, t)
    ensures ItemsInv(p, StartItem(p, t, j0))
  {
    var t' := StartItem(p, t, j0);
    hide ItemInv, StartItem, Workers;
    forall j | 0 <= j < |t'.items| ensures ItemInv(p, t', j) { StartKeepsItem(p, t, j0, j); }
  }

  lemma StartKeepsInv(p: Plan, t: Task, j0: nat)
    requires Inv(p, t) && t.phase.Slicing?
    ensures Inv(p, StartItem(p, t, j0))
  {
    hide ItemsInv, Workers, ItemInv;
    if j0 < |t.items| { StartKeepsItems(p, t, j0); }
    if j0 in t.phase.waiting && |t.running| < Workers(p) {
      assert j0 in Waiting(t);
      assert |t.running + {j0}| <= |t.running| + 1;
    }
  }

  lemma EndKeepsItem(p: Plan, t: Task, j0: nat, ok: bool, j: nat)
    requires t.phase.Slicing? && j < |t.items| == |t.starts| == |p.patch| && j0 < |t.items|
    requires ItemInv(p, t, j) && ItemInv(p, t, j0)
    ensures ItemInv(p, EndItem(t, j0, ok), j)
  {
  }

  lemma EndKeepsInv(p: Plan, t: Task, j0: nat, ok: bool)
    requires Inv(p, t) && t.phase.Slicing?
    ensures Inv(p, EndItem(t, j0, ok))
  {
    if j0 < |t.items| {
      forall j | 0 <= j < |t.items| ensures ItemInv(p, EndItem(t, j0, ok), j) { EndKeepsItem(p, t, j0, ok, j); }
      assert ItemsInv(p, EndItem(t, j0, ok));
    }
    hide ItemInv, ItemsInv, Workers;
    if j0 in t.running { assert |t.running - {j0}| == |t.running| - 1; }
  }

  lemma StepKeepsInv(p: Plan, t: Task, s: Step)
    requires p.eachNum >= 1 && Inv(p, t)
    ensures Inv(p, Next(p, t, s))
  {
    var t' := Next(p, t, s);
    if s.Cancel? {
      CancelKeepsInv(p, t);
    } else if t.phase.Looping? && s.NextSlice? {
      SliceKeepsInv(p, t, t.phase.i);
    } else if t.phase.Slicing? && s.Start? {
      StartKeepsInv(p, t, s.j);
    } else if t.phase.Slicing? && s.End? {
      EndKeepsInv(p, t, s.j, s.ok);
    } else if t' != t {
      forall j | 0 <= j < |t.items| ensures ItemInv(p, t', j) { assert ItemInv(p, t, j); }
    }
  }

  lemma {:induction false} RunKeepsInv(p: Plan, t: Task, steps: seq<Step>)
    requires p.eachNum >= 1 && Inv(p, t)
    ensures Inv(p, Run(p, t, steps))
  {
    if steps != [] {
      RunKeepsInv(p, t, steps[..|steps| - 1]);
      StepKeepsInv(p, Run(p, t, steps[..|steps| - 1]), steps[|steps| - 1]);
    }
  }

  lemma NewInv(p: Plan)
    ensures Inv(p, New(p))
  {
  }

  // ----- what the scheduler promises -----

  /** Main result: at any time, in any run, no item has been started twice; the items whose traffic is stopped or that
      are being executed lie in the slice the loop is at, so they are at most eachNum in a row; and no more items are
      being executed than there are threads. */
  lemma OneSliceAtATime(p: Plan, steps: seq<Step>)
    requires p.eachNum >= 1
    ensures var t := Run(p, New(p), steps);
      && |t.items| == |t.starts| == |p.patch|
      && (forall j :: 0 <= j < |t.items| ==> t.starts[j] <= 1)
      && (forall j :: 0 <= j < |t.items| && InFlight(t.items[j]) ==>
            t.phase.Slicing? && t.phase.i <= j < t.phase.i + p.eachNum)
      && (forall j: nat :: j in t.running <==> j < |t.items| && t.items[j] == Running)
      && |t.running| <= Min(5, p.eachNum)
  {
    hide Run;
    NewInv(p);
    RunKeepsInv(p, New(p), steps);
    var t := Run(p, New(p), steps);
    forall j: nat | j < |t.items|
      ensures t.starts[j] <= 1 && (j in t.running <==> t.items[j] == Running)
      ensures InFlight(t.items[j]) ==> t.phase.Slicing? && t.phase.i <= j < t.phase.i + p.eachNum
    {
      assert ItemInv(p, t, j);
    }
  }

  /** Main result: when the loop is over, the items that were taken into slices have been executed exactly once and the
      others never, least of all one that a cancellation found not started; without a cancellation all items have. */
  lemma EndedTask(p: Plan, steps: seq<Step>)
    requires p.eachNum >= 1 && Run(p, New(p), steps).phase.Ended?
    ensures var t := Run(p, New(p), steps);
      && |t.items| == |t.starts| == |p.patch| && t.begun <= |t.items|
      && (forall j :: 0 <= j < t.begun ==> t.starts[j] == 1 && Final(t.items[j]) && j !in t.dropped)
      && (forall j :: t.begun <= j < |t.items| ==> t.starts[j] == 0 && !Final(t.items[j]))
      && (t.begun < |t.items| && !p.serial ==> t.canceled)
      && (p.serial ==> t.begun == 0)
  {
    hide Run;
    NewInv(p);
    RunKeepsInv(p, New(p), steps);
    var t := Run(p, New(p), steps);
    forall j | 0 <= j < |t.items|
      ensures j < t.begun ==> t.starts[j] == 1 && Final(t.items[j]) && j !in t.dropped
      ensures j >= t.begun ==> t.starts[j] == 0 && !Final(t.items[j])
    {
      assert ItemInv(p, t, j);
    }
  }

  /** A cancellation cancels the items that have not been started, drops them and no others, and the task with them if
      there are any. */
  lemma CancelByStatus(t: Task, j: nat)
    requires j < |t.items|
    ensures var t' := CancelTask(t);
      && |t'.items| == |t.items| && t'.items[j] == (if t.items[j] == NotStart then Cancelled else t.items[j])
      && (j in t'.dropped <==> j in t.dropped || t.items[j] == NotStart)
      && (t'.canceled <==> t.canceled || exists i :: 0 <= i < |t.items| && t.items[i] == NotStart)
      && t'.phase == t.phase && t'.starts == t.starts && t'.running == t.running && t'.begun == t.begun
  {
  }

  lemma CancelledStep(p: Plan, t: Task, s: Step)
    requires Inv(p, t) && t.canceled
    ensures var t' := Next(p, t, s);
      t'.canceled && t'.begun == t.begun && t.dropped <= t'.dropped && |t'.starts| == |t.starts|
  {
    hide ItemsInv, Workers, PhaseInv, CancelItems, Paused, Range, StartItem, EndItem, CancelTask, BeginSlice;
    CancelDrops(t);
    if t.phase.Looping? { CancelledEnds(p, t, t.phase.i); }
    if t.phase.Slicing? && s.Start? { StartKeepsRest(p, t, s.j); }
    if s.End? { EndKeepsRest(t, s.j, s.ok); }
  }

  lemma CancelDrops(t: Task)
    ensures var t' := CancelTask(t);
      (t.canceled ==> t'.canceled) && t'.begun == t.begun && t.dropped <= t'.dropped && t'.starts == t.starts
  {
  }

  lemma CancelledEnds(p: Plan, t: Task, i: nat)
    requires t.canceled
    ensures BeginSlice(p, t, i) == t.(phase := Ended)
  {
  }

  lemma StartKeepsRest(p: Plan, t: Task, j: nat)
    requires t.phase.Slicing?
    ensures var t' := StartItem(p, t, j);
      t'.canceled == t.canceled && t'.begun == t.begun && t'.dropped == t.dropped && |t'.starts| == |t.starts|
  {
  }

  lemma EndKeepsRest(t: Task, j: nat, ok: bool)
    ensures var t' := EndItem(t, j, ok);
      t'.canceled == t.canceled && t'.begun == t.begun && t'.dropped == t.dropped && t'.starts == t.starts
  {
  }

  lemma DroppedNeverStarted(p: Plan, t: Task, j: nat)
    requires Inv(p, t) && j in t.dropped
    ensures j < |t.starts| && t.starts[j] == 0
  {
    assert ItemInv(p, t, j);
  }

  /** Once a cancellation has taken effect, no further slice begins, whatever happens; what it found not started is
      never executed. */
  lemma {:induction false} CancelledForGood(p: Plan, t: Task, more: seq<Step>)
    requires p.eachNum >= 1 && Inv(p, t) && t.canceled
    ensures var t' := Run(p, t, more);
      && t'.canceled && t'.begun == t.begun && t.dropped <= t'.dropped && |t'.starts| == |t.starts|
      && forall j :: j in t.dropped ==> j < |t'.starts| && t'.starts[j] == 0
  {
    hide Inv, Next;
    RunKeepsInv(p, t, more);
    if more != [] {
      CancelledForGood(p, t, more[..|more| - 1]);
      RunKeepsInv(p, t, more[..|more| - 1]);
      CancelledStep(p, Run(p, t, more[..|more| - 1]), more[|more| - 1]);
    }
    var t' := Run(p, t, more);
    forall j | j in t.dropped ensures j < |t'.starts| && t'.starts[j] == 0 { DroppedNeverStarted(p, t', j); }
  }

  // ----- what an item's status says -----

  /** In the run, item j was in execution when its thread reported this outcome. */
  ghost predicate Reported(p: Plan, steps: seq<Step>, j: nat, ok: bool) {
    exists i :: 0 <= i < |steps| && steps[i] == End(j, ok) && j in Run(p, New(p), steps[..i]).running
  }

  /** Main result, whole runs: an item stands at success exactly if its thread has reported that, at failure exactly if
      the thread has reported that or the preparation of the task has failed, and neither ever changes again. */
  lemma {:induction false} StatusIsReported(p: Plan, steps: seq<Step>, j: nat)
    requires p.eachNum >= 1 && j < |p.patch|
    ensures var t := Run(p, New(p), steps);
      && |t.items| == |p.patch|
      && (t.items[j] == Success <==> Reported(p, steps, j, true))
      && (t.items[j] == Failed <==> Reported(p, steps, j, false) || t.phase == Unprepared)
  {
    hide Inv, Reported, Next;
    NewInv(p);
    RunKeepsInv(p, New(p), steps);
    SizedItems(p, Run(p, New(p), steps));
    if steps == [] {
      NothingReported(p, j);
    } else {
      var init, s := steps[..|steps| - 1], steps[|steps| - 1];
      StatusIsReported(p, init, j);
      RunKeepsInv(p, New(p), init);
      var t := Run(p, New(p), init);
      StatusStep(p, t, s, j);
      OneMoreReport(p, init, s, j, true);
      OneMoreReport(p, init, s, j, false);
      assert steps == init + [s];
    }
  }

  lemma SizedItems(p: Plan, t: Task)
    requires Inv(p, t)
    ensures |t.items| == |p.patch|
  {
  }

  lemma NothingReported(p: Plan, j: nat)
    requires j < |p.patch|
    ensures New(p).items[j] == NotStart && New(p).phase == Preparing(0) && Run(p, New(p), []) == New(p)
    ensures !Reported(p, [], j, true) && !Reported(p, [], j, false)
  {
  }

  lemma OneMoreReport(p: Plan, init: seq<Step>, s: Step, j: nat, ok: bool)
    ensures Reported(p, init + [s], j, ok) <==>
      Reported(p, init, j, ok) || (s == End(j, ok) && j in Run(p, New(p), init).running)
  {
    var all := init + [s];
    assert all[..|init|] == init && all[|init|] == s;
    assert forall i :: 0 <= i < |init| ==> all[i] == init[i] && all[..i] == init[..i];
    hide Run;
    if Reported(p, init, j, ok) {
      var i :| 0 <= i < |init| && init[i] == End(j, ok) && j in Run(p, New(p), init[..i]).running;
      assert all[i] == End(j, ok) && j in Run(p, New(p), all[..i]).running;
    }
  }

  /** What a step does to the status of an item. */
  ghost predicate StatusMoves(t: Task, s: Step, t': Task, j: nat) {
    && j < |t.items| == |t'.items| && (t.phase == Unprepared ==> t'.phase == Unprepared)
    && (t'.items[j] == Success <==> t.items[j] == Success || (s == End(j, true) && j in t.running))
    && (t'.items[j] == Failed <==>
          t.items[j] == Failed || t'.phase == Unprepared || (s == End(j, false) && j in t.running))
  }

  lemma StatusStep(p: Plan, t: Task, s: Step, j: nat)
    requires p.eachNum >= 1 && Inv(p, t) && j < |t.items| && (t.phase == Unprepared ==> t.items[j] == Failed)
    ensures StatusMoves(t, s, Next(p, t, s), j)
  {
    NotFinalYet(p, t, j);
    hide Inv;
    match (t.phase, s)
    case (Preparing(k), PrepareNext) =>
    case (Preparing(k), PrepareFails) =>
    case (_, Cancel) => CancelByStatus(t, j); hide CancelTask;
    case (Looping(i), NextSlice) => SliceByStatus(p, t, i, j); hide BeginSlice;
    case (Slicing(i, waiting), Start(j0)) => StartByStatus(p, t, j0, j); hide StartItem;
    case (Slicing(i, waiting), End(j0, ok)) => EndByStatus(t, j0, ok, j); hide EndItem;
    case (_, _) =>
  }

  lemma NotFinalYet(p: Plan, t: Task, j: nat)
    requires Inv(p, t) && j < |t.items|
    ensures t.phase.Preparing? || (t.phase.Looping? && j >= t.phase.i) ==> !Final(t.items[j])
    ensures t.phase.Slicing? && j in t.phase.waiting ==> !Final(t.items[j])
    ensures j in t.running ==> t.phase.Slicing? && !Final(t.items[j])
  {
    assert ItemInv(p, t, j);
    hide ItemsInv, Workers, Untouched;
  }

  lemma SliceByStatus(p: Plan, t: Task, i: nat, j: nat)
    requires j < |t.items|
    ensures var t' := BeginSlice(p, t, i);
      && |t'.items| == |t.items| && t'.phase != Unprepared
      && (t'.items[j] == t.items[j] || (i <= j && !t.canceled && !p.serial && t'.items[j] == PauseFlow))
  {
  }

  lemma StartByStatus(p: Plan, t: Task, j0: nat, j: nat)
    requires t.phase.Slicing? && j < |t.items|
    ensures var t' := StartItem(p, t, j0);
      && |t'.items| == |t.items| && t'.phase.Slicing?
      && (t'.items[j] == t.items[j] || (j == j0 && j in t.phase.waiting && t'.items[j] == Running))
  {
    hide Workers;
  }

  lemma EndByStatus(t: Task, j0: nat, ok: bool, j: nat)
    requires t.phase.Slicing? && j < |t.items|
    ensures var t' := EndItem(t, j0, ok);
      && |t'.items| == |t.items| && t'.phase == t.phase
      && t'.items[j] == if j == j0 && j in t.running then (if ok then Success else Failed) else t.items[j]
  {
  }

  // ----- exactly when a cancellation works -----

  predicate Undisturbed(steps: seq<Step>) {
    forall i :: 0 <= i < |steps| ==> steps[i] != Cancel && steps[i] != PrepareFails
  }

  lemma {:induction false} RunFirst(p: Plan, t: Task, s: Step, steps: seq<Step>)
    ensures Run(p, t, [s] + steps) == Run(p, Next(p, t, s), steps)
  {
    if steps == [] {
      assert [s] + steps == [s];
      assert Run(p, t, [s]) == Next(p, Run(p, t, []), s);
    } else {
      var init := steps[..|steps| - 1];
      RunFirst(p, t, s, init);
      assert ([s] + steps)[..|steps|] == [s] + init;
    }
  }

  function Rank(t: Task): nat {
    match t.phase
    case Preparing(k) => 3
    case Slicing(_, _) => 2
    case Looping(_) => 1
    case _ => 0
  }

  function PreparingLeft(t: Task): nat {
    if t.phase.Preparing? && t.phase.k <= |t.items| then |t.items| - t.phase.k + 1 else 0
  }

  ghost predicate Closer(t: Task, t': Task) {
    PreparingLeft(t') < PreparingLeft(t) || (PreparingLeft(t') == PreparingLeft(t)
    && (t'.begun > t.begun || (t'.begun == t.begun
    && (Rank(t') < Rank(t) || (Rank(t') == Rank(t)
    && (Waiting(t') < Waiting(t) || (Waiting(t') == Waiting(t) && t'.running < t.running)))))))
  }

  ghost predicate Advances(p: Plan, t: Task, s: Step) {
    var t' := Next(p, t, s);
    Closer(t, t') && t'.canceled == t.canceled && |t'.items| == |t.items| && !t'.phase.Unprepared?
  }

  lemma EndAdvances(p: Plan, t: Task, j: nat)
    requires t.phase.Slicing? && j in t.running && j < |t.items|
    ensures Advances(p, t, End(j, true))
  {
    var t' := EndItem(t, j, true);
    assert Next(p, t, End(j, true)) == t' && t'.running == t.running - {j} && Waiting(t') == Waiting(t);
  }

  lemma StartAdvances(p: Plan, t: Task, j: nat)
    requires t.phase.Slicing? && j in t.phase.waiting && t.running == {} && j < |t.items| == |t.starts|
    ensures Advances(p, t, Start(j))
  {
    var t' := StartItem(p, t, j);
    assert Next(p, t, Start(j)) == t' && Waiting(t') == Waiting(t) - {j};
  }

  /** A step the scheduler can take by itself. */
  lemma Onward(p: Plan, t: Task) returns (s: Step)
    requires p.eachNum >= 1 && Inv(p, t) && !t.phase.Unprepared? && !t.phase.Ended?
    ensures Advances(p, t, s) && s != Cancel && s != PrepareFails
  {
    hide ItemsInv, Workers;
    match t.phase
    case Preparing(_) => s := PrepareNext;
    case Slicing(_, waiting) =>
      hide Advances;
      if j :| j in t.running {
        s := End(j, true);
        EndAdvances(p, t, j);
      } else if j :| j in waiting {
        s := Start(j);
        assert j in Waiting(t);
        StartAdvances(p, t, j);
      } else {
        s := SliceDone;
        SliceDoneAdvances(p, t);
      }
    case Looping(_) => s := NextSlice;
  }

  lemma SliceDoneAdvances(p: Plan, t: Task)
    requires t.phase.Slicing? && t.phase.waiting == {} && t.running == {}
    ensures Advances(p, t, SliceDone)
  {
  }

  /** The scheduler never gets stuck: left alone, it brings every task to its end. */
  lemma {:induction false} CanEnd(p: Plan, t: Task) returns (steps: seq<Step>)
    requires p.eachNum >= 1 && Inv(p, t) && !t.phase.Unprepared?
    ensures Undisturbed(steps) && Run(p, t, steps).phase.Ended? && Run(p, t, steps).canceled == t.canceled
    decreases PreparingLeft(t), |t.items| - t.begun, Rank(t), Waiting(t), t.running
  {
    hide Next, ItemsInv, PhaseInv, Run, Workers;
    if t.phase.Ended? {
      RunNone(p, t);
      return [];
    }
    var s := Onward(p, t);
    var t' := Next(p, t, s);
    StepKeepsInv(p, t, s);
    var rest := CanEnd(p, t');
    RunFirst(p, t, s, rest);
    steps := [s] + rest;
  }

  lemma RunNone(p: Plan, t: Task)
    ensures Run(p, t, []) == t
  {
  }

  /** An item that is still to come and has not been marked as prepared: it is no patch, or the preparation has not come
      to it. */
  predicate ToComeUnprepared(p: Plan, t: Task, j: nat)
    requires |t.items| == |p.patch|
  {
    t.begun <= j < |t.items| && (!p.patch[j] || (t.phase.Preparing? && j >= t.phase.k))
  }

  /** Main result: while items are left for further slices, a cancellation keeps the scheduler from beginning another
      slice exactly when one of them is no patch or still to be prepared. Prepared patches are not found not started,
      so a cancellation that meets nothing else does nothing. */
  lemma CancelStopsExactly(p: Plan, t: Task)
    requires p.eachNum >= 1 && !p.serial && Inv(p, t) && !t.canceled
    requires !t.phase.Unprepared? && t.begun < |t.items|
    ensures (forall more :: Run(p, CancelTask(t), more).begun == t.begun)
       <==> exists j: nat :: ToComeUnprepared(p, t, j)
  {
    CancelKeepsInv(p, t);
    if j: nat :| ToComeUnprepared(p, t, j) {
      assert ItemInv(p, t, j) && t.items[j] == NotStart;
      forall more ensures Run(p, CancelTask(t), more).begun == t.begun { CancelledForGood(p, CancelTask(t), more); }
    } else {
      forall j: nat | j < |t.items| ensures t.items[j] != NotStart {
        assert ItemInv(p, t, j) && !ToComeUnprepared(p, t, j);
      }
      assert CancelTask(t) == t;
      var more := CanEnd(p, t);
      RunKeepsInv(p, t, more);
      assert Run(p, CancelTask(t), more).begun == |t.items|;
    }
  }

  // ----- the task list object -----

  /** The answer kept for each item is updated in place, under the lock of the task list. */
  class TaskListElegant {
    const plan: Plan
    const items: array<Status>
    var canceled: bool
    ghost var phase: Phase
    ghost var starts: seq<nat>
    ghost var running: set<nat>
    ghost var begun: nat
    ghost var dropped: set<nat>

    ghost function Value(): Task
      reads this, items
    {
      Task(items[..], canceled, phase, starts, running, begun, dropped)
    }

    constructor (p: Plan)
      ensures fresh(items) && plan == p && Value() == New(p)
    {
      plan := p;
      items := new Status[|p.patch|](_ => NotStart);
      canceled, phase, starts, running, begun, dropped := false, Preparing(0), seq(|p.patch|, _ => 0), {}, 0, {};
      new;
      assert items[..] == New(p).items && starts == New(p).starts;
    }

    method CancelTask()
      modifies this, items
      ensures Value() == Next(plan, old(Value()), Cancel)
    {
      ghost var before := items[..];
      var cancelNum := 0;
      for i := 0 to items.Length
        invariant items[..i] == CancelItems(before)[..i] && items[i..] == before[i..]
        invariant canceled == old(canceled) && phase == old(phase) && starts == old(starts)
        invariant running == old(running) && begun == old(begun) && dropped == old(dropped)
        invariant cancelNum > 0 <==> NotStart in before[..i]
      {
        assert before[i..][0] == before[i] && before[..i + 1] == before[..i] + [before[i]];
        if items[i] == NotStart {
          items[i] := Cancelled;
          cancelNum := cancelNum + 1;
        }
      }
      assert before[..items.Length] == before;
      if cancelNum > 0 {
        canceled := true;
        dropped := dropped + set j: nat | j < |before| && before[j] == NotStart;
        assert items[..] == CancelItems(before);
      } else {
        assert CancelItems(before) == before;
        assert items[..] == before;
      }
    }

    /** The locked part of the loop: says whether the slice at i begins, and which items it has. */
    method BeginSliceAt(i: nat) returns (slice: seq<nat>, begins: bool)
      requires phase == Looping(i)
      modifies this, items
      ensures Value() == Next(plan, old(Value()), NextSlice)
      ensures begins == phase.Slicing?
      ensures begins ==> slice == seq(Min(i + plan.eachNum, items.Length) - i, x requires 0 <= x => i + x)
    {
      slice := [];
      if i >= items.Length || plan.serial || canceled {
        phase := Ended;
        return [], false;
      }
      ghost var before := items[..];
      var j := i;
      while j < items.Length && j - i < plan.eachNum
        invariant i <= j <= Min(i + plan.eachNum, items.Length)
        invariant items[..] == Paused(before, i, j)
        invariant slice == seq(j - i, x requires 0 <= x => i + x)
        invariant phase == old(phase) && canceled == old(canceled) && starts == old(starts)
        invariant running == old(running) && begun == old(begun) && dropped == old(dropped)
      {
        slice := slice + [j];
        items[j] := PauseFlow;
        j := j + 1;
      }
      phase := Slicing(i, Range(i, j));
      begun := j;
      begins := true;
    }

    /** A thread begins or ends with an item. */
    method SetRspInfo(index: nat, start: bool, ok: bool)
      requires phase.Slicing? && index < items.Length == |starts|
      requires if start then index in phase.waiting && |running| < Workers(plan) else index in running
      modifies this, items
      ensures Value() == Next(plan, old(Value()), if start then Start(index) else End(index, ok))
    {
      if start {
        items[index] := Running;
        phase := Slicing(phase.i, phase.waiting - {index});
        starts := starts[index := starts[index] + 1];
        running := running + {index};
      } else {
        items[index] := if ok then Success else Failed;
        running := running - {index};
      }
    }
  }
}
