/**
 * The swarm runner as an interleaving transition system.
 *
 * Workers, healer, sentinel and shutdown run concurrently. A program counter says where each
 * thread stands; every write that happens outside the lock is a step of its own. A region
 * that runs entirely under the lock is one step, except the healer's, whose writes race with
 * the unlocked writes of workers and are therefore separate steps taken while it holds the lock.
 */
module Swarm {
  import opened Collections

  datatype TaskStatus = Pending | Claimed | Running | Testing | Gate | Merged | Failed | Blocked

  datatype WorkerState = Idle | Busy | Stopping | StateStopped

  datatype Task = Task(
    taskId: string,
    requiredCaps: set<string>,
    status: TaskStatus,
    workerId: Option<nat>,
    progress: real,
    mergeStatus: string,
    error: Option<string>)

  /** Where a worker thread stands in `worker_loop`; `t` is its local variable `task`. */
  datatype Pc =
    | LoopTest | Scan | NoTask
    | StartRun(t: nat) | Work(t: nat, step: nat) | WorkDone(t: nat)
    | BeginTest(t: nat) | TestProgress(t: nat) | EnterGate(t: nat) | GateRead(t: nat)
    | CountReject(t: nat) | CountPass(t: nat)
    | WriteFailed(t: nat) | WriteError(t: nat) | WriteRejected(t: nat)
    | WriteMerged(t: nat) | WriteComplete(t: nat) | WriteMergeStatus(t: nat)
    | Release | Exiting | Exited

  datatype Worker = Worker(caps: set<string>, state: WorkerState, currentTask: Option<nat>, pc: Pc)

  /** Where the healer thread stands; from `Visit` on it holds the lock. */
  datatype HealerPc =
    | HealTest | HealLock
    | Visit(i: nat)
    | ClearWorker(i: nat) | ClearProgress(i: nat) | ClearMerge(i: nat) | ClearError(i: nat) | CountAction(i: nat)

  datatype State = State(
    tasks: seq<Task>,
    workers: seq<Worker>,
    healer: HealerPc,
    sentinelReady: bool,
    stop: bool,
    ticks: nat,
    gatekeeperOk: nat,
    gatekeeperReject: nat,
    sentinelAlerts: nat,
    healerActions: nat,
    claims: nat)      // history variable: how many claims were ever made

  datatype Step = WorkerStep(w: nat) | HealerStep | SentinelStep | SetStop | MarkStopping

  const MAX_RETRIES := "max_retries"
  const NO_MERGE := "\U{2014}"
  const REJECT := "gatekeeper_reject"

  function Flag(b: bool): nat { if b then 1 else 0 }

  predicate LockHeld(h: HealerPc) { !h.HealTest? && !h.HealLock? }

  /** The healer has requeued a task but not yet counted it. */
  predicate MidRequeue(h: HealerPc) { LockHeld(h) && !h.Visit? }

  // ---------------------------------------------------------------- claiming

  predicate Claimable(t: Task, caps: set<string>) { t.status.Pending? && t.requiredCaps <= caps }

  /** The index, from `i` on, of the first task a worker with `caps` may claim. */
  function FirstClaimable(tasks: seq<Task>, caps: set<string>, i: nat): (r: Option<nat>)
    requires i <= |tasks|
    ensures r.Some? ==> i <= r.value < |tasks| && Claimable(tasks[r.value], caps)
    ensures r.Some? ==> forall j :: i <= j < r.value ==> !Claimable(tasks[j], caps)
    ensures r.None? ==> forall j :: i <= j < |tasks| ==> !Claimable(tasks[j], caps)
    decreases |tasks| - i
  {
    if i == |tasks| then None
    else if Claimable(tasks[i], caps) then Some(i)
    else FirstClaimable(tasks, caps, i + 1)
  }

  // ---------------------------------------------------------------- one worker step

  predicate NeedsLock(pc: Pc)
  {
    pc.Scan? || pc.NoTask? || pc.CountReject? || pc.CountPass? || pc.Release? || pc.Exiting?
  }

  predicate HasTask(pc: Pc)
  {
    !(pc.LoopTest? || pc.Scan? || pc.NoTask? || pc.Release? || pc.Exiting? || pc.Exited?)
  }

  predicate WorkerEnabled(s: State, w: nat)
  {
    && w < |s.workers|
    && var pc := s.workers[w].pc;
       && !pc.Exited?
       && (NeedsLock(pc) ==> !LockHeld(s.healer))
       && (HasTask(pc) ==> pc.t < |s.tasks|)
  }

  function ClaimStep(s: State, w: nat): State
    requires w < |s.workers|
  {
    var wk := s.workers[w];
    if wk.state.Stopping? then
      s.(workers := s.workers[w := wk.(state := StateStopped, pc := Exiting)])
    else
      match FirstClaimable(s.tasks, wk.caps, 0)
      case None => s.(workers := s.workers[w := wk.(pc := NoTask)])
      case Some(i) =>
        s.(tasks := s.tasks[i := s.tasks[i].(status := Claimed, workerId := Some(w))],
           workers := s.workers[w := wk.(state := Busy, currentTask := Some(i), pc := StartRun(i))],
           claims := s.claims + 1)
  }

  /** The gate's decision reads the tick counter without taking the lock. */
  predicate Rejects(s: State, t: Task) { t.taskId == "T-05" && s.ticks % 7 == 0 }

  /**
   * One step of a worker that has a local task: where it stands next, and the task as it leaves
   * it. Every case writes at most one field of the task.
   */
  function WorkOn(pc: Pc, task: Task, stop: bool, reject: bool): (Pc, Task)
    requires HasTask(pc)
  {
    match pc
    case StartRun(t) => (Work(t, 1), task.(status := Running))
    case Work(t, step) =>
      if step >= 5 || stop then (WorkDone(t), task)
      else (Work(t, step + 1), task.(progress := step as real / 5.0))
    case WorkDone(t) => (if stop then Exiting else BeginTest(t), task)
    case BeginTest(t) => (TestProgress(t), task.(status := Testing))
    case TestProgress(t) => (EnterGate(t), task.(progress := 0.85))
    case EnterGate(t) => (GateRead(t), task.(status := Gate))
    case GateRead(t) => (if reject then CountReject(t) else CountPass(t), task)
    case CountReject(t) => (WriteFailed(t), task)
    case CountPass(t) => (WriteMerged(t), task)
    case WriteFailed(t) => (WriteError(t), task.(status := Failed))
    case WriteError(t) => (WriteRejected(t), task.(error := Some(REJECT)))
    case WriteRejected(t) => (Release, task.(mergeStatus := "rejected"))
    case WriteMerged(t) => (WriteComplete(t), task.(status := Merged))
    case WriteComplete(t) => (WriteMergeStatus(t), task.(progress := 1.0))
    case WriteMergeStatus(t) => (Release, task.(mergeStatus := "merged"))
  }

  /** One step of a worker between tasks, other than the scan. */
  function Walk(wk: Worker, stop: bool): Worker
    requires !HasTask(wk.pc) && !wk.pc.Scan? && !wk.pc.Exited?
  {
    match wk.pc
    case LoopTest => wk.(pc := if stop then Exiting else Scan)
    case NoTask => wk.(state := Idle, currentTask := None, pc := LoopTest)
    case Release => wk.(state := Idle, currentTask := None, pc := LoopTest)
    case Exiting => wk.(state := StateStopped, pc := Exited)
  }

  function TakeWorkerStep(s: State, w: nat): State
    requires WorkerEnabled(s, w)
  {
    var wk := s.workers[w];
    if wk.pc.Scan? then ClaimStep(s, w)
    else if HasTask(wk.pc) then
      var t := wk.pc.t;
      var (pc', task') := WorkOn(wk.pc, s.tasks[t], s.stop, Rejects(s, s.tasks[t]));
      s.(tasks := s.tasks[t := task'],
         workers := s.workers[w := wk.(pc := pc')],
         gatekeeperOk := s.gatekeeperOk + Flag(wk.pc.CountPass?),
         gatekeeperReject := s.gatekeeperReject + Flag(wk.pc.CountReject?))
    else s.(workers := s.workers[w := Walk(wk, s.stop)])
  }

  // ---------------------------------------------------------------- control plane

  predicate Requeuable(t: Task) { t.status.Failed? && t.error != Some(MAX_RETRIES) }

  predicate HealerEnabled(s: State)
  {
    match s.healer
    case HealTest => !s.stop
    case HealLock => true
    case Visit(i) => i <= |s.tasks|
    case _ => s.healer.i < |s.tasks|
  }

  /** The healer's visit to one task, write by write, under the lock. */
  function HealOn(h: HealerPc, task: Task): (HealerPc, Task)
    requires LockHeld(h)
  {
    match h
    case Visit(i) => if Requeuable(task) then (ClearWorker(i), task.(status := Pending)) else (Visit(i + 1), task)
    case ClearWorker(i) => (ClearProgress(i), task.(workerId := None))
    case ClearProgress(i) => (ClearMerge(i), task.(progress := 0.0))
    case ClearMerge(i) => (ClearError(i), task.(mergeStatus := NO_MERGE))
    case ClearError(i) => (CountAction(i), task.(error := None))
    case CountAction(i) => (Visit(i + 1), task)
  }

  function TakeHealerStep(s: State): State
    requires HealerEnabled(s)
  {
    match s.healer
    case HealTest => s.(healer := HealLock)
    case HealLock => s.(healer := Visit(0))
    case _ =>
      var i := s.healer.i;
      if i == |s.tasks| then s.(healer := HealTest)
      else
        var (h', task') := HealOn(s.healer, s.tasks[i]);
        s.(tasks := s.tasks[i := task'], healer := h',
           healerActions := s.healerActions + Flag(s.healer.CountAction?))
  }

  predicate IsPending(t: Task) { t.status.Pending? }
  predicate IsFailed(t: Task) { t.status.Failed? }
  predicate IsMerged(t: Task) { t.status.Merged? }

  predicate SentinelEnabled(s: State) { if s.sentinelReady then !LockHeld(s.healer) else !s.stop }

  function TakeSentinelStep(s: State): State
  {
    if !s.sentinelReady then s.(sentinelReady := true)
    else s.(sentinelReady := false, ticks := s.ticks + 1,
            sentinelAlerts := s.sentinelAlerts + Count(s.tasks, IsFailed))
  }

  /** `_shutdown` marks every worker that has not stopped yet. */
  function Marked(ws: seq<Worker>): (r: seq<Worker>)
    ensures |r| == |ws|
    ensures forall i :: 0 <= i < |ws| ==>
      r[i] == if ws[i].state.StateStopped? then ws[i] else ws[i].(state := Stopping)
  {
    seq(|ws|, i requires 0 <= i < |ws| =>
      if ws[i].state.StateStopped? then ws[i] else ws[i].(state := Stopping))
  }

  // ---------------------------------------------------------------- runs

  predicate Enabled(s: State, step: Step)
  {
    match step
    case WorkerStep(w) => WorkerEnabled(s, w)
    case HealerStep => HealerEnabled(s)
    case SentinelStep => SentinelEnabled(s)
    case SetStop => true
    case MarkStopping => s.stop && !LockHeld(s.healer)
  }

  function Next(s: State, step: Step): State
    requires Enabled(s, step)
  {
    match step
    case WorkerStep(w) => TakeWorkerStep(s, w)
    case HealerStep => TakeHealerStep(s)
    case SentinelStep => TakeSentinelStep(s)
    case SetStop => s.(stop := true)
    case MarkStopping => s.(workers := Marked(s.workers))
  }

  predicate FreshTask(t: Task) { t.status.Pending? && t.workerId.None? && t.error.None? }

  predicate FreshWorker(wk: Worker) { wk.state.Idle? && wk.currentTask.None? && wk.pc.LoopTest? }

  predicate Init(s: State)
  {
    && (forall i :: 0 <= i < |s.tasks| ==> FreshTask(s.tasks[i]))
    && (forall w :: 0 <= w < |s.workers| ==> FreshWorker(s.workers[w]))
    && s.healer.HealTest? && !s.sentinelReady && !s.stop && s.ticks == 0
    && s.gatekeeperOk == s.gatekeeperReject == s.sentinelAlerts == s.healerActions == s.claims == 0
  }

  /** The state after a schedule, or `None` when some step of it was not enabled. */
  function Run(s: State, schedule: seq<Step>): Option<State>
    decreases |schedule|
  {
    if schedule == [] then Some(s)
    else if Enabled(s, schedule[0]) then Run(Next(s, schedule[0]), schedule[1..])
    else None
  }

  ghost predicate LeadsTo(s: State, s': State)
  {
    exists schedule :: Run(s, schedule) == Some(s')
  }

  ghost predicate Reachable(s: State)
  {
    exists s0 :: Init(s0) && LeadsTo(s0, s)
  }
}
