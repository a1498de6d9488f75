/**
 * The race between a worker's last unlocked writes and the healer, settled exactly: from which
 * configurations can a task end up merged and still carry the error of an earlier rejection?
 */
module SwarmRaces {
  import opened Collections
  import opened Swarm

  const SUSPECT := "T-05"

  predicate Covers(s: State, w: nat, i: nat)
    requires w < |s.workers| && i < |s.tasks|
  {
    s.tasks[i].taskId == SUSPECT && s.tasks[i].requiredCaps <= s.workers[w].caps
  }

  /** Some worker may run a task that the gate can reject. */
  ghost predicate Exposed(s: State)
  {
    exists w, i :: 0 <= w < |s.workers| && 0 <= i < |s.tasks| && Covers(s, w, i)
  }

  /** A merged task that still shows an error. */
  predicate Tainted(t: Task) { t.status.Merged? && t.error.Some? }

  // ---------------------------------------------------------------- only exposed configurations

  /** What never changes: the identity and needs of every task, and what every worker can do. */
  ghost predicate SameShape(s: State, s': State)
  {
    && |s'.tasks| == |s.tasks| && |s'.workers| == |s.workers|
    && (forall i :: 0 <= i < |s.tasks| ==>
          s'.tasks[i].taskId == s.tasks[i].taskId && s'.tasks[i].requiredCaps == s.tasks[i].requiredCaps)
    && (forall w :: 0 <= w < |s.workers| ==> s'.workers[w].caps == s.workers[w].caps)
  }

  predicate AfterReject(pc: Pc) { pc.CountReject? || pc.WriteFailed? || pc.WriteError? }

  predicate WorkerClean(s: State, w: nat)
    requires w < |s.workers|
  {
    var wk := s.workers[w];
    HasTask(wk.pc) ==>
      && wk.pc.t < |s.tasks| && s.tasks[wk.pc.t].requiredCaps <= wk.caps
      && (AfterReject(wk.pc) ==> s.tasks[wk.pc.t].taskId == SUSPECT)
  }

  /** Errors appear only where a covered suspect task was rejected. */
  ghost predicate Explained(s: State)
  {
    && (forall w :: 0 <= w < |s.workers| ==> WorkerClean(s, w))
    && ((exists i :: 0 <= i < |s.tasks| && s.tasks[i].error.Some?) ==> Exposed(s))
  }

  lemma ExposedStays(s: State, s': State)
    requires SameShape(s, s') && Exposed(s)
    ensures Exposed(s')
  {
    var w, i :| 0 <= w < |s.workers| && 0 <= i < |s.tasks| && Covers(s, w, i);
    assert Covers(s', w, i);
  }

  lemma WorkOnShape(pc: Pc, task: Task, stop: bool, reject: bool)
    requires HasTask(pc)
    ensures var (pc', task') := WorkOn(pc, task, stop, reject);
            && task'.taskId == task.taskId && task'.requiredCaps == task.requiredCaps
            && (HasTask(pc') ==> pc'.t == pc.t)
            && (AfterReject(pc') ==> AfterReject(pc) || reject)
            && !pc'.Scan? && (task'.error == task.error || pc.WriteError?)
  {
  }

  lemma HealOnShape(h: HealerPc, task: Task)
    requires LockHeld(h)
    ensures var (h', task') := HealOn(h, task);
            && task'.taskId == task.taskId && task'.requiredCaps == task.requiredCaps
            && (task'.error == task.error || task'.error.None?)
  {
  }

  lemma WorkerKeepsShape(s: State, w: nat)
    requires WorkerEnabled(s, w)
    ensures SameShape(s, TakeWorkerStep(s, w))
  {
    var wk := s.workers[w];
    if HasTask(wk.pc) {
      WorkOnShape(wk.pc, s.tasks[wk.pc.t], s.stop, Rejects(s, s.tasks[wk.pc.t]));
    }
  }

  lemma HealerKeepsShape(s: State)
    requires HealerEnabled(s)
    ensures SameShape(s, TakeHealerStep(s))
  {
    if LockHeld(s.healer) && s.healer.i < |s.tasks| {
      HealOnShape(s.healer, s.tasks[s.healer.i]);
    }
  }

  lemma StepKeepsShape(s: State, step: Step)
    requires Enabled(s, step)
    ensures SameShape(s, Next(s, step))
  {
    match step {
      case WorkerStep(w) => WorkerKeepsShape(s, w);
      case HealerStep => HealerKeepsShape(s);
      case _ =>
    }
  }

  lemma ErrorSource(s: State, step: Step, i: nat)
    requires Explained(s) && Enabled(s, step) && i < |s.tasks| && |Next(s, step).tasks| == |s.tasks|
    requires Next(s, step).tasks[i].error.Some?
    ensures Exposed(s)
  {
    if s.tasks[i].error.None? {
      assert step.WorkerStep? && s.workers[step.w].pc == WriteError(i);
      assert WorkerClean(s, step.w);
      assert Covers(s, step.w, i);
    }
  }

  lemma OwnStepKeepsClean(s: State, w: nat)
    requires WorkerEnabled(s, w) && WorkerClean(s, w)
    ensures w < |TakeWorkerStep(s, w).workers| && WorkerClean(TakeWorkerStep(s, w), w)
  {
    var wk := s.workers[w];
    if HasTask(wk.pc) {
      WorkOnShape(wk.pc, s.tasks[wk.pc.t], s.stop, Rejects(s, s.tasks[wk.pc.t]));
    }
  }

  /** A step that leaves a worker where it is leaves it clean. */
  lemma OthersStayClean(s: State, s': State, w: nat)
    requires SameShape(s, s') && w < |s.workers| && WorkerClean(s, w) && s'.workers[w].pc == s.workers[w].pc
    ensures WorkerClean(s', w)
  {
  }

  lemma StepKeepsClean(s: State, step: Step, w: nat)
    requires Enabled(s, step) && w < |s.workers| && WorkerClean(s, w)
    ensures w < |Next(s, step).workers| && WorkerClean(Next(s, step), w)
  {
    StepKeepsShape(s, step);
    if step == WorkerStep(w) {
      OwnStepKeepsClean(s, w);
    } else {
      OthersStayClean(s, Next(s, step), w);
    }
  }

  lemma StepKeepsExplained(s: State, step: Step)
    requires Explained(s) && Enabled(s, step)
    ensures Explained(Next(s, step)) && SameShape(s, Next(s, step))
  {
    var s' := Next(s, step);
    StepKeepsShape(s, step);
    forall w | 0 <= w < |s'.workers| ensures WorkerClean(s', w) {
      StepKeepsClean(s, step, w);
    }
    if i :| 0 <= i < |s'.tasks| && s'.tasks[i].error.Some? {
      ErrorSource(s, step, i);
      ExposedStays(s, s');
    }
  }

  lemma {:induction false} RunKeepsExplained(s: State, schedule: seq<Step>)
    requires Explained(s) && Run(s, schedule).Some?
    ensures Explained(Run(s, schedule).value) && SameShape(s, Run(s, schedule).value)
    decreases |schedule|
  {
    if schedule != [] {
      StepKeepsExplained(s, schedule[0]);
      RunKeepsExplained(Next(s, schedule[0]), schedule[1..]);
    }
  }

  lemma TaintNeedsExposure(s: State, s': State, i: nat)
    requires Init(s) && LeadsTo(s, s') && i < |s'.tasks| && Tainted(s'.tasks[i])
    ensures Exposed(s)
  {
    var schedule :| Run(s, schedule) == Some(s');
    RunKeepsExplained(s, schedule);
    ExposedStays(s', s);
  }
}
