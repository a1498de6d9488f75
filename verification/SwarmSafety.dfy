/** What every interleaving of the swarm keeps: exclusive ownership and conservation of its counters. */
module SwarmSafety {
  import opened Collections
  import opened Swarm

  // ---------------------------------------------------------------- ownership vocabulary

  predicate InFlight(st: TaskStatus) { st.Claimed? || st.Running? || st.Testing? || st.Gate? }

  /** The program points from which a worker will still write `task.status`. */
  predicate WritesStatus(pc: Pc)
  {
    HasTask(pc) && !(pc.WriteError? || pc.WriteRejected? || pc.WriteComplete? || pc.WriteMergeStatus?)
  }

  /** The status a task has while its worker stands at `pc`. */
  function Phase(pc: Pc): TaskStatus
  {
    if pc.StartRun? then Claimed
    else if pc.Work? || pc.WorkDone? || pc.BeginTest? then Running
    else if pc.TestProgress? || pc.EnterGate? then Testing
    else Gate
  }

  /** A worker holds a task while it will still write its status, or when it left it behind at stop. */
  predicate Holds(wk: Worker, t: nat)
  {
    || (WritesStatus(wk.pc) && wk.pc.t == t)
    || ((wk.pc.Exiting? || wk.pc.Exited?) && wk.currentTask == Some(t))
  }

  predicate AtWriteMerged(wk: Worker) { wk.pc.WriteMerged? }
  predicate AtWriteFailed(wk: Worker) { wk.pc.WriteFailed? }

  // ---------------------------------------------------------------- the invariant

  /** What a worker `w` standing at `pc` relies on in its local task. */
  predicate LocalOk(pc: Pc, task: Task, w: nat, caps: set<string>)
  {
    && (WritesStatus(pc) ==> task.workerId == Some(w) && task.requiredCaps <= caps && task.status == Phase(pc))
    && (pc.WriteComplete? || pc.WriteMergeStatus? ==> task.workerId == Some(w) && task.status.Merged?)
    && (pc.Exiting? || pc.Exited? ==>
          task.workerId == Some(w) && task.requiredCaps <= caps && task.status.Running?)
  }

  predicate WorkerOk(s: State, w: nat)
    requires w < |s.workers|
  {
    var wk := s.workers[w];
    && (HasTask(wk.pc) ==> wk.currentTask == Some(wk.pc.t))
    && (wk.pc.LoopTest? || wk.pc.Scan? || wk.pc.NoTask? ==> wk.currentTask.None?)
    && (wk.currentTask.Some? ==>
          wk.currentTask.value < |s.tasks| && LocalOk(wk.pc, s.tasks[wk.currentTask.value], w, wk.caps))
  }

  predicate TaskOk(s: State, i: nat)
    requires i < |s.tasks|
  {
    var t := s.tasks[i];
    && !t.status.Blocked?
    && (t.error.None? || t.error == Some(REJECT))
    && (InFlight(t.status) ==>
          t.workerId.Some? && t.workerId.value < |s.workers| && Holds(s.workers[t.workerId.value], i))
    && (t.status.Pending? ==> t.workerId.None? || s.healer == ClearWorker(i))
  }

  predicate HealerOk(s: State)
  {
    && (s.healer.Visit? ==> s.healer.i <= |s.tasks|)
    && (MidRequeue(s.healer) ==> s.healer.i < |s.tasks| && s.tasks[s.healer.i].status.Pending?)
  }

  predicate Conserved(s: State)
  {
    && s.gatekeeperOk == Count(s.tasks, IsMerged) + Count(s.workers, AtWriteMerged)
    && s.gatekeeperReject ==
         Count(s.tasks, IsFailed) + Count(s.workers, AtWriteFailed) + s.healerActions + Flag(MidRequeue(s.healer))
    && s.claims + Count(s.tasks, IsPending) == |s.tasks| + s.healerActions + Flag(MidRequeue(s.healer))
  }

  predicate Inv(s: State)
  {
    && (forall w :: 0 <= w < |s.workers| ==> WorkerOk(s, w))
    && (forall i :: 0 <= i < |s.tasks| ==> TaskOk(s, i))
    && HealerOk(s)
    && Conserved(s)
  }

  // ---------------------------------------------------------------- preservation

  lemma InitInv(s: State)
    requires Init(s)
    ensures Inv(s)
  {
    CountExtremes(s.tasks, IsMerged);
    CountExtremes(s.tasks, IsFailed);
    CountExtremes(s.tasks, IsPending);
    CountExtremes(s.workers, AtWriteMerged);
    CountExtremes(s.workers, AtWriteFailed);
  }

  /** All counts after replacing one task and one worker. */
  lemma CountsMove(s: State, i: nat, t: Task, w: nat, wk: Worker)
    requires i < |s.tasks| && w < |s.workers|
    ensures Count(s.tasks[i := t], IsMerged) == Count(s.tasks, IsMerged) - Flag(IsMerged(s.tasks[i])) + Flag(IsMerged(t))
    ensures Count(s.tasks[i := t], IsFailed) == Count(s.tasks, IsFailed) - Flag(IsFailed(s.tasks[i])) + Flag(IsFailed(t))
    ensures Count(s.tasks[i := t], IsPending) == Count(s.tasks, IsPending) - Flag(IsPending(s.tasks[i])) + Flag(IsPending(t))
    ensures Count(s.workers[w := wk], AtWriteMerged) ==
            Count(s.workers, AtWriteMerged) - Flag(AtWriteMerged(s.workers[w])) + Flag(AtWriteMerged(wk))
    ensures Count(s.workers[w := wk], AtWriteFailed) ==
            Count(s.workers, AtWriteFailed) - Flag(AtWriteFailed(s.workers[w])) + Flag(AtWriteFailed(wk))
  {
    CountUpdate(s.tasks, IsMerged, i, t);
    CountUpdate(s.tasks, IsFailed, i, t);
    CountUpdate(s.tasks, IsPending, i, t);
    CountUpdate(s.workers, AtWriteMerged, w, wk);
    CountUpdate(s.workers, AtWriteFailed, w, wk);
  }

  /**
   * What one worker step may do to the pair (program counter, local task), as the rest of the
   * swarm sees it. The invariant is proved from this alone.
   */
  predicate Effect(pc: Pc, task: Task, pc': Pc, task': Task, w: nat, caps: set<string>)
    requires HasTask(pc)
  {
    && StaysLocal(pc, pc', task', w, caps)
    && SeenOutside(pc, task, pc', task', w)
    && Counted(pc, task, pc', task')
  }

  predicate StaysLocal(pc: Pc, pc': Pc, task': Task, w: nat, caps: set<string>)
    requires HasTask(pc)
  {
    && LocalOk(pc', task', w, caps)
    && (HasTask(pc') ==> pc'.t == pc.t)
    && (HasTask(pc') || pc'.Release? || pc'.Exiting?)
  }

  predicate SeenOutside(pc: Pc, task: Task, pc': Pc, task': Task, w: nat)
  {
    && task'.requiredCaps == task.requiredCaps && task'.workerId == task.workerId
    && (task'.status == task.status || (task.workerId == Some(w) && WritesStatus(pc)))
    && (task'.error == task.error || task'.error == Some(REJECT))
    && (task'.status.Pending? <==> task.status.Pending?)
    && (task'.status.Blocked? ==> task.status.Blocked?)
    && (InFlight(task'.status) ==> InFlight(task.status))
    && (InFlight(task'.status) && WritesStatus(pc) ==> WritesStatus(pc') || pc'.Exiting?)
    && (!WritesStatus(pc) ==> !WritesStatus(pc') && !pc'.Exiting?)
  }

  predicate Counted(pc: Pc, task: Task, pc': Pc, task': Task)
  {
    && Flag(IsMerged(task')) + Flag(pc'.WriteMerged?) ==
         Flag(IsMerged(task)) + Flag(pc.WriteMerged?) + Flag(pc.CountPass?)
    && Flag(IsFailed(task')) + Flag(pc'.WriteFailed?) ==
         Flag(IsFailed(task)) + Flag(pc.WriteFailed?) + Flag(pc.CountReject?)
  }

  lemma WorkOnStaysLocal(pc: Pc, task: Task, stop: bool, reject: bool, w: nat, caps: set<string>)
    requires HasTask(pc) && LocalOk(pc, task, w, caps)
    ensures var (pc', task') := WorkOn(pc, task, stop, reject);
            StaysLocal(pc, pc', task', w, caps)
  {
  }

  lemma WorkOnSeenOutside(pc: Pc, task: Task, stop: bool, reject: bool, w: nat, caps: set<string>)
    requires HasTask(pc) && LocalOk(pc, task, w, caps)
    ensures var (pc', task') := WorkOn(pc, task, stop, reject);
            SeenOutside(pc, task, pc', task', w)
  {
  }

  lemma WorkOnCounted(pc: Pc, task: Task, stop: bool, reject: bool, w: nat, caps: set<string>)
    requires HasTask(pc) && LocalOk(pc, task, w, caps)
    ensures var (pc', task') := WorkOn(pc, task, stop, reject);
            Counted(pc, task, pc', task')
  {
  }

  /** `s` after worker `w`, standing at a task, moved to `pc'` and left the task as `task'`. */
  function Worked(s: State, w: nat, pc': Pc, task': Task): State
    requires w < |s.workers| && HasTask(s.workers[w].pc) && s.workers[w].pc.t < |s.tasks|
  {
    var wk := s.workers[w];
    s.(tasks := s.tasks[wk.pc.t := task'],
       workers := s.workers[w := wk.(pc := pc')],
       gatekeeperOk := s.gatekeeperOk + Flag(wk.pc.CountPass?),
       gatekeeperReject := s.gatekeeperReject + Flag(wk.pc.CountReject?))
  }

  predicate WorkedWell(s: State, w: nat, pc': Pc, task': Task)
  {
    && w < |s.workers| && HasTask(s.workers[w].pc) && s.workers[w].pc.t < |s.tasks|
    && Effect(s.workers[w].pc, s.tasks[s.workers[w].pc.t], pc', task', w, s.workers[w].caps)
  }

  lemma WorkedKeepsWorkers(s: State, w: nat, pc': Pc, task': Task, v: nat)
    requires Inv(s) && WorkedWell(s, w, pc', task') && v < |s.workers|
    ensures WorkerOk(Worked(s, w, pc', task'), v)
  {
    assert WorkerOk(s, v);
    assert WorkerOk(s, w);
  }

  lemma WorkedKeepsTasks(s: State, w: nat, pc': Pc, task': Task, j: nat)
    requires Inv(s) && WorkedWell(s, w, pc', task') && j < |s.tasks|
    ensures TaskOk(Worked(s, w, pc', task'), j)
  {
    assert TaskOk(s, j);
    assert WorkerOk(s, w);
  }

  lemma WorkedKeepsCounts(s: State, w: nat, pc': Pc, task': Task)
    requires Inv(s) && WorkedWell(s, w, pc', task')
    ensures HealerOk(Worked(s, w, pc', task')) && Conserved(Worked(s, w, pc', task'))
  {
    var s' := Worked(s, w, pc', task');
    CountsMove(s, s.workers[w].pc.t, task', w, s'.workers[w]);
  }

  /** A worker with a task takes a step. */
  lemma WriteKeepsInv(s: State, w: nat)
    requires Inv(s) && WorkerEnabled(s, w) && HasTask(s.workers[w].pc)
    ensures Inv(TakeWorkerStep(s, w))
  {
    var wk := s.workers[w];
    var task := s.tasks[wk.pc.t];
    assert WorkerOk(s, w);
    WorkOnStaysLocal(wk.pc, task, s.stop, Rejects(s, task), w, wk.caps);
    WorkOnSeenOutside(wk.pc, task, s.stop, Rejects(s, task), w, wk.caps);
    WorkOnCounted(wk.pc, task, s.stop, Rejects(s, task), w, wk.caps);
    var (pc', task') := WorkOn(wk.pc, task, s.stop, Rejects(s, task));
    assert TakeWorkerStep(s, w) == Worked(s, w, pc', task');
    WorkedKeepsCounts(s, w, pc', task');
    forall v | 0 <= v < |s.workers| ensures WorkerOk(Worked(s, w, pc', task'), v) {
      WorkedKeepsWorkers(s, w, pc', task', v);
    }
    forall j | 0 <= j < |s.tasks| ensures TaskOk(Worked(s, w, pc', task'), j) {
      WorkedKeepsTasks(s, w, pc', task', j);
    }
  }

  /** A scan under the lock, whether or not it finds a task. */
  lemma ClaimKeepsInv(s: State, w: nat)
    requires Inv(s) && WorkerEnabled(s, w) && s.workers[w].pc.Scan?
    ensures Inv(ClaimStep(s, w))
  {
    var s' := ClaimStep(s, w);
    ClaimCounts(s, w);
    forall v | 0 <= v < |s'.workers| ensures WorkerOk(s', v) {
      ClaimKeepsWorkers(s, w, v);
    }
    forall j | 0 <= j < |s'.tasks| ensures TaskOk(s', j) {
      ClaimKeepsTasks(s, w, j);
    }
  }

  lemma ClaimCounts(s: State, w: nat)
    requires Inv(s) && WorkerEnabled(s, w) && s.workers[w].pc.Scan?
    ensures HealerOk(ClaimStep(s, w)) && Conserved(ClaimStep(s, w))
  {
    var s' := ClaimStep(s, w);
    CountUpdate(s.workers, AtWriteMerged, w, s'.workers[w]);
    CountUpdate(s.workers, AtWriteFailed, w, s'.workers[w]);
    if s'.claims != s.claims {
      var i := FirstClaimable(s.tasks, s.workers[w].caps, 0).value;
      CountsMove(s, i, s'.tasks[i], w, s'.workers[w]);
    }
  }

  lemma ClaimKeepsWorkers(s: State, w: nat, v: nat)
    requires Inv(s) && WorkerEnabled(s, w) && s.workers[w].pc.Scan? && v < |s.workers|
    ensures WorkerOk(ClaimStep(s, w), v)
  {
    assert WorkerOk(s, w);
    assert WorkerOk(s, v);
    if ClaimStep(s, w).claims != s.claims {
      var i := FirstClaimable(s.tasks, s.workers[w].caps, 0).value;
      assert TaskOk(s, i);
    }
  }

  lemma ClaimKeepsTasks(s: State, w: nat, j: nat)
    requires Inv(s) && WorkerEnabled(s, w) && s.workers[w].pc.Scan? && j < |s.tasks|
    ensures TaskOk(ClaimStep(s, w), j)
  {
    assert WorkerOk(s, w);
    assert TaskOk(s, j);
  }

  /** A step between tasks. */
  lemma WalkKeepsInv(s: State, w: nat)
    requires Inv(s) && WorkerEnabled(s, w) && !HasTask(s.workers[w].pc) && !s.workers[w].pc.Scan?
    ensures Inv(TakeWorkerStep(s, w))
  {
    var s' := TakeWorkerStep(s, w);
    assert WorkerOk(s, w);
    CountUpdate(s.workers, AtWriteMerged, w, s'.workers[w]);
    CountUpdate(s.workers, AtWriteFailed, w, s'.workers[w]);
    forall v | 0 <= v < |s'.workers| ensures WorkerOk(s', v) {
      assert WorkerOk(s, v);
    }
    forall j | 0 <= j < |s'.tasks| ensures TaskOk(s', j) {
      assert TaskOk(s, j);
    }
  }

  /** What one healer write does to a task it is visiting. */
  lemma HealOnEffect(h: HealerPc, task: Task)
    requires LockHeld(h) && (MidRequeue(h) ==> task.status.Pending?)
    ensures var (h', task') := HealOn(h, task);
            && LockHeld(h') && h'.i == (if h'.Visit? then h.i + 1 else h.i)
            && (MidRequeue(h') ==> task'.status.Pending?)
            && (task'.status == task.status || (task.status.Failed? && task'.status.Pending? && h' == ClearWorker(h.i)))
            && (task'.workerId == task.workerId || task'.status.Pending?)
            && (task'.error == task.error || task'.error.None?)
            && task'.requiredCaps == task.requiredCaps
            && (task'.workerId.Some? && task.status.Pending? ==> h != ClearWorker(h.i) && task'.workerId == task.workerId)
            && Flag(IsFailed(task')) + Flag(MidRequeue(h')) + Flag(h.CountAction?) == Flag(IsFailed(task)) + Flag(MidRequeue(h))
            && Flag(IsPending(task')) + Flag(MidRequeue(h)) == Flag(IsPending(task)) + Flag(MidRequeue(h')) + Flag(h.CountAction?)
            && IsMerged(task') == IsMerged(task)
  {
  }

  predicate Visiting(s: State) { LockHeld(s.healer) && s.healer.i < |s.tasks| }

  lemma VisitKeepsWorkers(s: State, v: nat)
    requires Inv(s) && HealerEnabled(s) && Visiting(s) && v < |s.workers|
    ensures WorkerOk(TakeHealerStep(s), v)
  {
    assert WorkerOk(s, v);
    assert TaskOk(s, s.healer.i);
    HealOnEffect(s.healer, s.tasks[s.healer.i]);
  }

  lemma VisitKeepsTasks(s: State, j: nat)
    requires Inv(s) && HealerEnabled(s) && Visiting(s) && j < |s.tasks|
    ensures TaskOk(TakeHealerStep(s), j)
  {
    assert TaskOk(s, j);
    assert TaskOk(s, s.healer.i);
    HealOnEffect(s.healer, s.tasks[s.healer.i]);
  }

  lemma VisitKeepsCounts(s: State)
    requires Inv(s) && HealerEnabled(s) && Visiting(s)
    ensures HealerOk(TakeHealerStep(s)) && Conserved(TakeHealerStep(s))
  {
    var s', i := TakeHealerStep(s), s.healer.i;
    assert TaskOk(s, i);
    HealOnEffect(s.healer, s.tasks[i]);
    CountUpdate(s.tasks, IsMerged, i, s'.tasks[i]);
    CountUpdate(s.tasks, IsFailed, i, s'.tasks[i]);
    CountUpdate(s.tasks, IsPending, i, s'.tasks[i]);
  }

  lemma HealerKeepsInv(s: State)
    requires Inv(s) && HealerEnabled(s)
    ensures Inv(TakeHealerStep(s))
  {
    var s' := TakeHealerStep(s);
    if Visiting(s) {
      forall v | 0 <= v < |s'.workers| ensures WorkerOk(s', v) { VisitKeepsWorkers(s, v); }
      forall j | 0 <= j < |s'.tasks| ensures TaskOk(s', j) { VisitKeepsTasks(s, j); }
      VisitKeepsCounts(s);
    } else {
      forall v | 0 <= v < |s'.workers| ensures WorkerOk(s', v) { assert WorkerOk(s, v); }
      forall j | 0 <= j < |s'.tasks| ensures TaskOk(s', j) { assert TaskOk(s, j); }
    }
  }

  lemma {:induction false} MarkedCounts(ws: seq<Worker>)
    ensures Count(Marked(ws), AtWriteMerged) == Count(ws, AtWriteMerged)
    ensures Count(Marked(ws), AtWriteFailed) == Count(ws, AtWriteFailed)
  {
    if ws != [] {
      assert Marked(ws)[1..] == Marked(ws[1..]);
      MarkedCounts(ws[1..]);
    }
  }

  lemma StepKeepsInv(s: State, step: Step)
    requires Inv(s) && Enabled(s, step)
    ensures Inv(Next(s, step))
  {
    match step
    case WorkerStep(w) =>
      if s.workers[w].pc.Scan? {
        ClaimKeepsInv(s, w);
      } else if HasTask(s.workers[w].pc) {
        WriteKeepsInv(s, w);
      } else {
        WalkKeepsInv(s, w);
      }
    case HealerStep => HealerKeepsInv(s);
    case SentinelStep =>
      var s' := Next(s, step);
      assert forall v :: 0 <= v < |s.workers| ==> WorkerOk(s, v) ==> WorkerOk(s', v);
      assert forall i :: 0 <= i < |s.tasks| ==> TaskOk(s, i) ==> TaskOk(s', i);
    case SetStop =>
      var s' := Next(s, step);
      assert forall v :: 0 <= v < |s.workers| ==> WorkerOk(s, v) ==> WorkerOk(s', v);
      assert forall i :: 0 <= i < |s.tasks| ==> TaskOk(s, i) ==> TaskOk(s', i);
    case MarkStopping =>
      var s' := Next(s, step);
      MarkedCounts(s.workers);
      assert forall v :: 0 <= v < |s.workers| ==> WorkerOk(s, v) ==> WorkerOk(s', v);
      assert forall i :: 0 <= i < |s.tasks| ==> TaskOk(s, i) ==> TaskOk(s', i);
  }

  lemma {:induction false} RunKeepsInv(s: State, schedule: seq<Step>)
    requires Inv(s) && Run(s, schedule).Some?
    ensures Inv(Run(s, schedule).value)
    decreases |schedule|
  {
    if schedule != [] {
      StepKeepsInv(s, schedule[0]);
      RunKeepsInv(Next(s, schedule[0]), schedule[1..]);
    }
  }

  lemma ReachableInv(s: State)
    requires Reachable(s)
    ensures Inv(s)
  {
    var s0 :| Init(s0) && LeadsTo(s0, s);
    var schedule :| Run(s0, schedule) == Some(s);
    InitInv(s0);
    RunKeepsInv(s0, schedule);
  }

  // ---------------------------------------------------------------- main results

  /**
   * In every interleaving, a task in flight is held by exactly one worker, the one recorded in
   * it, which has the capabilities the task asks for.
   */
  lemma ExclusiveOwnership(s: State, i: nat)
    requires Reachable(s) && i < |s.tasks| && InFlight(s.tasks[i].status)
    ensures s.tasks[i].workerId.Some?
    ensures forall w :: 0 <= w < |s.workers| ==> (Holds(s.workers[w], i) <==> s.tasks[i].workerId == Some(w))
    ensures exists w :: 0 <= w < |s.workers| && Holds(s.workers[w], i) && s.tasks[i].requiredCaps <= s.workers[w].caps
  {
    ReachableInv(s);
    assert TaskOk(s, i);
    var h := s.tasks[i].workerId.value;
    assert WorkerOk(s, h);
    forall w | 0 <= w < |s.workers| ensures Holds(s.workers[w], i) <==> s.tasks[i].workerId == Some(w) {
      assert WorkerOk(s, w);
    }
  }

  /** A task nobody may be working on is held by nobody: no worker can still write its status. */
  lemma SettledTasksAreFree(s: State, w: nat, i: nat)
    requires Reachable(s) && w < |s.workers| && i < |s.tasks| && !InFlight(s.tasks[i].status)
    ensures !Holds(s.workers[w], i)
  {
    ReachableInv(s);
    assert WorkerOk(s, w);
  }

  /** The three ledgers of the control plane balance in every reachable state. */
  lemma CountersConserved(s: State)
    requires Reachable(s)
    ensures s.gatekeeperOk == Count(s.tasks, IsMerged) + Count(s.workers, AtWriteMerged)
    ensures s.gatekeeperReject ==
            Count(s.tasks, IsFailed) + s.healerActions + Count(s.workers, AtWriteFailed) + Flag(MidRequeue(s.healer))
    ensures s.claims == |s.tasks| - Count(s.tasks, IsPending) + s.healerActions + Flag(MidRequeue(s.healer))
  {
    ReachableInv(s);
  }

  /**
   * A worker that is not the recorded owner of a task can change nothing of it but `error` and
   * `merge_status`, unless it is claiming it.
   */
  lemma StaleWritesAreCosmetic(s: State, w: nat, i: nat)
    requires Reachable(s) && WorkerEnabled(s, w) && i < |s.tasks|
    requires s.tasks[i].workerId != Some(w) && !s.workers[w].pc.Scan?
    ensures var t' := TakeWorkerStep(s, w).tasks[i];
            t' == s.tasks[i].(error := t'.error, mergeStatus := t'.mergeStatus)
    ensures TakeWorkerStep(s, w).tasks[i] != s.tasks[i] ==>
            s.workers[w].pc == WriteError(i) || s.workers[w].pc == WriteRejected(i)
  {
    ReachableInv(s);
    assert WorkerOk(s, w);
  }

  // ---------------------------------------------------------------- completion

  predicate ProjectComplete(s: State)
  {
    s.tasks != [] && forall i :: 0 <= i < |s.tasks| ==> s.tasks[i].status.Merged?
  }

  predicate AllTerminal(s: State)
  {
    && s.tasks != []
    && (forall i :: 0 <= i < |s.tasks| ==>
          s.tasks[i].status.Merged? || s.tasks[i].status.Blocked? || s.tasks[i].status.Failed?)
    && (forall i :: 0 <= i < |s.tasks| ==>
          s.tasks[i].status.Merged? || (s.tasks[i].status.Failed? && s.tasks[i].error == Some(MAX_RETRIES)))
  }

  /** Nothing ever records exhausted retries, so the two completion tests never disagree. */
  lemma TerminalMeansComplete(s: State)
    requires Reachable(s)
    ensures AllTerminal(s) <==> ProjectComplete(s)
  {
    ReachableInv(s);
    if AllTerminal(s) {
      forall i | 0 <= i < |s.tasks| ensures s.tasks[i].status.Merged? {
        assert TaskOk(s, i);
      }
    }
  }

  lemma StepKeepsMerged(s: State, step: Step, i: nat)
    requires Inv(s) && Enabled(s, step) && i < |s.tasks| && s.tasks[i].status.Merged?
    ensures |Next(s, step).tasks| == |s.tasks| && Next(s, step).tasks[i].status.Merged?
  {
    if step.WorkerStep? {
      assert WorkerOk(s, step.w);
    }
  }

  /** A merged task stays merged along every continuation of every run. */
  lemma {:induction false} MergedIsForever(s: State, schedule: seq<Step>, i: nat)
    requires Inv(s) && Run(s, schedule).Some? && i < |s.tasks| && s.tasks[i].status.Merged?
    ensures var s' := Run(s, schedule).value;
            |s'.tasks| == |s.tasks| && s'.tasks[i].status.Merged?
    decreases |schedule|
  {
    if schedule != [] {
      StepKeepsInv(s, schedule[0]);
      StepKeepsMerged(s, schedule[0], i);
      MergedIsForever(Next(s, schedule[0]), schedule[1..], i);
    }
  }

  /** Once complete, the project stays complete whatever the threads do next. */
  lemma CompletionIsStable(s: State, s': State)
    requires Reachable(s) && LeadsTo(s, s') && ProjectComplete(s)
    ensures ProjectComplete(s') && |s'.tasks| == |s.tasks|
  {
    ReachableInv(s);
    var schedule :| Run(s, schedule) == Some(s');
    MergedIsForever(s, schedule, 0);
    forall i | 0 <= i < |s'.tasks| ensures s'.tasks[i].status.Merged? {
      MergedIsForever(s, schedule, i);
    }
  }
}
