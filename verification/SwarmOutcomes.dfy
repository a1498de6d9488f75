/** What the runs of the swarm come to: when the gate rejects, what a merged task shows, and when claiming ends. */
module SwarmOutcomes {
  import opened Collections
  import opened Swarm
  import opened SwarmSafety

  // ---------------------------------------------------------------- the gate's period

  /**
   * Of any seven consecutive values of the tick counter exactly one makes the gate reject the
   * suspect task; the counter's first value does; no value rejects any other task.
   */
  lemma OneRejectInSeven(s: State, t: Task, k: nat)
    ensures t.taskId == "T-05" ==>
              && Rejects(s.(ticks := 0), t)
              && exists j :: k <= j < k + 7 && Rejects(s.(ticks := j), t) &&
                   forall i :: k <= i < k + 7 && Rejects(s.(ticks := i), t) ==> i == j
    ensures t.taskId != "T-05" ==> !Rejects(s.(ticks := k), t)
  {
    var j := k + (7 - k % 7) % 7;
    assert Rejects(s.(ticks := j), t) <==> t.taskId == "T-05";
    forall i: nat | k <= i < k + 7 && Rejects(s.(ticks := i), t) ensures i == j {
    }
  }

  // ---------------------------------------------------------------- one scan, one sentinel pass

  /**
   * A scan claims exactly the first pending task whose required capabilities the worker has, for that
   * worker, and changes no other task; without such a task it changes none.
   */
  lemma ScanClaimsFirst(s: State, w: nat, i: nat)
    requires WorkerEnabled(s, w) && s.workers[w].pc.Scan? && !s.workers[w].state.Stopping? && i <= |s.tasks|
    requires forall j :: 0 <= j < i ==> !(s.tasks[j].status.Pending? && s.tasks[j].requiredCaps <= s.workers[w].caps)
    requires i < |s.tasks| ==> s.tasks[i].status.Pending? && s.tasks[i].requiredCaps <= s.workers[w].caps
    ensures var s' := TakeWorkerStep(s, w);
            && s' == s.(tasks := s'.tasks, workers := s.workers[w := s'.workers[w]], claims := s'.claims)
            && s'.claims == s.claims + Flag(i < |s.tasks|) && |s'.tasks| == |s.tasks|
            && (forall j :: 0 <= j < |s.tasks| && j != i ==> s'.tasks[j] == s.tasks[j])
            && (i < |s.tasks| ==> && s'.tasks[i] == s.tasks[i].(status := Claimed, workerId := Some(w))
                                  && s'.workers[w].state.Busy? && s'.workers[w].currentTask == Some(i))
  {
    if i < |s.tasks| { assert Claimable(s.tasks[i], s.workers[w].caps); }
  }

  /** Two steps of the sentinel, undisturbed, are one pass of its loop: one tick, one alert per failed task, nothing else. */
  lemma SentinelPassIsARun(s: State)
    requires !s.sentinelReady && !s.stop && !LockHeld(s.healer)
    ensures Enabled(s, SentinelStep) && Enabled(Next(s, SentinelStep), SentinelStep)
    ensures Next(Next(s, SentinelStep), SentinelStep) ==
            s.(ticks := s.ticks + 1, sentinelAlerts := s.sentinelAlerts + Count(s.tasks, IsFailed))
  {
  }

  // ---------------------------------------------------------------- merged tasks are complete

  ghost predicate Finishing(s: State, i: nat) { exists w :: 0 <= w < |s.workers| && s.workers[w].pc == WriteComplete(i) }

  predicate IsComplete(t: Task) { t.status.Merged? ==> t.progress == 1.0 }

  ghost predicate MergedShowComplete(s: State)
  {
    forall i :: 0 <= i < |s.tasks| ==> IsComplete(s.tasks[i]) || Finishing(s, i)
  }

  lemma WorkOnCompletes(pc: Pc, task: Task, stop: bool, reject: bool)
    requires HasTask(pc) && (WritesStatus(pc) ==> !task.status.Merged?)
    ensures var (pc', task') := WorkOn(pc, task, stop, reject);
            IsComplete(task') || pc' == WriteComplete(pc.t) || (task'.progress == task.progress && !pc.WriteComplete?)
    ensures WorkOn(pc, task, stop, reject).1.status.Merged? ==> pc.WriteMerged? || task.status.Merged?
  {
  }

  lemma KeepsFinishing(s: State, s': State, w: nat, i: nat)
    requires w < |s.workers| && |s'.workers| == |s.workers| && s.workers[w].pc != WriteComplete(i) && Finishing(s, i)
    requires forall v :: 0 <= v < |s.workers| && v != w ==> s'.workers[v] == s.workers[v]
    ensures Finishing(s', i)
  {
    var v :| 0 <= v < |s.workers| && s.workers[v].pc == WriteComplete(i);
    assert s'.workers[v].pc == WriteComplete(i);
  }

  lemma WriteCompletes(s: State, w: nat, i: nat)
    requires Inv(s) && MergedShowComplete(s) && WorkerEnabled(s, w) && HasTask(s.workers[w].pc) && i < |s.tasks|
    ensures var s' := TakeWorkerStep(s, w); IsComplete(s'.tasks[i]) || Finishing(s', i)
  {
    var s' := TakeWorkerStep(s, w);
    var pc := s.workers[w].pc;
    assert WorkerOk(s, w);
    WorkOnCompletes(pc, s.tasks[pc.t], s.stop, Rejects(s, s.tasks[pc.t]));
    if pc.t == i && s'.workers[w].pc == WriteComplete(i) {
      assert Finishing(s', i);
    } else if Finishing(s, i) && pc != WriteComplete(i) {
      KeepsFinishing(s, s', w, i);
    }
  }

  lemma ClaimCompletes(s: State, w: nat, i: nat)
    requires MergedShowComplete(s) && WorkerEnabled(s, w) && !HasTask(s.workers[w].pc) && i < |s.tasks|
    ensures var s' := TakeWorkerStep(s, w); i < |s'.tasks| && (IsComplete(s'.tasks[i]) || Finishing(s', i))
  {
    if Finishing(s, i) { KeepsFinishing(s, TakeWorkerStep(s, w), w, i); }
  }

  lemma HealCompletes(s: State, i: nat)
    requires Inv(s) && MergedShowComplete(s) && HealerEnabled(s) && i < |s.tasks|
    ensures var s' := TakeHealerStep(s); i < |s'.tasks| && (IsComplete(s'.tasks[i]) || Finishing(s', i))
  {
    var s' := TakeHealerStep(s);
    assert s'.workers == s.workers && HealerOk(s);
    if Finishing(s, i) { assert Finishing(s', i); }
  }

  lemma MarkCompletes(s: State, i: nat)
    requires Finishing(s, i)
    ensures Finishing(s.(workers := Marked(s.workers)), i)
  {
    var w :| 0 <= w < |s.workers| && s.workers[w].pc == WriteComplete(i);
    assert Marked(s.workers)[w].pc == WriteComplete(i);
  }

  lemma StepCompletes(s: State, step: Step)
    requires Inv(s) && MergedShowComplete(s) && Enabled(s, step)
    ensures MergedShowComplete(Next(s, step))
  {
    var s' := Next(s, step);
    forall i | 0 <= i < |s'.tasks| ensures IsComplete(s'.tasks[i]) || Finishing(s', i) {
      match step
      case WorkerStep(w) =>
        if HasTask(s.workers[w].pc) { WriteCompletes(s, w, i); } else { ClaimCompletes(s, w, i); }
      case HealerStep => HealCompletes(s, i);
      case MarkStopping => if Finishing(s, i) { MarkCompletes(s, i); }
      case _ => if Finishing(s, i) { assert s'.workers == s.workers; assert Finishing(s', i); }
    }
  }

  lemma {:induction false} RunCompletes(s: State, schedule: seq<Step>)
    requires Inv(s) && MergedShowComplete(s) && Run(s, schedule).Some?
    ensures MergedShowComplete(Run(s, schedule).value)
    decreases |schedule|
  {
    if schedule != [] {
      StepKeepsInv(s, schedule[0]);
      StepCompletes(s, schedule[0]);
      RunCompletes(Next(s, schedule[0]), schedule[1..]);
    }
  }

  /** In every interleaving a merged task shows full progress, but for the moment before its own worker writes it. */
  lemma MergedMeansComplete(s: State, i: nat)
    requires Reachable(s) && i < |s.tasks| && s.tasks[i].status.Merged?
    ensures s.tasks[i].progress == 1.0 || Finishing(s, i)
  {
    var s0 :| Init(s0) && LeadsTo(s0, s);
    var schedule :| Run(s0, schedule) == Some(s);
    InitInv(s0);
    RunCompletes(s0, schedule);
    assert IsComplete(s.tasks[i]) || Finishing(s, i);
  }

  // ---------------------------------------------------------------- shutdown ends claiming

  /** Only a worker on its way out is recorded as stopped. */
  predicate StoppedAreOut(s: State)
  {
    forall w :: 0 <= w < |s.workers| && s.workers[w].state.StateStopped? ==>
      s.workers[w].pc.Exiting? || s.workers[w].pc.Exited?
  }

  lemma StepKeepsStoppedOut(s: State, step: Step)
    requires StoppedAreOut(s) && Enabled(s, step)
    ensures StoppedAreOut(Next(s, step))
  {
  }

  lemma {:induction false} RunKeepsStoppedOut(s: State, schedule: seq<Step>)
    requires StoppedAreOut(s) && Run(s, schedule).Some?
    ensures StoppedAreOut(Run(s, schedule).value)
    decreases |schedule|
  {
    if schedule != [] {
      StepKeepsStoppedOut(s, schedule[0]);
      RunKeepsStoppedOut(Next(s, schedule[0]), schedule[1..]);
    }
  }

  /** Stop is set and every worker still at its scan has been told. */
  predicate Told(s: State)
  {
    s.stop && forall w :: 0 <= w < |s.workers| && s.workers[w].pc.Scan? ==> s.workers[w].state.Stopping?
  }

  lemma ToldStep(s: State, step: Step)
    requires Told(s) && Enabled(s, step)
    ensures Told(Next(s, step)) && Next(s, step).claims == s.claims
  {
  }

  lemma {:induction false} ToldRun(s: State, schedule: seq<Step>)
    requires Told(s) && Run(s, schedule).Some?
    ensures Run(s, schedule).value.claims == s.claims
    decreases |schedule|
  {
    if schedule != [] {
      ToldStep(s, schedule[0]);
      ToldRun(Next(s, schedule[0]), schedule[1..]);
    }
  }

  /** Once shutdown has marked the workers, no schedule claims another task. */
  lemma NoClaimAfterMarking(s: State, schedule: seq<Step>)
    requires Reachable(s) && Enabled(s, MarkStopping) && Run(Next(s, MarkStopping), schedule).Some?
    ensures Run(Next(s, MarkStopping), schedule).value.claims == s.claims
  {
    var s0 :| Init(s0) && LeadsTo(s0, s);
    var past :| Run(s0, past) == Some(s);
    RunKeepsStoppedOut(s0, past);
    ToldRun(Next(s, MarkStopping), schedule);
  }
}
