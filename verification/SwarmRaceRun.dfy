/** A run that merges a task under a stale error, for every configuration that allows one. */
module SwarmRaceRun {
  import opened Collections
  import opened Swarm
  import opened SwarmRunner
  import opened SwarmRaces

  // ---------------------------------------------------------------- runs compose

  lemma {:induction false} RunConcat(s: State, a: seq<Step>, b: seq<Step>)
    requires Run(s, a).Some?
    ensures Run(s, a + b) == Run(Run(s, a).value, b)
    decreases |a|
  {
    if a == [] {
      assert a + b == b;
    } else {
      assert (a + b)[1..] == a[1..] + b;
      RunConcat(Next(s, a[0]), a[1..], b);
    }
  }

  lemma LeadsToTrans(s: State, m: State, s': State)
    requires LeadsTo(s, m) && LeadsTo(m, s')
    ensures LeadsTo(s, s')
  {
    var a :| Run(s, a) == Some(m);
    var b :| Run(m, b) == Some(s');
    RunConcat(s, a, b);
  }

  lemma LeadsToNext(s: State, m: State, step: Step)
    requires LeadsTo(s, m) && Enabled(m, step)
    ensures LeadsTo(s, Next(m, step))
  {
    LeadsToSelf(Next(m, step));
    LeadsToStep(m, step, Next(m, step));
    LeadsToTrans(s, m, Next(m, step));
  }

  // ---------------------------------------------------------------- a worker on its task

  /** Only task `t` and worker `w` differ, and the worker's capabilities do not. */
  ghost predicate Frame(s: State, s': State, w: nat, t: nat)
  {
    && s'.healer == s.healer && s'.stop == s.stop && s'.ticks == s.ticks && s'.sentinelReady == s.sentinelReady
    && |s'.tasks| == |s.tasks| && (forall j :: 0 <= j < |s.tasks| && j != t ==> s'.tasks[j] == s.tasks[j])
    && |s'.workers| == |s.workers| && w < |s.workers| && s'.workers[w].caps == s.workers[w].caps
  }

  function LocalRun(pc: Pc, task: Task, reject: bool, n: nat): (Pc, Task)
  {
    if n == 0 then (pc, task)
    else
      var (p, t) := LocalRun(pc, task, reject, n - 1);
      if HasTask(p) then WorkOn(p, t, false, reject) else (p, t)
  }

  predicate AtWork(s: State, w: nat, t: nat)
  {
    && w < |s.workers| && t < |s.tasks| && !s.stop && !LockHeld(s.healer)
    && HasTask(s.workers[w].pc) && s.workers[w].pc.t == t && !s.workers[w].state.Stopping?
  }

  lemma LocalStep(s: State, w: nat, t: nat)
    requires AtWork(s, w, t)
    ensures WorkerEnabled(s, w)
    ensures var s' := TakeWorkerStep(s, w);
            && Frame(s, s', w, t) && s'.workers[w].state == s.workers[w].state
            && (s'.workers[w].pc, s'.tasks[t]) == WorkOn(s.workers[w].pc, s.tasks[t], false, Rejects(s, s.tasks[t]))
            && Rejects(s', s'.tasks[t]) == Rejects(s, s.tasks[t])
            && (HasTask(s'.workers[w].pc) ==> s'.workers[w].pc.t == t)
  {
    WorkOnShape(s.workers[w].pc, s.tasks[t], s.stop, Rejects(s, s.tasks[t]));
  }

  lemma FrameTrans(a: State, b: State, c: State, w: nat, t: nat)
    requires Frame(a, b, w, t) && Frame(b, c, w, t)
    ensures Frame(a, c, w, t)
  {
  }

  /** Worker `w` has come from `s` to `s'` on task `t` with nothing else moved, and the gate would decide as before. */
  ghost predicate Carried(s: State, s': State, w: nat, t: nat)
  {
    && Frame(s, s', w, t) && t < |s.tasks| && s'.workers[w].state == s.workers[w].state
    && Rejects(s', s'.tasks[t]) == Rejects(s, s.tasks[t])
    && (HasTask(s'.workers[w].pc) ==> s'.workers[w].pc.t == t)
  }

  lemma CarriedFurther(s: State, m: State, w: nat, t: nat)
    requires AtWork(s, w, t) && Carried(s, m, w, t) && HasTask(m.workers[w].pc)
    ensures WorkerEnabled(m, w) && Carried(s, TakeWorkerStep(m, w), w, t)
    ensures var s' := TakeWorkerStep(m, w);
            (s'.workers[w].pc, s'.tasks[t]) == WorkOn(m.workers[w].pc, m.tasks[t], false, Rejects(s, s.tasks[t]))
  {
    LocalStep(m, w, t);
    FrameTrans(s, m, TakeWorkerStep(m, w), w, t);
  }

  lemma LocalRunSnoc(pc: Pc, task: Task, reject: bool, n: nat, p: Pc, t: Task)
    requires n > 0 && LocalRun(pc, task, reject, n - 1) == (p, t) && HasTask(p)
    ensures LocalRun(pc, task, reject, n) == WorkOn(p, t, false, reject)
  {
  }

  /** Alone, a worker carries its task through exactly the local program. */
  lemma {:induction false} LocalSteps(s: State, w: nat, t: nat, n: nat) returns (s': State)
    requires AtWork(s, w, t)
    requires forall m :: 0 <= m < n ==> HasTask(LocalRun(s.workers[w].pc, s.tasks[t], Rejects(s, s.tasks[t]), m).0)
    ensures LeadsTo(s, s') && Carried(s, s', w, t)
    ensures (s'.workers[w].pc, s'.tasks[t]) == LocalRun(s.workers[w].pc, s.tasks[t], Rejects(s, s.tasks[t]), n)
  {
    if n == 0 {
      s' := s;
      LeadsToSelf(s);
    } else {
      var m := LocalSteps(s, w, t, n - 1);
      var p := m.workers[w].pc;
      CarriedFurther(s, m, w, t);
      LocalRunSnoc(s.workers[w].pc, s.tasks[t], Rejects(s, s.tasks[t]), n, p, m.tasks[t]);
      LeadsToNext(s, m, WorkerStep(w));
      s' := TakeWorkerStep(m, w);
    }
  }

  /** Where a worker stands `m` steps into its task, before the gate decides. */
  function Trace(t: nat, task: Task, m: nat): (Pc, Task)
  {
    if m == 0 then (StartRun(t), task)
    else if m == 1 then (Work(t, 1), task.(status := Running))
    else if m <= 5 then (Work(t, m), task.(status := Running, progress := (m - 1) as real / 5.0))
    else
      var run := task.(status := Running, progress := 4.0 / 5.0);
      if m == 6 then (WorkDone(t), run)
      else if m == 7 then (BeginTest(t), run)
      else if m == 8 then (TestProgress(t), run.(status := Testing))
      else if m == 9 then (EnterGate(t), task.(status := Testing, progress := 0.85))
      else (GateRead(t), task.(status := Gate, progress := 0.85))
  }

  /** The program up to the gate's decision. */
  lemma {:induction false} ToTheGate(t: nat, task: Task, reject: bool, m: nat)
    requires m <= 10
    ensures LocalRun(StartRun(t), task, reject, m) == Trace(t, task, m) && HasTask(Trace(t, task, m).0)
  {
    if m > 0 {
      ToTheGate(t, task, reject, m - 1);
      TraceStep(t, task, reject, m);
    }
  }

  lemma TraceStep(t: nat, task: Task, reject: bool, m: nat)
    requires 0 < m <= 10
    ensures HasTask(Trace(t, task, m - 1).0)
    ensures WorkOn(Trace(t, task, m - 1).0, Trace(t, task, m - 1).1, false, reject) == Trace(t, task, m)
  {
  }

  lemma RejectedRun(t: nat, task: Task, m: nat)
    requires m <= 13
    ensures HasTask(LocalRun(StartRun(t), task, true, m).0)
    ensures LocalRun(StartRun(t), task, true, 13) == (WriteError(t), task.(status := Failed, progress := 0.85))
  {
    ToTheGate(t, task, true, 10);
    if m <= 10 { ToTheGate(t, task, true, m); }
    assert LocalRun(StartRun(t), task, true, 11) == (CountReject(t), task.(status := Gate, progress := 0.85));
    assert LocalRun(StartRun(t), task, true, 12) == (WriteFailed(t), task.(status := Gate, progress := 0.85));
  }

  /** From the gate's decision to the release, when it passes. */
  lemma PassedTail(t: nat, task: Task, gate: Task, m: nat)
    requires LocalRun(StartRun(t), task, false, 10) == (GateRead(t), gate) && 10 <= m < 15
    ensures HasTask(LocalRun(StartRun(t), task, false, m).0)
    ensures LocalRun(StartRun(t), task, false, 15) == (Release, gate.(status := Merged, progress := 1.0, mergeStatus := "merged"))
  {
    assert LocalRun(StartRun(t), task, false, 11) == (CountPass(t), gate);
    assert LocalRun(StartRun(t), task, false, 12) == (WriteMerged(t), gate);
    assert LocalRun(StartRun(t), task, false, 13) == (WriteComplete(t), gate.(status := Merged));
    assert LocalRun(StartRun(t), task, false, 14) == (WriteMergeStatus(t), gate.(status := Merged, progress := 1.0));
  }

  lemma PassedRun(t: nat, task: Task, m: nat)
    requires m < 15
    ensures HasTask(LocalRun(StartRun(t), task, false, m).0)
    ensures LocalRun(StartRun(t), task, false, 15) == (Release, task.(status := Merged, progress := 1.0, mergeStatus := "merged"))
  {
    ToTheGate(t, task, false, 10);
    PassedTail(t, task, Trace(t, task, 10).1, if m <= 10 then 10 else m);
    if m <= 10 { ToTheGate(t, task, false, m); }
  }

  lemma LateRun(t: nat, task: Task, reject: bool)
    ensures HasTask(LocalRun(WriteError(t), task, reject, 0).0) && HasTask(LocalRun(WriteError(t), task, reject, 1).0)
    ensures LocalRun(WriteError(t), task, reject, 2) == (Release, task.(error := Some(REJECT), mergeStatus := "rejected"))
  {
    assert LocalRun(WriteError(t), task, reject, 1) == (WriteRejected(t), task.(error := Some(REJECT)));
  }

  // ---------------------------------------------------------------- between tasks

  /** Nobody but worker `w` needs to move: it is at the top of its loop and the lock is free. */
  predicate Calm(s: State, w: nat)
  {
    && w < |s.workers| && s.workers[w].pc.LoopTest? && !s.workers[w].state.Stopping?
    && !s.stop && s.healer.HealTest? && !s.sentinelReady
    && forall j :: 0 <= j < |s.tasks| ==> s.tasks[j].status.Pending? || s.tasks[j].status.Merged?
  }

  predicate ClaimsFirst(s: State, w: nat, i: nat)
    requires w < |s.workers|
  {
    FirstClaimable(s.tasks, s.workers[w].caps, 0) == Some(i)
  }

  lemma ClaimRun(s: State, w: nat, i: nat) returns (s': State)
    requires Calm(s, w) && ClaimsFirst(s, w, i)
    ensures LeadsTo(s, s') && Frame(s, s', w, i) && AtWork(s', w, i) && s'.workers[w].pc == StartRun(i)
    ensures s'.tasks[i] == s.tasks[i].(status := Claimed, workerId := Some(w))
  {
    LeadsToSelf(s);
    LeadsToNext(s, s, WorkerStep(w));
    var m := TakeWorkerStep(s, w);
    assert m == s.(workers := s.workers[w := s.workers[w].(pc := Scan)]);
    LeadsToNext(s, m, WorkerStep(w));
    s' := ClaimStep(m, w);
  }

  lemma ReleaseRun(s: State, w: nat) returns (s': State)
    requires w < |s.workers| && s.workers[w].pc.Release? && !LockHeld(s.healer)
    ensures LeadsTo(s, s')
    ensures s' == s.(workers := s.workers[w := s.workers[w].(state := Idle, currentTask := None, pc := LoopTest)])
  {
    LeadsToSelf(s);
    LeadsToNext(s, s, WorkerStep(w));
    s' := TakeWorkerStep(s, w);
  }

  /** The worker merges the first task it can claim and comes back. */
  lemma MergeFirst(s: State, w: nat, k: nat) returns (s': State)
    requires Calm(s, w) && ClaimsFirst(s, w, k) && !Rejects(s, s.tasks[k])
    ensures LeadsTo(s, s') && Calm(s', w) && Frame(s, s', w, k)
    ensures s'.tasks[k].status.Merged? && s'.tasks[k].error == s.tasks[k].error
  {
    var a := ClaimRun(s, w, k);
    forall m | 0 <= m < 15 ensures HasTask(LocalRun(StartRun(k), a.tasks[k], false, m).0) {
      PassedRun(k, a.tasks[k], m);
    }
    PassedRun(k, a.tasks[k], 0);
    var b := LocalSteps(a, w, k, 15);
    LeadsToTrans(s, a, b);
    FrameTrans(s, a, b, w, k);
    s' := ReleaseRun(b, w);
    LeadsToTrans(s, b, s');
  }

  /** The worker works off the harmless tasks in front of task `i`. */
  lemma {:induction false} ClearEarlier(s: State, w: nat, i: nat, k: nat) returns (s': State)
    requires Calm(s, w) && k <= i < |s.tasks| && Claimable(s.tasks[i], s.workers[w].caps)
    requires forall j :: 0 <= j < k ==> !Claimable(s.tasks[j], s.workers[w].caps)
    requires forall j :: 0 <= j < i && Claimable(s.tasks[j], s.workers[w].caps) ==> s.tasks[j].taskId != SUSPECT
    ensures LeadsTo(s, s') && Calm(s', w) && |s'.tasks| == |s.tasks| && |s'.workers| == |s.workers|
    ensures s'.ticks == s.ticks && s'.tasks[i] == s.tasks[i] && ClaimsFirst(s', w, i)
    decreases i - k
  {
    if k == i {
      s' := s;
      LeadsToSelf(s);
    } else if Claimable(s.tasks[k], s.workers[w].caps) {
      var m := MergeFirst(s, w, k);
      s' := ClearEarlier(m, w, i, k + 1);
      LeadsToTrans(s, m, s');
    } else {
      s' := ClearEarlier(s, w, i, k + 1);
    }
  }

  // ---------------------------------------------------------------- the race

  /** A full healer pass from rest: every failed task is requeued. */
  lemma HealerRound(s: State)
    requires s.healer.HealTest? && !s.stop
    ensures LeadsTo(s, HealedFrom(s.(healer := Visit(0)), 0))
  {
    var a := s.(healer := HealLock);
    var b := s.(healer := Visit(0));
    LeadsToSelf(s);
    assert TakeHealerStep(s) == a && TakeHealerStep(a) == b;
    LeadsToNext(s, s, HealerStep);
    LeadsToNext(s, a, HealerStep);
    HealerPassIsARun(b, 0);
    LeadsToTrans(s, b, HealedFrom(b, 0));
  }

  /** Two sentinel steps: the tick counter moves on. */
  lemma Tick(s: State) returns (s': State)
    requires !s.sentinelReady && !s.stop && !LockHeld(s.healer)
    ensures LeadsTo(s, s') && s'.ticks == s.ticks + 1 && !s'.sentinelReady
    ensures s'.tasks == s.tasks && s'.workers == s.workers && s'.healer == s.healer && s'.stop == s.stop
  {
    LeadsToSelf(s);
    LeadsToNext(s, s, SentinelStep);
    var m := TakeSentinelStep(s);
    LeadsToNext(s, m, SentinelStep);
    s' := TakeSentinelStep(m);
  }

  /** The rejection: the task has failed, its error is not written yet. */
  lemma Rejection(s: State, w: nat, i: nat) returns (s': State)
    requires Calm(s, w) && ClaimsFirst(s, w, i) && Rejects(s, s.tasks[i])
    ensures LeadsTo(s, s') && Frame(s, s', w, i) && s'.workers[w].pc == WriteError(i) && !s'.workers[w].state.Stopping?
    ensures s'.tasks[i].status.Failed? && s'.tasks[i].error == s.tasks[i].error
    ensures s'.tasks[i].taskId == s.tasks[i].taskId && s'.tasks[i].requiredCaps == s.tasks[i].requiredCaps
  {
    var a := ClaimRun(s, w, i);
    forall m | 0 <= m < 13 ensures HasTask(LocalRun(StartRun(i), a.tasks[i], true, m).0) {
      RejectedRun(i, a.tasks[i], m);
    }
    RejectedRun(i, a.tasks[i], 0);
    s' := LocalSteps(a, w, i, 13);
    LeadsToTrans(s, a, s');
    FrameTrans(s, a, s', w, i);
  }

  /** The late writes: a task that is pending again receives the old error, and the worker is back at its loop. */
  lemma LateWrites(s: State, w: nat, i: nat) returns (s': State)
    requires AtWork(s, w, i) && s.workers[w].pc == WriteError(i) && s.healer.HealTest? && !s.sentinelReady
    requires forall j :: 0 <= j < |s.tasks| ==> s.tasks[j].status.Pending? || s.tasks[j].status.Merged?
    ensures LeadsTo(s, s') && Frame(s, s', w, i) && Calm(s', w)
    ensures s'.tasks[i] == s.tasks[i].(error := Some(REJECT), mergeStatus := "rejected")
  {
    var reject := Rejects(s, s.tasks[i]);
    LateRun(i, s.tasks[i], reject);
    forall m | 0 <= m < 2 ensures HasTask(LocalRun(WriteError(i), s.tasks[i], reject, m).0) {
      if m == 1 { assert HasTask(LocalRun(WriteError(i), s.tasks[i], reject, 1).0); }
    }
    var a := LocalSteps(s, w, i, 2);
    s' := ReleaseRun(a, w);
    LeadsToTrans(s, a, s');
  }

  /** Rejection, requeue before the late writes, and a second, successful attempt. */
  lemma RaceRun(s: State, w: nat, i: nat) returns (s': State)
    requires Calm(s, w) && ClaimsFirst(s, w, i) && s.tasks[i].taskId == SUSPECT && s.tasks[i].error.None? && s.ticks == 0
    ensures LeadsTo(s, s') && i < |s'.tasks| && Tainted(s'.tasks[i])
  {
    var rejected := Rejection(s, w, i);
    HealerRound(rejected);
    var healed := HealedFrom(rejected.(healer := Visit(0)), 0);
    LeadsToTrans(s, rejected, healed);
    HealedTasks(rejected, i);
    var late := LateWrites(healed, w, i);
    LeadsToTrans(s, healed, late);
    var ticked := Tick(late);
    LeadsToTrans(s, late, ticked);
    assert forall j :: 0 <= j < i ==> ticked.tasks[j] == s.tasks[j];
    assert ClaimsFirst(ticked, w, i);
    s' := MergeFirst(ticked, w, i);
    LeadsToTrans(s, ticked, s');
  }

  lemma HealedTasks(s: State, i: nat)
    requires i < |s.tasks| && s.tasks[i].status.Failed? && s.tasks[i].error.None?
    requires forall j :: 0 <= j < |s.tasks| && j != i ==> s.tasks[j].status.Pending? || s.tasks[j].status.Merged?
    ensures var h := HealedFrom(s.(healer := Visit(0)), 0);
            && |h.tasks| == |s.tasks| && h.tasks[i] == Requeued(s.tasks[i])
            && (forall j :: 0 <= j < |s.tasks| && j != i ==> h.tasks[j] == s.tasks[j])
  {
    assert s.tasks[..0] + HealAll(s.tasks[0..]) == HealAll(s.tasks) by { assert s.tasks[0..] == s.tasks; }
  }

  /** The first suspect task that worker `w` covers. */
  lemma {:induction false} FirstSuspect(s: State, w: nat, i: nat) returns (k: nat)
    requires w < |s.workers| && i < |s.tasks| && Covers(s, w, i)
    ensures k <= i && Covers(s, w, k) && forall j :: 0 <= j < k ==> !Covers(s, w, j)
  {
    if j :| 0 <= j < i && Covers(s, w, j) {
      k := FirstSuspect(s, w, j);
    } else {
      k := i;
    }
  }

  /**
   * From an initial configuration a task can become merged while carrying a rejection's error
   * exactly when some worker is able to run a suspect task.
   */
  lemma TaintReachableIff(s: State)
    requires Init(s)
    ensures (exists s', i: nat :: LeadsTo(s, s') && i < |s'.tasks| && Tainted(s'.tasks[i])) <==> Exposed(s)
  {
    if s', i: nat :| LeadsTo(s, s') && i < |s'.tasks| && Tainted(s'.tasks[i]) {
      TaintNeedsExposure(s, s', i);
    }
    if Exposed(s) {
      var w, j :| 0 <= w < |s.workers| && 0 <= j < |s.tasks| && Covers(s, w, j);
      var i := FirstSuspect(s, w, j);
      assert FreshWorker(s.workers[w]) && FreshTask(s.tasks[i]);
      assert forall k :: 0 <= k < |s.tasks| ==> FreshTask(s.tasks[k]);
      forall k | 0 <= k < i && Claimable(s.tasks[k], s.workers[w].caps) ensures s.tasks[k].taskId != SUSPECT {
        assert !Covers(s, w, k);
      }
      assert Calm(s, w) && Claimable(s.tasks[i], s.workers[w].caps);
      var ready := ClearEarlier(s, w, i, 0);
      var tainted := RaceRun(ready, w, i);
      LeadsToTrans(s, ready, tainted);
    }
  }
}
