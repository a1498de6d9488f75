/** Shutdown: what every run keeps once the stop event is set, and that it can always be completed. */
module SwarmShutdown {
  import opened Collections
  import opened Swarm
  import opened SwarmSafety
  import opened SwarmRunner
  import opened SwarmRaceRun

  /** An upper bound on the steps a worker still takes after the stop event. */
  function Rank(pc: Pc): nat
  {
    match pc
    case Exited => 0
    case Exiting => 1
    case LoopTest => 2
    case WorkDone(_) => 2
    case NoTask => 3
    case Release => 3
    case Work(_, _) => 3
    case StartRun(_) => 4
    case WriteMergeStatus(_) => 4
    case WriteRejected(_) => 4
    case Scan => 5
    case WriteComplete(_) => 5
    case WriteError(_) => 5
    case WriteMerged(_) => 6
    case WriteFailed(_) => 6
    case CountPass(_) => 7
    case CountReject(_) => 7
    case GateRead(_) => 8
    case EnterGate(_) => 9
    case TestProgress(_) => 10
    case BeginTest(_) => 11
  }

  predicate AtScan(wk: Worker) { wk.pc.Scan? }

  lemma WorkOnRanks(pc: Pc, task: Task, reject: bool)
    requires HasTask(pc)
    ensures var pc' := WorkOn(pc, task, true, reject).0; Rank(pc') < Rank(pc) && !pc'.Scan?
  {
  }

  /** Every step of a worker after the stop event brings it closer to its exit, and only a worker already scanning claims. */
  lemma OwnStepRanks(s: State, w: nat)
    requires s.stop && WorkerEnabled(s, w)
    ensures var s' := TakeWorkerStep(s, w);
            && s'.stop && |s'.workers| == |s.workers|
            && Rank(s'.workers[w].pc) < Rank(s.workers[w].pc) && !s'.workers[w].pc.Scan?
            && (forall v :: 0 <= v < |s.workers| && v != w ==> s'.workers[v] == s.workers[v])
            && s'.workers == s.workers[w := s'.workers[w]]
            && s'.claims <= s.claims + Flag(AtScan(s.workers[w]))
  {
    var wk := s.workers[w];
    if HasTask(wk.pc) {
      WorkOnRanks(wk.pc, s.tasks[wk.pc.t], Rejects(s, s.tasks[wk.pc.t]));
    }
  }

  lemma {:induction false} MarkedScans(ws: seq<Worker>)
    ensures Count(Marked(ws), AtScan) == Count(ws, AtScan)
  {
    if ws != [] {
      MarkedScans(ws[1..]);
      assert Marked(ws)[1..] == Marked(ws[1..]);
    }
  }

  function Scanning(s: State): nat { Count(s.workers, AtScan) }

  lemma OtherStepKeeps(s: State, step: Step)
    requires s.stop && Enabled(s, step) && !step.WorkerStep?
    ensures var s' := Next(s, step);
            && s'.stop && |s'.workers| == |s.workers| && s'.claims == s.claims && Scanning(s') == Scanning(s)
            && forall v :: 0 <= v < |s.workers| ==> s'.workers[v].pc == s.workers[v].pc
  {
    MarkedScans(s.workers);
  }

  function OwnSteps(schedule: seq<Step>, w: nat): nat
  {
    if schedule == [] then 0 else Flag(schedule[0] == WorkerStep(w)) + OwnSteps(schedule[1..], w)
  }

  lemma StepRanks(s: State, step: Step, w: nat)
    requires s.stop && Enabled(s, step) && w < |s.workers|
    ensures var s' := Next(s, step);
            && s'.stop && |s'.workers| == |s.workers|
            && Rank(s'.workers[w].pc) + Flag(step == WorkerStep(w)) <= Rank(s.workers[w].pc)
            && s'.claims + Scanning(s') <= s.claims + Scanning(s)
  {
    if step.WorkerStep? {
      OwnStepRanks(s, step.w);
      CountUpdate(s.workers, AtScan, step.w, Next(s, step).workers[step.w]);
    } else {
      OtherStepKeeps(s, step);
    }
  }

  /**
   * After the stop event, in every schedule: a worker's own steps never exceed its rank, which is at
   * most eleven, and no task is claimed but by workers that were already scanning, one each.
   */
  lemma {:induction false} ShutdownIsBounded(s: State, schedule: seq<Step>, w: nat)
    requires s.stop && Run(s, schedule).Some? && w < |s.workers|
    ensures var s' := Run(s, schedule).value;
            && s'.stop && |s'.workers| == |s.workers|
            && OwnSteps(schedule, w) + Rank(s'.workers[w].pc) <= Rank(s.workers[w].pc) <= 11
            && s'.claims + Scanning(s') <= s.claims + Scanning(s)
    decreases |schedule|
  {
    if schedule != [] {
      StepRanks(s, schedule[0], w);
      ShutdownIsBounded(Next(s, schedule[0]), schedule[1..], w);
    }
  }

  /** A worker that has taken as many steps as its rank has exited. */
  lemma EnoughStepsExit(s: State, schedule: seq<Step>, w: nat)
    requires s.stop && Run(s, schedule).Some? && w < |s.workers| && OwnSteps(schedule, w) >= Rank(s.workers[w].pc)
    ensures w < |Run(s, schedule).value.workers| && Run(s, schedule).value.workers[w].pc.Exited?
  {
    ShutdownIsBounded(s, schedule, w);
  }

  // ---------------------------------------------------------------- it can always be completed

  /** How far the healer is from releasing the lock. */
  function HealerRank(h: HealerPc, n: nat): int
  {
    match h
    case HealTest => 0
    case HealLock => 0
    case Visit(i) => 6 * (n - i) + 6
    case ClearWorker(i) => 6 * (n - i) + 5
    case ClearProgress(i) => 6 * (n - i) + 4
    case ClearMerge(i) => 6 * (n - i) + 3
    case ClearError(i) => 6 * (n - i) + 2
    case CountAction(i) => 6 * (n - i) + 1
  }

  lemma HealerMoves(s: State)
    requires Inv(s) && LockHeld(s.healer)
    ensures HealerEnabled(s)
    ensures var s' := TakeHealerStep(s);
            && s'.workers == s.workers && s'.stop == s.stop && |s'.tasks| == |s.tasks|
            && 0 <= HealerRank(s'.healer, |s.tasks|) < HealerRank(s.healer, |s.tasks|)
  {
  }

  /** The healer releases the lock, whoever else stands still. */
  lemma {:induction false} HealerReleases(s: State) returns (s': State)
    requires Inv(s) && s.stop
    ensures LeadsTo(s, s') && Inv(s') && s'.stop && s'.workers == s.workers && !LockHeld(s'.healer)
    decreases HealerRank(s.healer, |s.tasks|)
  {
    if !LockHeld(s.healer) {
      s' := s;
      LeadsToSelf(s);
    } else {
      HealerMoves(s);
      StepKeepsInv(s, HealerStep);
      var m := TakeHealerStep(s);
      s' := HealerReleases(m);
      LeadsToStep(s, HealerStep, s');
    }
  }

  lemma CanMove(s: State, w: nat)
    requires Inv(s) && !LockHeld(s.healer) && w < |s.workers| && !s.workers[w].pc.Exited?
    ensures WorkerEnabled(s, w) && TakeWorkerStep(s, w).healer == s.healer
  {
    assert WorkerOk(s, w);
  }

  lemma {:induction false} WorkerExits(s: State, w: nat) returns (s': State)
    requires Inv(s) && s.stop && !LockHeld(s.healer) && w < |s.workers|
    ensures LeadsTo(s, s') && Inv(s') && s'.stop && !LockHeld(s'.healer) && |s'.workers| == |s.workers|
    ensures s'.workers[w].pc.Exited? && forall v :: 0 <= v < |s.workers| && v != w ==> s'.workers[v] == s.workers[v]
    decreases Rank(s.workers[w].pc)
  {
    if s.workers[w].pc.Exited? {
      s' := s;
      LeadsToSelf(s);
    } else {
      CanMove(s, w);
      OwnStepRanks(s, w);
      StepKeepsInv(s, WorkerStep(w));
      s' := WorkerExits(TakeWorkerStep(s, w), w);
      LeadsToStep(s, WorkerStep(w), s');
    }
  }

  lemma {:induction false} WorkersExit(s: State, n: nat) returns (s': State)
    requires Inv(s) && s.stop && !LockHeld(s.healer) && n <= |s.workers|
    ensures LeadsTo(s, s') && Inv(s') && s'.stop && !LockHeld(s'.healer) && |s'.workers| == |s.workers|
    ensures forall v :: 0 <= v < n ==> s'.workers[v].pc.Exited?
  {
    if n == 0 {
      s' := s;
      LeadsToSelf(s);
    } else {
      var m := WorkersExit(s, n - 1);
      s' := WorkerExits(m, n - 1);
      LeadsToTrans(s, m, s');
    }
  }

  /** No stopped state is a deadlock: from every reachable one, some run brings every worker to its exit. */
  lemma ShutdownCanComplete(s: State) returns (s': State)
    requires Reachable(s) && s.stop
    ensures LeadsTo(s, s') && |s'.workers| == |s.workers| && forall w :: 0 <= w < |s.workers| ==> s'.workers[w].pc.Exited?
  {
    ReachableInv(s);
    var m := HealerReleases(s);
    s' := WorkersExit(m, |m.workers|);
    LeadsToTrans(s, m, s');
  }
}
