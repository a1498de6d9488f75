/**
 * The lock-protected regions of the swarm as the source writes them: loops that update the shared
 * state in place. Each is proved against the step function or count the transition system uses.
 */
module SwarmRunner {
  import opened Collections
  import opened Swarm
  import opened SwarmSafety

  /** A requeued task keeps only its identity. */
  function Requeued(t: Task): Task
  {
    t.(status := Pending, workerId := None, progress := 0.0, mergeStatus := NO_MERGE, error := None)
  }

  /** Every task after a healer pass nobody interferes with. */
  function HealAll(tasks: seq<Task>): (r: seq<Task>)
    ensures |r| == |tasks|
    ensures forall i :: 0 <= i < |r| ==> r[i] == if Requeuable(tasks[i]) then Requeued(tasks[i]) else tasks[i]
  {
    seq(|tasks|, i requires 0 <= i < |tasks| => if Requeuable(tasks[i]) then Requeued(tasks[i]) else tasks[i])
  }

  class SwarmState {
    var tasks: seq<Task>
    var ticks: nat
    var sentinelAlerts: nat
    var healerActions: nat

    constructor (tasks: seq<Task>)
      ensures this.tasks == tasks && ticks == sentinelAlerts == healerActions == 0
    {
      this.tasks := tasks;
      ticks, sentinelAlerts, healerActions := 0, 0, 0;
    }

    /** The scan of `worker_loop`: claim the first pending task the worker's capabilities cover. */
    method Claim(worker: nat, caps: set<string>) returns (claimed: Option<nat>)
      modifies this`tasks
      ensures claimed == FirstClaimable(old(tasks), caps, 0)
      ensures tasks == match claimed
                       case None => old(tasks)
                       case Some(i) => old(tasks)[i := old(tasks)[i].(status := Claimed, workerId := Some(worker))]
    {
      var i := 0;
      while i < |tasks|
        invariant i <= |tasks| && tasks == old(tasks)
        invariant FirstClaimable(tasks, caps, 0) == FirstClaimable(tasks, caps, i)
      {
        if tasks[i].status.Pending? && tasks[i].requiredCaps <= caps {
          tasks := tasks[i := tasks[i].(status := Claimed, workerId := Some(worker))];
          return Some(i);
        }
        i := i + 1;
      }
      return None;
    }

    /** One pass of `healer_loop`. */
    method HealerPass()
      modifies this`tasks, this`healerActions
      ensures tasks == HealAll(old(tasks))
      ensures forall i :: 0 <= i < |tasks| ==>
        tasks[i] == if old(tasks)[i].status.Failed? && old(tasks)[i].error != Some("max_retries")
                    then Task(old(tasks)[i].taskId, old(tasks)[i].requiredCaps, Pending, None, 0.0, "\U{2014}", None)
                    else old(tasks)[i]
      ensures healerActions == old(healerActions) + Count(old(tasks), Requeuable)
    {
      ghost var before := tasks;
      var i := 0;
      while i < |tasks|
        invariant i <= |tasks| == |before|
        invariant forall j :: 0 <= j < i ==> tasks[j] == HealAll(before)[j]
        invariant forall j :: i <= j < |tasks| ==> tasks[j] == before[j]
        invariant healerActions == old(healerActions) + Count(before[..i], Requeuable)
      {
        CountSnoc(before, i, Requeuable);
        if tasks[i].status.Failed? && tasks[i].error != Some(MAX_RETRIES) {
          tasks := tasks[i := Requeued(tasks[i])];
          healerActions := healerActions + 1;
        }
        i := i + 1;
      }
      assert before[..i] == before;
    }

    /** One pass of `sentinel_loop`. */
    method SentinelPass()
      modifies this`ticks, this`sentinelAlerts
      ensures ticks == old(ticks) + 1
      ensures sentinelAlerts == old(sentinelAlerts) + Count(tasks, IsFailed)
    {
      ticks := ticks + 1;
      var i := 0;
      while i < |tasks|
        invariant i <= |tasks| && ticks == old(ticks) + 1
        invariant sentinelAlerts == old(sentinelAlerts) + Count(tasks[..i], IsFailed)
      {
        CountSnoc(tasks, i, IsFailed);
        if tasks[i].status.Failed? {
          sentinelAlerts := sentinelAlerts + 1;
        }
        i := i + 1;
      }
      assert tasks[..i] == tasks;
    }
  }

  // ---------------------------------------------------------------- the pass inside the transition system

  function HealedFrom(s: State, i: nat): State
    requires i <= |s.tasks|
  {
    s.(tasks := s.tasks[..i] + HealAll(s.tasks[i..]),
       healer := HealTest,
       healerActions := s.healerActions + Count(s.tasks[i..], Requeuable))
  }

  lemma LeadsToStep(s: State, step: Step, s': State)
    requires Enabled(s, step) && LeadsTo(Next(s, step), s')
    ensures LeadsTo(s, s')
  {
    var schedule :| Run(Next(s, step), schedule) == Some(s');
    assert ([step] + schedule)[1..] == schedule;
    assert Run(s, [step] + schedule) == Some(s');
  }

  lemma LeadsToSelf(s: State)
    ensures LeadsTo(s, s)
  {
    assert Run(s, []) == Some(s);
  }

  function Visited(s: State, i: nat, h: HealerPc, task: Task): State
    requires i < |s.tasks|
  {
    s.(tasks := s.tasks[i := task], healer := h)
  }

  /** One write of the healer to the task it is visiting. */
  lemma HealerWrites(s: State, i: nat, h: HealerPc, task: Task, s': State)
    requires i < |s.tasks| && LockHeld(h) && h.i == i && !h.CountAction?
    requires LeadsTo(Visited(s, i, HealOn(h, task).0, HealOn(h, task).1), s')
    ensures LeadsTo(Visited(s, i, h, task), s')
  {
    var a := Visited(s, i, h, task);
    assert a.tasks[i := HealOn(h, task).1] == s.tasks[i := HealOn(h, task).1];
    assert TakeHealerStep(a) == Visited(s, i, HealOn(h, task).0, HealOn(h, task).1);
    LeadsToStep(a, HealerStep, s');
  }

  /** The five writes and the count of one requeue, taken without interference. */
  lemma RequeueOne(s: State, i: nat, s': State)
    requires i < |s.tasks| && s.healer == Visit(i) && Requeuable(s.tasks[i])
    requires LeadsTo(s.(tasks := s.tasks[i := Requeued(s.tasks[i])], healer := Visit(i + 1),
                        healerActions := s.healerActions + 1), s')
    ensures LeadsTo(s, s')
  {
    var t := s.tasks[i];
    var t1 := t.(status := Pending);
    var t2 := t1.(workerId := None);
    var t3 := t2.(progress := 0.0);
    var t4 := t3.(mergeStatus := NO_MERGE);
    HealerCounts(s, i, s');
    HealerWrites(s, i, ClearError(i), t4, s');
    HealerWrites(s, i, ClearMerge(i), t3, s');
    HealerWrites(s, i, ClearProgress(i), t2, s');
    HealerWrites(s, i, ClearWorker(i), t1, s');
    HealerWrites(s, i, Visit(i), t, s');
    assert Visited(s, i, Visit(i), t) == s;
  }

  lemma HealerCounts(s: State, i: nat, s': State)
    requires i < |s.tasks|
    requires LeadsTo(s.(tasks := s.tasks[i := Requeued(s.tasks[i])], healer := Visit(i + 1),
                        healerActions := s.healerActions + 1), s')
    ensures LeadsTo(Visited(s, i, CountAction(i), Requeued(s.tasks[i])), s')
  {
    var a := Visited(s, i, CountAction(i), Requeued(s.tasks[i]));
    assert a.tasks[i := a.tasks[i]] == a.tasks;
    LeadsToStep(a, HealerStep, s');
  }

  lemma HealedOneFurther(s: State, i: nat, t': Task)
    requires i < |s.tasks| && t' == if Requeuable(s.tasks[i]) then Requeued(s.tasks[i]) else s.tasks[i]
    ensures var s1 := s.(tasks := s.tasks[i := t'], healer := Visit(i + 1),
                         healerActions := s.healerActions + Flag(Requeuable(s.tasks[i])));
            HealedFrom(s1, i + 1) == HealedFrom(s, i)
  {
    HealHead(s.tasks[i..]);
    assert s.tasks[i..][1..] == s.tasks[i + 1..];
    SliceAfterUpdate(s.tasks, i, t');
    Regroup(s.tasks[..i], t', HealAll(s.tasks[i + 1..]));
  }

  lemma HealHead(tasks: seq<Task>)
    requires tasks != []
    ensures HealAll(tasks) == [if Requeuable(tasks[0]) then Requeued(tasks[0]) else tasks[0]] + HealAll(tasks[1..])
    ensures Count(tasks, Requeuable) == Flag(Requeuable(tasks[0])) + Count(tasks[1..], Requeuable)
  {
  }

  lemma SliceAfterUpdate(tasks: seq<Task>, i: nat, t': Task)
    requires i < |tasks|
    ensures tasks[i := t'][i + 1..] == tasks[i + 1..] && tasks[i := t'][..i + 1] == tasks[..i] + [t']
  {
  }

  lemma Regroup(a: seq<Task>, t: Task, b: seq<Task>)
    ensures a + [t] + b == a + ([t] + b)
  {
  }

  /** `HealerPass` is a behaviour of the transition system: the healer's own steps, back to back. */
  lemma {:induction false} HealerPassIsARun(s: State, i: nat)
    requires i <= |s.tasks| && s.healer == Visit(i)
    ensures LeadsTo(s, HealedFrom(s, i))
    decreases |s.tasks| - i
  {
    if i == |s.tasks| {
      assert s.tasks[..i] + HealAll(s.tasks[i..]) == s.tasks;
      LeadsToSelf(TakeHealerStep(s));
      LeadsToStep(s, HealerStep, HealedFrom(s, i));
    } else {
      var t' := if Requeuable(s.tasks[i]) then Requeued(s.tasks[i]) else s.tasks[i];
      var s1 := s.(tasks := s.tasks[i := t'], healer := Visit(i + 1),
                   healerActions := s.healerActions + Flag(Requeuable(s.tasks[i])));
      HealerPassIsARun(s1, i + 1);
      HealedOneFurther(s, i, t');
      if Requeuable(s.tasks[i]) {
        RequeueOne(s, i, HealedFrom(s, i));
      } else {
        assert s1.tasks == s.tasks;
        LeadsToStep(s, HealerStep, HealedFrom(s, i));
      }
    }
  }

  // ---------------------------------------------------------------- completion tests

  /** `project_complete` scans until it meets a task that is not merged. */
  method CheckProjectComplete(s: State) returns (done: bool)
    ensures done <==> ProjectComplete(s)
  {
    if s.tasks == [] {
      return false;
    }
    var i := 0;
    while i < |s.tasks|
      invariant i <= |s.tasks|
      invariant forall j :: 0 <= j < i ==> s.tasks[j].status.Merged?
    {
      if !s.tasks[i].status.Merged? {
        return false;
      }
      i := i + 1;
    }
    return true;
  }
}
