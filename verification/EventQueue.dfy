/**
 * The bounded drop-oldest queue between the transport thread and the drain of the user interface.
 * The class is the code as one thread runs it; the transition system interleaves both threads.
 */
module EventQueue {
  import opened Collections

  /** `queue.Queue(maxsize)`: a size of zero or less means unbounded. */
  predicate IsFull(n: nat, maxsize: int) { maxsize > 0 && n >= maxsize }

  class Realtime<E> {
    var events: seq<E>
    const maxsize: int

    constructor (maxsize: int)
      ensures events == [] && this.maxsize == maxsize
    {
      this.maxsize := maxsize;
      events := [];
    }

    method PutNowait(e: E) returns (ok: bool)
      modifies this`events
      ensures ok == !IsFull(|old(events)|, maxsize)
      ensures events == if ok then old(events) + [e] else old(events)
    {
      ok := !(maxsize > 0 && |events| >= maxsize);
      if ok {
        events := events + [e];
      }
    }

    method GetNowait() returns (e: Option<E>)
      modifies this`events
      ensures old(events) == [] ==> e.None? && events == []
      ensures old(events) != [] ==> e == Some(old(events)[0]) && events == old(events)[1..]
    {
      if events == [] {
        return None;
      }
      e := Some(events[0]);
      events := events[1..];
    }

    /** `_publish` without interference: the event enters, at the price of the oldest when the queue is full. */
    method Publish(e: E)
      requires maxsize > 0 ==> |events| <= maxsize
      modifies this`events
      ensures events == (if IsFull(|old(events)|, maxsize) then old(events)[1..] else old(events)) + [e]
      ensures maxsize > 0 ==> |events| <= maxsize
    {
      var ok := PutNowait(e);
      if !ok {
        var dropped := GetNowait();
        ok := PutNowait(e);
      }
    }

    /** `drain`: the oldest events, at most `limit` of them, in order. */
    method Drain(limit: int) returns (result: seq<E>)
      modifies this`events
      ensures |result| == if limit <= 0 then 0 else if limit <= |old(events)| then limit else |old(events)|
      ensures old(events) == result + events
    {
      result := [];
      var i := 0;
      while i < limit
        invariant 0 <= i && i <= (if limit < 0 then 0 else limit)
        invariant old(events) == result + events
        invariant |result| + |events| == |old(events)|
        invariant |result| == i
      {
        ghost var before := events;
        var e := GetNowait();
        if e.None? {
          break;
        }
        assert before == [e.value] + events;
        result := result + [e.value];
        i := i + 1;
      }
    }
  }

  // ---------------------------------------------------------------- two threads

  /** Where the producer stands inside `_publish`. */
  datatype Producer<E> = Ready | SawFull(e: E) | MadeRoom(e: E)

  /** An event that left the queue, and whether the producer threw it away. */
  datatype Exit<E> = Exit(e: E, lost: bool)

  datatype State<E> = State(
    maxsize: int,
    queue: seq<E>,
    producer: Producer<E>,
    published: seq<E>,     // events whose put succeeded, in order
    refused: seq<E>,       // events the second put could not place
    exits: seq<Exit<E>>,   // everything removed, in order of removal
    fullSeen: nat)         // how often the first put found the queue full

  datatype Step<E> = Offer(e: E) | Continue | Take

  predicate Enabled<E>(s: State<E>, step: Step<E>)
  {
    match step
    case Offer(_) => s.producer.Ready?
    case Continue => !s.producer.Ready?
    case Take => true
  }

  function Enqueue<E>(s: State<E>, e: E): State<E>
  {
    s.(queue := s.queue + [e], published := s.published + [e], producer := Ready)
  }

  function Dequeue<E>(s: State<E>, lost: bool): State<E>
  {
    if s.queue == [] then s else s.(queue := s.queue[1..], exits := s.exits + [Exit(s.queue[0], lost)])
  }

  function Next<E>(s: State<E>, step: Step<E>): State<E>
    requires Enabled(s, step)
  {
    match step
    case Offer(e) =>
      if IsFull(|s.queue|, s.maxsize) then s.(producer := SawFull(e), fullSeen := s.fullSeen + 1) else Enqueue(s, e)
    case Continue =>
      (match s.producer
       case SawFull(e) => Dequeue(s, true).(producer := MadeRoom(e))
       case MadeRoom(e) =>
         if IsFull(|s.queue|, s.maxsize) then s.(refused := s.refused + [e], producer := Ready) else Enqueue(s, e))
    case Take => Dequeue(s, false)
  }

  function Start<E>(maxsize: int): State<E> { State(maxsize, [], Ready, [], [], [], 0) }

  function Run<E>(s: State<E>, schedule: seq<Step<E>>): Option<State<E>>
    decreases |schedule|
  {
    if schedule == [] then Some(s)
    else if Enabled(s, schedule[0]) then Run(Next(s, schedule[0]), schedule[1..])
    else None
  }

  function Gone<E>(exits: seq<Exit<E>>): seq<E>
  {
    if exits == [] then [] else Gone(exits[..|exits| - 1]) + [exits[|exits| - 1].e]
  }

  predicate IsLost<E>(x: Exit<E>) { x.lost }

  /** How many losses the observed full queues account for so far. */
  function LossBudget<E>(s: State<E>): int { s.fullSeen - (if s.producer.SawFull? then 1 else 0) }

  ghost predicate Inv<E>(s: State<E>)
  {
    && Gone(s.exits) + s.queue == s.published
    && |s.refused| == 0
    && (s.maxsize > 0 ==> |s.queue| <= s.maxsize)
    && (s.producer.MadeRoom? ==> !IsFull(|s.queue|, s.maxsize))
    && Count(s.exits, IsLost) <= LossBudget(s)
    && (s.producer.SawFull? || s.producer.MadeRoom? ==> s.maxsize > 0)
  }

  lemma DequeueKeeps<E>(s: State<E>, lost: bool)
    requires Gone(s.exits) + s.queue == s.published && s.queue != []
    ensures var s' := Dequeue(s, lost);
            && Gone(s'.exits) + s'.queue == s'.published
            && Count(s'.exits, IsLost) == Count(s.exits, IsLost) + (if lost then 1 else 0)
  {
    var s' := Dequeue(s, lost);
    assert s'.exits[..|s'.exits| - 1] == s.exits;
    assert s.queue == [s.queue[0]] + s.queue[1..];
    CountConcat(s.exits, [Exit(s.queue[0], lost)], IsLost<E>);
  }

  lemma EnqueueKeeps<E>(s: State<E>, e: E)
    requires Inv(s) && !IsFull(|s.queue|, s.maxsize) && !s.producer.SawFull?
    ensures Inv(Enqueue(s, e))
  {
    assert Gone(s.exits) + (s.queue + [e]) == Gone(s.exits) + s.queue + [e];
  }

  lemma MakeRoomKeeps<E>(s: State<E>)
    requires Inv(s) && s.producer.SawFull?
    ensures Inv(Next(s, Continue))
  {
    if s.queue != [] { DequeueKeeps(s, true); }
  }

  lemma TakeKeeps<E>(s: State<E>)
    requires Inv(s)
    ensures Inv(Next(s, Take))
  {
    if s.queue != [] { DequeueKeeps(s, false); }
  }

  lemma StepKeepsInv<E>(s: State<E>, step: Step<E>)
    requires Inv(s) && Enabled(s, step)
    ensures Inv(Next(s, step))
  {
    match step {
      case Offer(e) =>
        if !IsFull(|s.queue|, s.maxsize) { EnqueueKeeps(s, e); }
      case Continue =>
        if s.producer.SawFull? { MakeRoomKeeps(s); } else { EnqueueKeeps(s, s.producer.e); }
      case Take =>
        TakeKeeps(s);
    }
  }

  lemma {:induction false} RunKeepsInv<E>(s: State<E>, schedule: seq<Step<E>>)
    requires Inv(s) && Run(s, schedule).Some?
    ensures Inv(Run(s, schedule).value)
    decreases |schedule|
  {
    if schedule != [] {
      StepKeepsInv(s, schedule[0]);
      RunKeepsInv(Next(s, schedule[0]), schedule[1..]);
    }
  }

  /**
   * In every interleaving of one producer with any drainer: what left the queue, in order, followed
   * by what is still in it, is exactly what was published; the second put is never refused; each
   * loss was paid for by a queue seen full; and the queue never outgrows its bound.
   */
  lemma NothingLostUnseen<E>(maxsize: int, schedule: seq<Step<E>>)
    requires Run(Start(maxsize), schedule).Some?
    ensures var s := Run(Start(maxsize), schedule).value;
            && Gone(s.exits) + s.queue == s.published
            && |s.refused| == 0
            && Count(s.exits, IsLost) <= s.fullSeen
            && (s.maxsize > 0 ==> |s.queue| <= s.maxsize)
  {
    assert Inv(Start<E>(maxsize)) by {
      assert Gone<E>([]) + [] == [];
    }
    RunKeepsInv(Start(maxsize), schedule);
  }

  /** Publishing never loses the event being published: when it completes, that event is the last one in the queue. */
  lemma NewestIsKept<E>(s: State<E>, step: Step<E>)
    requires Inv(s) && Enabled(s, step) && !step.Take? && Next(s, step).producer.Ready?
    ensures var e := if step.Offer? then step.e else s.producer.e;
            Next(s, step).queue == s.queue + [e] && Next(s, step).published == s.published + [e]
  {
  }

  /** Only the producer's own get loses an event, and it loses the oldest one. */
  lemma LossIsOldest<E>(s: State<E>, step: Step<E>)
    requires Inv(s) && Enabled(s, step)
    requires Count(Next(s, step).exits, IsLost) > Count(s.exits, IsLost)
    ensures s.producer.SawFull? && step.Continue? && s.queue != []
    ensures Next(s, step).exits == s.exits + [Exit(s.queue[0], true)]
  {
    if s.queue != [] {
      DequeueKeeps(s, false);
    }
  }

  /** The producer's own steps when nobody takes anything in between. */
  function PublishSchedule<E>(s: State<E>, e: E): seq<Step<E>>
  {
    if IsFull(|s.queue|, s.maxsize) then [Offer(e), Continue, Continue] else [Offer(e)]
  }

  /** Run without interference, those steps do to the queue what `Publish` does. */
  lemma PublishAlone<E>(s: State<E>, e: E)
    requires Inv(s) && s.producer.Ready?
    ensures var r := Run(s, PublishSchedule(s, e));
            && r.Some? && r.value.producer.Ready?
            && r.value.queue == (if IsFull(|s.queue|, s.maxsize) then s.queue[1..] else s.queue) + [e]
  {
    var steps := PublishSchedule(s, e);
    var a := Next(s, Offer(e));
    if IsFull(|s.queue|, s.maxsize) {
      var b := Next(a, Continue);
      var c := Next(b, Continue);
      assert steps[1..] == [Continue, Continue] && steps[1..][1..] == [Continue];
      var last: seq<Step<E>> := [Continue];
      assert last[1..] == [];
      assert Run(c, []) == Some(c);
      assert Run(b, [Continue]) == Some(c);
      assert Run(a, [Continue, Continue]) == Some(c);
    } else {
      assert steps[1..] == [];
    }
  }
}
