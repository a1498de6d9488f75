/** The polling loop of the collector, on an explicit clock. */
module ReleasePolling {
  import opened Collections
  import opened PyValues
  import opened ReleaseEvidence

  /**
   * The world the loop runs in: what the k-th snapshot shows, how long taking and judging it took,
   * and by how much the k-th sleep overran what was asked.
   */
  datatype World = World(start: real, snapshot: nat -> Snapshot, work: nat -> real, overrun: nat -> real)

  /** Time never goes backwards and a sleep lasts at least as long as asked. */
  ghost predicate Orderly(w: World) { forall k: nat :: w.work(k) >= 0.0 && w.overrun(k) >= 0.0 }

  predicate IsTerminal(s: GateState) { s == Success || s == Failure }

  function GateStates(gates: seq<GateSpec>, sha: string, snap: Snapshot): set<GateState>
  {
    if gates == [] then {} else {GateStateOf(gates[0], sha, snap)} + GateStates(gates[1..], sha, snap)
  }

  /** All gates are decided, or one has failed. */
  predicate Settled(states: set<GateState>) { (forall s :: s in states ==> IsTerminal(s)) || Failure in states }

  predicate Decided(sha: string, snap: Snapshot) { Settled(GateStates(GATES, sha, snap)) }

  /** How the loop judges a snapshot, and what it reports of one. */
  function Judge(sha: string): Snapshot -> bool { snap => Decided(sha, snap) }

  function Builder(sha: string, runId: int): Snapshot -> Rec { snap => BuildReport(sha, runId, snap) }

  /** The first `k` snapshots leave the release open. */
  ghost predicate NoneDecided(judge: Snapshot -> bool, w: World, k: nat)
  {
    forall i: nat :: i < k ==> !judge(w.snapshot(i))
  }

  /** The least integer not below a/b. */
  function CeilDiv(a: nat, b: nat): (r: nat)
    requires b > 0
    ensures b * r >= a && (r > 0 ==> b * (r - 1) < a)
  {
    (a + b - 1) / b
  }

  datatype Outcome = Outcome(report: Rec, last: nat, asked: real, observedAt: real)

  /** What the loop promises about its outcome. */
  ghost predicate Promised(judge: Snapshot -> bool, build: Snapshot -> Rec, timeout: nat, poll: nat, w: World, o: Outcome)
    requires poll > 0
  {
    && o.last + 1 <= CeilDiv(timeout, poll) + 1
    && 0.0 <= o.asked <= timeout as real
    && o.report == build(w.snapshot(o.last))
    && (judge(w.snapshot(o.last)) || o.observedAt >= w.start + timeout as real)
    && NoneDecided(judge, w, o.last)
  }

  /**
   * Takes at most ceil(timeout/poll)+1 snapshots, asks for at most `timeout` seconds of sleep, and
   * returns the report of the last snapshot, which is decided or was looked at past the deadline.
   */
  method CollectUntilTerminal(sha: string, runId: int, timeout: int, poll: int, w: World) returns (r: Option<Outcome>)
    requires Orderly(w)
    ensures r.None? <==> timeout < 0 || poll < 1
    ensures r.Some? ==> Promised(Judge(sha), Builder(sha, runId), timeout, poll, w, r.value)
  {
    r := PollUntil(Judge(sha), Builder(sha, runId), timeout, poll, w);
  }

  /** The loop, for any way to judge and report a snapshot. */
  method PollUntil(judge: Snapshot -> bool, build: Snapshot -> Rec, timeout: int, poll: int, w: World)
    returns (r: Option<Outcome>)
    requires Orderly(w)
    ensures r.None? <==> timeout < 0 || poll < 1
    ensures r.Some? ==> Promised(judge, build, timeout, poll, w, r.value)
  {
    if timeout < 0 || poll < 1 {
      return None;
    }
    var deadline := w.start + timeout as real;
    var now := w.start;
    var asked := 0.0;
    var k: nat := 0;
    while true
      invariant k <= CeilDiv(timeout, poll)
      invariant 0.0 <= asked <= now - w.start && asked <= timeout as real
      invariant now >= deadline || now - w.start >= Rounds(k, poll)
      invariant NoneDecided(judge, w, k)
      decreases CeilDiv(timeout, poll) - k
    {
      var snap := w.snapshot(k);
      var report := build(snap);
      now := now + w.work(k);
      if judge(snap) {
        return Some(Outcome(report, k, asked, now));
      }
      if now >= deadline {
        return Some(Outcome(report, k, asked, now));
      }
      var sleep := Min(poll as real, Max(0.0, deadline - now));
      ghost var before := now - w.start;
      StillTime(k, poll, timeout, before);
      asked := asked + sleep;
      now := now + sleep + w.overrun(k);
      SleepAdvances(k, poll, before, deadline - w.start, sleep, w.overrun(k));
      k := k + 1;
    }
  }

  /** The time `k` full sleeps take. */
  function Rounds(k: nat, poll: nat): real { k as real * poll as real }

  /** A sleep reaches either the deadline or the end of the next round. */
  lemma SleepAdvances(k: nat, poll: nat, elapsed: real, timeout: real, sleep: real, overrun: real)
    requires elapsed < timeout && elapsed >= Rounds(k, poll) && overrun >= 0.0
    requires sleep == Min(poll as real, Max(0.0, timeout - elapsed))
    ensures 0.0 <= sleep <= timeout - elapsed
    ensures elapsed + sleep + overrun >= timeout || elapsed + sleep + overrun >= Rounds(k + 1, poll)
  {
    assert Rounds(k + 1, poll) == Rounds(k, poll) + poll as real;
  }

  /** Before the deadline, one more round fits under the bound. */
  lemma StillTime(k: nat, poll: nat, timeout: nat, elapsed: real)
    requires poll > 0 && Rounds(k, poll) <= elapsed < timeout as real
    ensures k < CeilDiv(timeout, poll)
  {
    assert (k * poll) as real == Rounds(k, poll);
    assert k * poll < timeout;
    var c := CeilDiv(timeout, poll);
    assert k < c || k * poll >= c * poll;
  }
}
