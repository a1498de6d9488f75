/** The reconnect loop of the realtime transport: WebSocket first, then SSE, then back off. */
module Reconnect {
  import opened Collections

  /** How one round of the loop goes. A round fails when both transports fail. */
  datatype Round = WebSocketClosed | SseClosed | BothFailed(sessionRenewed: bool)

  datatype Status = Connecting | Reconnecting | Offline

  function Pow2(k: nat): real { if k == 0 then 1.0 else 2.0 * Pow2(k - 1) }

  /** The delay after `k` consecutive failed rounds. */
  function Backoff(k: nat): real { Min(0.5 * Pow2(k), 8.0) }

  lemma {:induction false} BackoffDoubles(k: nat)
    ensures Pow2(k) >= 1.0
    ensures Backoff(k + 1) == Min(Backoff(k) * 2.0, 8.0)
  {
    if k > 0 { BackoffDoubles(k - 1); }
    assert Pow2(k + 1) == 2.0 * Pow2(k);
  }

  /** How many of the last rounds failed in a row. */
  function Streak(rounds: seq<Round>): nat
  {
    if rounds == [] || !rounds[|rounds| - 1].BothFailed? then 0 else 1 + Streak(rounds[..|rounds| - 1])
  }

  /** The streak right after round `i`. */
  function StreakAt(rounds: seq<Round>, i: nat): nat
    requires i < |rounds|
  {
    Streak(rounds[..i + 1])
  }

  lemma Snoc(rounds: seq<Round>, i: nat)
    requires i < |rounds|
    ensures StreakAt(rounds, i) == if rounds[i].BothFailed? then 1 + Streak(rounds[..i]) else 0
    ensures var k := StreakAt(rounds, i);
            Waits(rounds[..i + 1]) == Waits(rounds[..i]) + (if k == 0 then [] else [Wait(i, Backoff(k - 1))])
  {
    assert rounds[..i + 1][..i] == rounds[..i];
  }

  /** A wait: after which round, and for how long. */
  datatype Wait = Wait(round: nat, delay: real)

  /** The waits of a run that never goes offline. */
  function Waits(rounds: seq<Round>): seq<Wait>
  {
    if rounds == [] then []
    else
      var k := Streak(rounds);
      Waits(rounds[..|rounds| - 1]) + (if k == 0 then [] else [Wait(|rounds| - 1, Backoff(k - 1))])
  }

  /**
   * The loop over the rounds the network deals it, until it gives up or the stop flag is set (the
   * end of `rounds`). It goes offline exactly at the first streak longer than `maxReconnects`, and
   * has then waited after every earlier failure, with the delay its streak calls for.
   */
  method RunLoop(rounds: seq<Round>, maxReconnects: int) returns (status: Status, waits: seq<Wait>, used: nat)
    ensures used <= |rounds|
    ensures forall i :: 0 <= i < used && !(status.Offline? && i == used - 1) ==> StreakAt(rounds, i) <= Max0(maxReconnects)
    ensures status.Offline? ==> used > 0 && rounds[used - 1].BothFailed? && StreakAt(rounds, used - 1) == Max0(maxReconnects) + 1
    ensures !status.Offline? ==> used == |rounds|
    ensures waits == Waits(rounds[..if status.Offline? then used - 1 else used])
  {
    var delay := 0.5;
    var reconnects := 0;
    status, waits := Connecting, [];
    var i := 0;
    while i < |rounds|
      invariant i <= |rounds| && !status.Offline?
      invariant reconnects == Streak(rounds[..i]) && delay == Backoff(reconnects)
      invariant reconnects <= Max0(maxReconnects)
      invariant waits == Waits(rounds[..i])
      invariant forall j :: 0 <= j < i ==> StreakAt(rounds, j) <= Max0(maxReconnects)
    {
      Snoc(rounds, i);
      match rounds[i] {
        case WebSocketClosed =>
          reconnects, delay := 0, 0.5;
        case SseClosed =>
          reconnects, delay := 0, 0.5;
        case BothFailed(renewed) =>
          reconnects := reconnects + 1;
          if reconnects > maxReconnects {
            return Offline, waits, i + 1;
          }
          waits := waits + [Wait(i, delay)];
          BackoffDoubles(reconnects - 1);
          delay := Min(delay * 2.0, 8.0);
      }
      status := Reconnecting;
      i := i + 1;
    }
    assert rounds[..i] == rounds;
    used := i;
  }

  function Max0(n: int): int { if n < 0 then 0 else n }

  /** Every wait of a run is the backoff of its own streak, and no streak before going offline has more waits than allowed. */
  lemma {:induction false} WaitsFollowStreaks(rounds: seq<Round>, w: Wait)
    requires w in Waits(rounds)
    ensures w.round < |rounds| && StreakAt(rounds, w.round) >= 1
    ensures w.delay == Backoff(StreakAt(rounds, w.round) - 1) && 0.5 <= w.delay <= 8.0
  {
    var init := rounds[..|rounds| - 1];
    if w in Waits(init) {
      WaitsFollowStreaks(init, w);
      assert init[..w.round + 1] == rounds[..w.round + 1];
    } else {
      assert rounds[..|rounds|] == rounds;
      BackoffDoubles(Streak(rounds) - 1);
    }
  }

  /** The streak counts exactly the failed rounds since the last round that did not fail. */
  lemma {:induction false} StreakIsTail(rounds: seq<Round>)
    ensures var k := Streak(rounds);
            && k <= |rounds|
            && (forall i :: |rounds| - k <= i < |rounds| ==> rounds[i].BothFailed?)
            && (k < |rounds| ==> !rounds[|rounds| - k - 1].BothFailed?)
  {
    if rounds != [] {
      StreakIsTail(rounds[..|rounds| - 1]);
    }
  }

  /** The `k` failures in a row at the end caused the last `k` waits, which double from half a second up to eight. */
  lemma {:induction false} StreakWaits(rounds: seq<Round>)
    ensures var k, w := Streak(rounds), Waits(rounds);
            && k <= |w| && k <= |rounds|
            && forall j :: 0 <= j < k ==> w[|w| - k + j] == Wait(|rounds| - k + j, Backoff(j))
  {
    StreakIsTail(rounds);
    if Streak(rounds) > 0 {
      var init := rounds[..|rounds| - 1];
      StreakWaits(init);
      var k, w, w0 := Streak(rounds), Waits(rounds), Waits(init);
      assert w == w0 + [Wait(|rounds| - 1, Backoff(k - 1))];
      forall j | 0 <= j < k
        ensures w[|w| - k + j] == Wait(|rounds| - k + j, Backoff(j))
      {
        if j < k - 1 {
          assert w0[|w0| - (k - 1) + j] == Wait(|init| - (k - 1) + j, Backoff(j));
        }
      }
    }
  }
}
