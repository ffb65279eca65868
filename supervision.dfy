/**
 * Connection supervision: the every-30th-cycle health-check counter, the
 * retry-until-connected loops, the bounded retry of cqu.py and the
 * connection guard that wraps cqu.py's operations. The broker's connect()
 * and is_connected are oracles: a function from the attempt number to its
 * outcome, or the sequence of probe results after each reconnection.
 */
module Supervision {

  // ---------------------------------------------------------------------
  // The health-check counter

  const Period: nat := 30

  /** The counter after one cycle, and whether that cycle runs the health check. */
  datatype Tick = Tick(cnt: nat, check: bool)

  /**
   * cnt += 1; if cnt >= 30 (and, for the producers mpo.py and miq.py, nothing
   * is open): cnt = 0 and check. `quiet` is that extra condition (always true
   * for the consumers).
   */
  function Step(cnt: nat, quiet: bool): Tick {
    if cnt + 1 >= Period && quiet then Tick(0, true) else Tick(cnt + 1, false)
  }

  /** The counter after the cycles `quiets`, starting from `cnt`. */
  function Counter(cnt: nat, quiets: seq<bool>): nat
    decreases |quiets|
  {
    if quiets == [] then cnt else Step(Counter(cnt, quiets[..|quiets| - 1]), quiets[|quiets| - 1]).cnt
  }

  function Repeat(n: nat, b: bool): (r: seq<bool>)
    ensures |r| == n && forall i :: 0 <= i < n ==> r[i] == b
  {
    seq(n, i => b)
  }

  /** From a fresh start, with nothing open, the counter is the cycle number modulo 30 ... */
  lemma {:induction false} CounterPeriodic(n: nat)
    ensures Counter(0, Repeat(n, true)) == n % 30
    decreases n
  {
    if n > 0 {
      assert Repeat(n, true)[..n - 1] == Repeat(n - 1, true);
      CounterPeriodic(n - 1);
    }
  }

  /** ... so the check runs on cycles 30, 60, 90, ... and on no other. */
  lemma EveryThirtieth(n: nat)
    ensures Step(Counter(0, Repeat(n, true)), true).check <==> (n + 1) % 30 == 0
  {
    CounterPeriodic(n);
  }

  /** While something stays open the counter keeps growing and no check runs. */
  lemma {:induction false} BusyDefers(cnt: nat, k: nat)
    ensures Counter(cnt, Repeat(k, false)) == cnt + k
    decreases k
  {
    if k > 0 {
      assert Repeat(k, false)[..k - 1] == Repeat(k - 1, false);
      BusyDefers(cnt, k - 1);
    }
  }

  /**
   * A check that falls due while orders are open is deferred, not lost: after
   * k busy cycles that bring the counter to 30, the first cycle with nothing
   * open runs the check and resets the counter.
   */
  lemma DeferredCheck(cnt: nat, k: nat)
    requires cnt + k + 1 >= Period
    ensures Step(Counter(cnt, Repeat(k, false)), true).check
    ensures Counter(cnt, Repeat(k, false) + [true]) == 0
  {
    BusyDefers(cnt, k);
    assert (Repeat(k, false) + [true])[..k] == Repeat(k, false);
  }

  // ---------------------------------------------------------------------
  // The retry-until-connected loops

  /** Index of the first true value, or |s| when there is none. */
  function FirstTrue(s: seq<bool>): (k: nat)
    ensures k <= |s|
    ensures forall j :: 0 <= j < k ==> !s[j]
    ensures k < |s| ==> s[k]
    decreases |s|
  {
    if s == [] then 0 else if s[0] then 0 else 1 + FirstTrue(s[1..])
  }

  /** K failed probes followed by a good one: the first good probe is number K. */
  lemma {:induction false} FailuresThenSuccess(k: nat, rest: seq<bool>)
    ensures FirstTrue(Repeat(k, false) + [true] + rest) == k
    decreases k
  {
    var s := Repeat(k, false) + [true] + rest;
    if k > 0 {
      assert s[1..] == Repeat(k - 1, false) + [true] + rest;
      FailuresThenSuccess(k - 1, rest);
    } else {
      assert s[0];
    }
  }

  /**
   * if not connected: reconnect, then while not connected: reconnect
   * (cpo.py:133-147, ciq.py:118-132, mpo.py:95-109, miq.py:53-67; in
   * cqu.py:533-544 each round calls _connect_with_retry and probes again).
   * `after[j]` is the probe after reconnection j + 1; the loop is watched for at
   * most |after| reconnections, and `connected` is false when it has not exited by then.
   */
  method ReconnectLoop(initially: bool, after: seq<bool>) returns (connected: bool, attempts: nat)
    ensures initially ==> connected && attempts == 0
    ensures !initially && FirstTrue(after) < |after| ==> connected && attempts == FirstTrue(after) + 1
    ensures !initially && FirstTrue(after) == |after| ==> !connected && attempts == |after|
  {
    connected, attempts := initially, 0;
    if !connected {
      while !connected && attempts < |after|
        invariant attempts <= |after| && attempts <= FirstTrue(after) + 1
        invariant connected <==> attempts > 0 && after[attempts - 1]
        invariant !connected ==> attempts <= FirstTrue(after)
      {
        connected := after[attempts];
        attempts := attempts + 1;
      }
    }
  }

  // ---------------------------------------------------------------------
  // _connect_with_retry and ensure_connection (cqu.py)

  /** What one connect() call returns: (check, reason). */
  datatype Attempt = Attempt(ok: bool, reason: string)

  /** The number of retries the loop runs at most: range(1, attempts + 1) is empty for attempts <= 0. */
  function Retries(attempts: int): nat {
    if attempts > 0 then attempts else 0
  }

  /**
   * One connect(), then up to `attempts` more until one succeeds (cqu.py:119-146).
   * `connect(j)` is the outcome of call number j.
   */
  method ConnectWithRetry(attempts: int, connect: nat -> Attempt) returns (ok: bool, reason: string, calls: nat)
    ensures 1 <= calls <= Retries(attempts) + 1
    ensures ok == connect(calls - 1).ok && reason == connect(calls - 1).reason
    ensures forall j :: 0 <= j < calls - 1 ==> !connect(j).ok
    ensures !ok ==> calls == Retries(attempts) + 1
    ensures ok <==> exists j :: 0 <= j <= Retries(attempts) && connect(j).ok
  {
    var a := connect(0);
    ok, reason, calls := a.ok, a.reason, 1;
    if !ok {
      var n := 1;
      while n <= attempts
        invariant 1 <= n && calls == n <= Retries(attempts) + 1
        invariant ok == connect(calls - 1).ok && reason == connect(calls - 1).reason
        invariant forall j :: 0 <= j < calls - 1 ==> !connect(j).ok
        invariant !ok
      {
        a := connect(calls);
        ok, reason, calls := a.ok, a.reason, calls + 1;
        if ok {
          break;
        }
        n := n + 1;
      }
    }
  }

  /** The decorator's default: @ensure_connection() retries five times. */
  const DefaultAttempts: int := 5

  /** What the guarded operation sees. */
  datatype Guard = Proceed(calls: nat) | NotInitialised | ConnectFailed(reason: string)

  /**
   * The ensure_connection wrapper (cqu.py:72-95): no client raises RuntimeError,
   * a live connection proceeds at once, otherwise the bounded retry decides.
   */
  method EnsureConnection(initialised: bool, connectedNow: bool, maxAttempts: int, connect: nat -> Attempt)
    returns (g: Guard)
    ensures g == NotInitialised <==> !initialised
    ensures initialised && connectedNow ==> g == Proceed(0)
    ensures g.Proceed? && !connectedNow ==>
              1 <= g.calls <= Retries(maxAttempts) + 1 && connect(g.calls - 1).ok
              && forall j :: 0 <= j < g.calls - 1 ==> !connect(j).ok
    ensures g.ConnectFailed? <==>
              initialised && !connectedNow && forall j :: 0 <= j <= Retries(maxAttempts) ==> !connect(j).ok
    ensures g.ConnectFailed? ==> g.reason == connect(Retries(maxAttempts)).reason
  {
    if !initialised {
      return NotInitialised;
    }
    if connectedNow {
      return Proceed(0);
    }
    var ok, reason, calls := ConnectWithRetry(maxAttempts, connect);
    if !ok {
      return ConnectFailed(reason);
    }
    return Proceed(calls);
  }
}
