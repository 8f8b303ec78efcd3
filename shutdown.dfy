/**
 * The two process-wide cells that carry a shutdown request from the signal
 * handler to the worker threads: the request flag and the number of the
 * signal that caused it (0 none, 1 SIGINT, 2 SIGTERM).
 *
 * Signals arrive while the workers run. `arrivals(k)` is the signal the
 * handler stores just before the k-th check of the flag (0 when none), so a
 * check may see a request that was not there at the previous one.
 */
module Shutdown {
  import opened Wrappers

  type u8 = x: int | 0 <= x < 256

  /**
   * How many checks in a row, from check `start` on with the flag `raised`,
   * see no request, counting at most `n`: the number of items a loop that
   * checks the flag before each of `n` items, and stops at the first check
   * that sees a request, goes on to.
   */
  function Quiet(arrivals: nat -> u8, raised: bool, start: nat, n: nat): (q: nat)
    ensures q <= n
    decreases n
  {
    if n == 0 || raised || arrivals(start) != 0 then 0 else 1 + Quiet(arrivals, false, start + 1, n - 1)
  }

  /** Every check that `Quiet` counts saw the flag lowered and no signal arrive. */
  lemma {:induction false} QuietSawNothing(arrivals: nat -> u8, raised: bool, start: nat, n: nat)
    ensures Quiet(arrivals, raised, start, n) > 0 ==> !raised
    ensures forall k :: start <= k < start + Quiet(arrivals, raised, start, n) ==> arrivals(k) == 0
    decreases n
  {
    if Quiet(arrivals, raised, start, n) > 0 {
      QuietSawNothing(arrivals, false, start + 1, n - 1);
    }
  }

  /** Short of all `n` items, the check after the counted ones saw a request. */
  lemma {:induction false} QuietStopsAtRequest(arrivals: nat -> u8, raised: bool, start: nat, n: nat)
    requires Quiet(arrivals, raised, start, n) < n
    ensures var q := Quiet(arrivals, raised, start, n); (q == 0 && raised) || arrivals(start + q) != 0
    decreases n
  {
    if !raised && arrivals(start) == 0 {
      QuietStopsAtRequest(arrivals, false, start + 1, n - 1);
    }
  }

  class ShutdownState {
    var requested: bool
    var signalType: u8
    const arrivals: nat -> u8
    /** How many times the flag has been checked. */
    var checks: nat

    /** The cells as the program starts: no request, no signal. */
    constructor (arrivals: nat -> u8)
      ensures !requested && signalType == 0 && checks == 0 && this.arrivals == arrivals
      ensures GetSignalType() == None
    {
      requested := false;
      signalType := 0;
      checks := 0;
      this.arrivals := arrivals;
    }

    /** `get_signal_type`: `None` exactly when no signal number is stored, else that number. */
    function GetSignalType(): (r: Option<u8>)
      reads this
      ensures r == None <==> signalType == 0
      ensures r.Some? ==> r.value == signalType
    {
      if signalType == 0 then None else Some(signalType)
    }

    /** Whether the next check of the flag will see a request. */
    ghost predicate Pending()
      reads this
    {
      requested || arrivals(checks) != 0
    }

    /** `request_shutdown`: raises the flag and leaves the signal number alone. */
    method RequestShutdown()
      modifies this`requested
      ensures requested && signalType == old(signalType)
    {
      requested := true;
    }

    /** `request_shutdown_with_signal`: stores the signal number, then raises the flag. */
    method RequestShutdownWithSignal(signal: u8)
      modifies this`requested, this`signalType
      ensures requested && signalType == signal
    {
      signalType := signal;
      requested := true;
    }

    /**
     * `is_shutdown_requested`: reads the flag, after delivering the signal that
     * arrives before this check. Once raised, the flag stays raised.
     */
    method IsShutdownRequested() returns (b: bool)
      modifies this`requested, this`signalType, this`checks
      ensures checks == old(checks) + 1
      ensures arrivals(old(checks)) == 0 ==> requested == old(requested) && signalType == old(signalType)
      ensures arrivals(old(checks)) != 0 ==> requested && signalType == arrivals(old(checks))
      ensures old(requested) ==> requested
      ensures b == requested && (b <==> old(Pending()))
    {
      var s := arrivals(checks);
      if s != 0 {
        RequestShutdownWithSignal(s);
      }
      checks := checks + 1;
      b := requested;
    }

    /**
     * Where a loop stands that started with the flag `raised0` at check
     * `checks0`, checks before each of its `n` items and has gone on to `i`
     * of them: every check so far saw no request, and `Quiet` from here adds
     * the items still to come.
     */
    ghost predicate Passed(raised0: bool, checks0: nat, n: nat, i: nat)
      reads this
    {
      && i <= n && checks == checks0 + i
      && requested == (raised0 && i == 0) && (i > 0 ==> !raised0)
      && Quiet(arrivals, raised0, checks0, n) == i + Quiet(arrivals, requested, checks, n - i)
    }

    /**
     * The check before item `i` of such a loop: a request seen here ends the
     * loop after exactly the items `Quiet` counts; otherwise the loop goes on
     * to item `i`.
     */
    method CheckBeforeItem(ghost raised0: bool, ghost checks0: nat, ghost n: nat, ghost i: nat) returns (stop: bool)
      requires Passed(raised0, checks0, n, i) && i < n
      modifies this`requested, this`signalType, this`checks
      ensures stop ==> Stopped(raised0, checks0, n, i)
      ensures !stop ==> Passed(raised0, checks0, n, i + 1)
    {
      stop := IsShutdownRequested();
    }

    /** Such a loop ended by a request seen at the check before item `i`. */
    ghost predicate Stopped(raised0: bool, checks0: nat, n: nat, i: nat)
      reads this
    {
      i < n && Quiet(arrivals, raised0, checks0, n) == i && checks == checks0 + i + 1 && requested
    }

    /**
     * How such a loop has ended, after its first `i` items: it went on to
     * exactly the items `Quiet` counts, checked the flag once more when it
     * stopped short, and the flag is raised exactly when it stopped short or
     * was raised at the start.
     */
    ghost predicate Ended(raised0: bool, checks0: nat, n: nat, i: nat)
      reads this
    {
      && i == Quiet(arrivals, raised0, checks0, n)
      && checks == checks0 + i + (if i < n then 1 else 0)
      && requested == (raised0 || i < n)
    }

    /** A loop ends by a request (`stop`) or after all `n` items, as `Ended` says. */
    lemma Finished(raised0: bool, checks0: nat, n: nat, i: nat, stop: bool)
      requires if stop then Stopped(raised0, checks0, n, i) else i == n && Passed(raised0, checks0, n, i)
      ensures Ended(raised0, checks0, n, i)
    {
    }

    /** `reset_shutdown_for_tests` (test builds only): the one operation that lowers the flag. */
    method ResetForTests()
      modifies this`requested, this`signalType
      ensures !requested && signalType == 0 && GetSignalType() == None
    {
      requested := false;
      signalType := 0;
    }
  }
}
