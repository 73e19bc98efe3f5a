/**
 * The session-timeout dialog. Its `countdown` state is reset from the
 * `timeRemaining` prop whenever that prop changes, and a one-second interval,
 * running only while the dialog is visible and the countdown is positive,
 * decrements it and calls `onLogout` when it reaches the end. Each timer
 * firing is one call of `Tick`; the callbacks are counted.
 */
module InactivityWarning {

  /** One timer firing from countdown c: the new countdown, and whether `onLogout` was called. */
  function TickStep(visible: bool, c: int): (r: (int, bool))
    ensures !visible || c <= 0 ==> r == (c, false)
    ensures r.1 ==> r.0 == 0
    ensures visible && c > 0 ==> 0 <= r.0 < c
    ensures visible && c > 1 ==> r.0 == c - 1
  {
    if !visible || c <= 0 then (c, false)
    else if c <= 1 then (0, true)
    else (c - 1, false)
  }

  /** n timer firings from countdown c: the final countdown and the number of `onLogout` calls. */
  function Ticks(visible: bool, c: int, n: nat): (int, nat)
  {
    if n == 0 then (c, 0)
    else
      var s := TickStep(visible, c);
      var rest := Ticks(visible, s.0, n - 1);
      (rest.0, rest.1 + (if s.1 then 1 else 0))
  }

  /** Visible from a countdown of n >= 1: the first n - 1 firings count down without logging out. */
  lemma {:induction false} CountsDown(c: int, k: nat)
    requires k < c
    ensures Ticks(true, c, k) == (c - k, 0)
  {
    if k > 0 {
      CountsDown(c - 1, k - 1);
    }
  }

  /** Once at zero nothing changes any more: no timer runs. */
  lemma {:induction false} StaysAtZero(visible: bool, k: nat)
    ensures Ticks(visible, 0, k) == (0, 0)
  {
    if k > 0 {
      StaysAtZero(visible, k - 1);
    }
  }

  /**
   * Visible from a countdown of n >= 1 with no reset: after any number m >= n
   * of firings the countdown is 0 and `onLogout` has been called exactly once,
   * on the n-th firing.
   */
  lemma {:induction false} LogoutOnNthTick(n: int, m: nat)
    requires 1 <= n <= m
    ensures Ticks(true, n, n - 1) == (1, 0)
    ensures Ticks(true, n, m) == (0, 1)
  {
    CountsDown(n, n - 1);
    TicksSplit(true, n, n - 1, m - (n - 1));
    StaysAtZero(true, m - n);
    assert Ticks(true, 1, m - (n - 1)) == (0, 1);
  }

  /** Running k firings and then j more is running k + j firings. */
  lemma {:induction false} TicksSplit(visible: bool, c: int, k: nat, j: nat)
    ensures Ticks(visible, c, k + j) ==
      var a := Ticks(visible, c, k);
      var b := Ticks(visible, a.0, j);
      (b.0, a.1 + b.1)
  {
    if k > 0 {
      var s := TickStep(visible, c);
      TicksSplit(visible, s.0, k - 1, j);
      assert k + j - 1 == (k - 1) + j;
    }
  }

  /** A countdown that starts non-negative never becomes negative. */
  lemma {:induction false} NeverNegative(visible: bool, c: int, n: nat)
    requires c >= 0
    ensures 0 <= Ticks(visible, c, n).0 <= c
  {
    if n > 0 {
      NeverNegative(visible, TickStep(visible, c).0, n - 1);
    }
  }

  /** A hidden dialog's timer never runs: the countdown is frozen and no logout happens. */
  lemma {:induction false} HiddenFreezes(c: int, n: nat)
    ensures Ticks(false, c, n) == (c, 0)
  {
    if n > 0 {
      HiddenFreezes(c, n - 1);
    }
  }

  class Dialog {
    var isVisible: bool
    var timeRemaining: int
    var countdown: int
    var logoutCalls: nat
    var extendCalls: nat

    /** The first render: `countdown` starts at `timeRemaining`. */
    constructor (isVisible: bool, timeRemaining: int)
      ensures this.isVisible == isVisible && this.timeRemaining == timeRemaining
      ensures countdown == timeRemaining && logoutCalls == 0 && extendCalls == 0
    {
      this.isVisible := isVisible;
      this.timeRemaining := timeRemaining;
      countdown := timeRemaining;
      logoutCalls := 0;
      extendCalls := 0;
    }

    /** New props: the countdown is reset only when `timeRemaining` changes. */
    method SetProps(visible: bool, time: int)
      modifies this
      ensures isVisible == visible && timeRemaining == time
      ensures countdown == (if time != old(timeRemaining) then time else old(countdown))
      ensures logoutCalls == old(logoutCalls) && extendCalls == old(extendCalls)
    {
      if time != timeRemaining {
        countdown := time;
      }
      isVisible := visible;
      timeRemaining := time;
    }

    /** One firing of the one-second timer (nothing happens when no timer is running). */
    method Tick()
      modifies this
      ensures countdown == TickStep(old(isVisible), old(countdown)).0
      ensures logoutCalls == old(logoutCalls) + (if TickStep(old(isVisible), old(countdown)).1 then 1 else 0)
      ensures isVisible == old(isVisible) && timeRemaining == old(timeRemaining)
      ensures extendCalls == old(extendCalls)
    {
      if isVisible && countdown > 0 {
        if countdown <= 1 {
          logoutCalls := logoutCalls + 1;
          countdown := 0;
        } else {
          countdown := countdown - 1;
        }
      }
    }

    /** Whether the dialog renders anything at all. */
    function Rendered(): (r: bool)
      reads this
      ensures r <==> isVisible
    {
      isVisible
    }

    /** "Logout Now": calls `onLogout` and nothing else. */
    method LogoutNow()
      modifies this
      ensures logoutCalls == old(logoutCalls) + 1 && extendCalls == old(extendCalls)
      ensures isVisible == old(isVisible) && timeRemaining == old(timeRemaining) && countdown == old(countdown)
    {
      logoutCalls := logoutCalls + 1;
    }

    /** "Stay Logged In": calls `onExtend` and nothing else. */
    method StayLoggedIn()
      modifies this
      ensures extendCalls == old(extendCalls) + 1 && logoutCalls == old(logoutCalls)
      ensures isVisible == old(isVisible) && timeRemaining == old(timeRemaining) && countdown == old(countdown)
    {
      extendCalls := extendCalls + 1;
    }
  }

  /** A dialog shown with n >= 1 seconds logs out on the n-th firing and stays at 0 afterwards. */
  method ShowAndWait(n: int) returns (d: Dialog)
    requires n >= 1
    ensures fresh(d)
    ensures d.countdown == 0 && d.logoutCalls == 1 && d.extendCalls == 0
  {
    d := new Dialog(true, n);
    var k := 0;
    while k < n
      invariant 0 <= k <= n
      invariant d.isVisible && d.timeRemaining == n && d.extendCalls == 0
      invariant (d.countdown, d.logoutCalls as int) == (var t := Ticks(true, n, k); (t.0, t.1 as int))
    {
      TicksSplit(true, n, k, 1);
      d.Tick();
      k := k + 1;
    }
    LogoutOnNthTick(n, n);
  }
}
