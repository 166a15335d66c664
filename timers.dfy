/**
 * The software timer pool of main.c: a fixed array of Zephyr timers indexed
 * by MY_E_TIMER, with a parallel "initialized" flag that is set on first
 * start and never cleared. Each driver event is one atomic step: the passage
 * of time is an explicit Expire step, and "remaining time > 0" is the
 * running flag.
 */
module Timers {
  import opened Common

  /** Identity of a TIMER_FUN callback. */
  type Callback = nat

  /**
   * The part of a k_timer the pool uses: whether it is pending, its initial
   * duration, its repeat period (0 means one-shot, as K_NO_WAIT does), and the
   * user data that holds the callback.
   */
  datatype KTimer = KTimer(running: bool, durationMs: nat, periodMs: nat, userData: Option<Callback>)

  /** A timer that has never been started. */
  const IdleTimer := KTimer(false, 0, 0, None)

  /** True when timerId names a slot of the pool. */
  predicate InRange(timerId: int)
  {
    0 <= timerId < MY_TIMER_MAX_ID
  }

  class TimerPool {
    /** g_my_timer_info */
    const timers: array<KTimer>
    /** g_my_timer_init_status */
    const initStatus: array<bool>

    ghost predicate Valid()
      reads this, timers, initStatus
    {
      && timers.Length == MY_TIMER_MAX_ID
      && initStatus.Length == MY_TIMER_MAX_ID
      && (forall i :: 0 <= i < MY_TIMER_MAX_ID && !initStatus[i] ==> !timers[i].running)
    }

    constructor ()
      ensures Valid() && fresh(timers) && fresh(initStatus)
      ensures forall i :: 0 <= i < MY_TIMER_MAX_ID ==> !initStatus[i] && timers[i] == IdleTimer
    {
      timers := new KTimer[MY_TIMER_MAX_ID](_ => IdleTimer);
      initStatus := new bool[MY_TIMER_MAX_ID](_ => false);
    }

    /**
     * my_start_timer: an id outside the pool gives -EINVAL and changes
     * nothing; otherwise the slot is marked initialized, any earlier run and
     * configuration are discarded, and the timer runs for `ms` and then every
     * `ms` when isPeriod holds. Starting twice leaves only the second
     * configuration, whatever the first was.
     */
    method Start(timerId: int, ms: uint32, isPeriod: bool, timerFun: Option<Callback>) returns (rc: int)
      requires Valid()
      modifies timers, initStatus
      ensures Valid()
      ensures !InRange(timerId) ==>
        rc == -EINVAL && timers[..] == old(timers[..]) && initStatus[..] == old(initStatus[..])
      ensures InRange(timerId) ==>
        && rc == 0
        && initStatus[..] == old(initStatus[..])[timerId := true]
        && timers[..] == old(timers[..])[timerId := KTimer(true, ms, if isPeriod then ms else 0, timerFun)]
    {
      if timerId < 0 || timerId >= MY_TIMER_MAX_ID {
        return -EINVAL;
      }
      if !initStatus[timerId] {
        timers[timerId] := IdleTimer;
        initStatus[timerId] := true;
      }
      // k_timer_stop, k_timer_user_data_set, k_timer_start
      timers[timerId] := timers[timerId].(running := false);
      timers[timerId] := timers[timerId].(userData := timerFun);
      timers[timerId] := timers[timerId].(running := true, durationMs := ms,
                                          periodMs := if isPeriod then ms else 0);
      rc := 0;
    }

    /** my_stop_timer: halts an initialized timer; any other id is ignored. */
    method Stop(timerId: int)
      requires Valid()
      modifies timers
      ensures Valid()
      ensures InRange(timerId) && initStatus[timerId] ==>
        timers[..] == old(timers[..])[timerId := old(timers[timerId]).(running := false)]
      ensures !(InRange(timerId) && initStatus[timerId]) ==> timers[..] == old(timers[..])
    {
      if timerId < 0 || timerId >= MY_TIMER_MAX_ID {
        return;
      }
      if initStatus[timerId] {
        timers[timerId] := timers[timerId].(running := false);
      }
    }

    /**
     * my_delete_timer: the same as stopping; the slot stays marked initialized
     * so that a later start reuses it.
     */
    method Delete(timerId: int)
      requires Valid()
      modifies timers
      ensures Valid()
      ensures initStatus[..] == old(initStatus[..])
      ensures InRange(timerId) && initStatus[timerId] ==>
        timers[..] == old(timers[..])[timerId := old(timers[timerId]).(running := false)]
      ensures !(InRange(timerId) && initStatus[timerId]) ==> timers[..] == old(timers[..])
    {
      Stop(timerId);
    }

    /** my_time_is_run: false out of range or before the first start, else whether it is pending. */
    method IsRunning(timerId: int) returns (r: bool)
      requires Valid()
      ensures r <==> InRange(timerId) && timers[timerId].running
      ensures r ==> initStatus[timerId]
    {
      if timerId < 0 || timerId >= MY_TIMER_MAX_ID {
        return false;
      }
      if !initStatus[timerId] {
        return false;
      }
      r := timers[timerId].running;
    }

    /**
     * The timer reaches its deadline and my_timer_expiry_function runs: the
     * installed callback, if any, is what gets called. A periodic timer stays
     * pending for its next period; a one-shot timer stops.
     */
    method Expire(timerId: int) returns (fired: Option<Callback>)
      requires Valid()
      modifies timers
      ensures Valid()
      ensures initStatus[..] == old(initStatus[..])
      ensures !(InRange(timerId) && old(timers[timerId].running)) ==>
        fired == None && timers[..] == old(timers[..])
      ensures InRange(timerId) && old(timers[timerId].running) ==>
        && fired == old(timers[timerId].userData)
        && timers[..] == old(timers[..])[timerId := old(timers[timerId]).(running := old(timers[timerId].periodMs) != 0)]
    {
      if !InRange(timerId) || !timers[timerId].running {
        return None;
      }
      var t := timers[timerId];
      timers[timerId] := t.(running := t.periodMs != 0);
      fired := t.userData;
    }
  }

  /**
   * Once started with isPeriod and a non-zero period, a timer survives any
   * number of expiries and fires its callback at each; a one-shot timer is
   * stopped by its first expiry, and later deadlines fire nothing. `fires`
   * holds what each of the 1 + extra expiries called.
   */
  method PeriodicSurvivesExpiry(pool: TimerPool, timerId: int, ms: uint32, isPeriod: bool, f: Callback, extra: nat)
    returns (fires: seq<Option<Callback>>, stillRunning: bool)
    requires pool.Valid() && InRange(timerId)
    modifies pool.timers, pool.initStatus
    ensures |fires| == extra + 1 && fires[0] == Some(f)
    ensures forall i :: 0 < i < |fires| ==> fires[i] == (if isPeriod && ms > 0 then Some(f) else None)
    ensures stillRunning <==> isPeriod && ms > 0
  {
    var rc := pool.Start(timerId, ms, isPeriod, Some(f));
    var first := pool.Expire(timerId);
    fires := [first];
    var after := KTimer(isPeriod && ms > 0, ms, if isPeriod then ms else 0, Some(f));
    var n := 0;
    while n < extra
      invariant 0 <= n <= extra
      invariant pool.Valid() && pool.timers[timerId] == after
      invariant |fires| == n + 1 && fires[0] == Some(f)
      invariant forall i :: 0 < i < |fires| ==> fires[i] == (if isPeriod && ms > 0 then Some(f) else None)
    {
      var fired := pool.Expire(timerId);
      fires := fires + [fired];
      n := n + 1;
    }
    stillRunning := pool.IsRunning(timerId);
  }
}
