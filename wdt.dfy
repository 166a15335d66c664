/**
 * The watchdog liveness aggregator of my_wdt.c: each task ORs its bit into a
 * 32-bit alive bitmap, and a periodic timer callback feeds the hardware
 * watchdog only when every monitored task has reported since the last feed.
 */
module Wdt {
  import opened Common
  import Timers

  const WDT_TIMEOUT_MS: nat := 30000
  const WDT_FEED_INTERVAL_MS: uint32 := 10000

  /** Identity of wdt_feed_timer_callback among the timer callbacks. */
  const WDT_FEED_CALLBACK: Timers.Callback := 0

  /** 1 << m as a 32-bit word, for the ids of module_type (written out so that the solver need not shift by a variable). */
  function Bit(m: nat): bv32
    requires m < MAX_MY_MOD_TYPE
  {
    if m == 0 then 0x01 else if m == 1 then 0x02 else if m == 2 then 0x04 else if m == 3 then 0x08
    else if m == 4 then 0x10 else if m == 5 then 0x20 else 0x40
  }

  /** The tasks that must report: Main, BLE, Ctrl, LTE, NFC and GSensor. */
  const EXPECTED_FLAGS: bv32 :=
    Bit(MOD_MAIN) | Bit(MOD_BLE) | Bit(MOD_CTRL) | Bit(MOD_LTE) | Bit(MOD_NFC) | Bit(MOD_GSENSOR)

  /** The bitmap after module m reports (my_wdt_feed): ids outside module_type are ignored. */
  function MarkAlive(flags: bv32, m: nat): bv32
  {
    if m < MAX_MY_MOD_TYPE then flags | Bit(m) else flags
  }

  /** Whether every bit of mask is set in flags. */
  predicate Covers(flags: bv32, mask: bv32)
  {
    flags & mask == mask
  }

  /** Whether every expected bit is present (the test of wdt_feed_timer_callback). */
  predicate AllAlive(flags: bv32)
  {
    Covers(flags, EXPECTED_FLAGS)
  }

  /** The bitmap after the given modules report, in order, with no feed in between. */
  function ReportAll(flags: bv32, ms: seq<nat>): bv32
    decreases |ms|
  {
    if ms == [] then flags else ReportAll(MarkAlive(flags, ms[0]), ms[1..])
  }

  /** A report sets the reporting module's bit. */
  lemma MarkAliveSetsOwnBit(flags: bv32, m: nat)
    requires m < MAX_MY_MOD_TYPE
    ensures Covers(MarkAlive(flags, m), Bit(m))
  {
  }

  /** A report leaves every other bit as it was. */
  lemma MarkAliveKeepsOtherBits(flags: bv32, m: nat)
    requires m < MAX_MY_MOD_TYPE
    ensures MarkAlive(flags, m) & !Bit(m) == flags & !Bit(m)
  {
  }

  /** A report from an id outside module_type changes nothing. */
  lemma MarkAliveIgnoresUnknownModule(flags: bv32, m: nat)
    requires m >= MAX_MY_MOD_TYPE
    ensures MarkAlive(flags, m) == flags
  {
  }

  /** Reporting twice has the effect of reporting once. */
  lemma MarkAliveIdempotent(flags: bv32, m: nat)
    ensures MarkAlive(MarkAlive(flags, m), m) == MarkAlive(flags, m)
  {
  }

  /** The expected mask is bits 0 to 5. */
  lemma ExpectedMaskIsMonitoredTasks()
    ensures EXPECTED_FLAGS == 0x3F
  {
  }

  /** The FOTA task is not monitored. */
  lemma FotaIsNotMonitored()
    ensures EXPECTED_FLAGS & Bit(MOD_FOTA) == 0
  {
  }

  /** The bitmap passes exactly when each of the six monitored modules has its bit set. */
  lemma AllAliveIffEachMonitoredTask(flags: bv32)
    ensures AllAlive(flags) <==>
      && flags & Bit(MOD_MAIN) != 0 && flags & Bit(MOD_BLE) != 0 && flags & Bit(MOD_CTRL) != 0
      && flags & Bit(MOD_LTE) != 0 && flags & Bit(MOD_NFC) != 0 && flags & Bit(MOD_GSENSOR) != 0
  {
    ExpectedMaskIsMonitoredTasks();
  }

  /** Whether FOTA has reported plays no part in the decision. */
  lemma AllAliveIgnoresFota(flags: bv32)
    ensures AllAlive(flags) <==> AllAlive(flags & !Bit(MOD_FOTA))
  {
    ExpectedMaskIsMonitoredTasks();
  }

  /** When one monitored task has not reported, the bitmap cannot pass, whatever the others did. */
  lemma SilentTaskBlocksFeed(flags: bv32, silent: nat)
    requires silent < MOD_FOTA
    requires flags & Bit(silent) == 0
    ensures !AllAlive(flags)
  {
    ExpectedMaskIsMonitoredTasks();
  }

  /** A report never clears a bit. */
  lemma MarkAliveKeepsMask(flags: bv32, m: nat, mask: bv32)
    requires Covers(flags, mask)
    ensures Covers(MarkAlive(flags, m), mask)
  {
  }

  /** Reports never clear a bit that is already set. */
  lemma {:induction false} ReportAllKeepsMask(flags: bv32, ms: seq<nat>, mask: bv32)
    requires Covers(flags, mask)
    ensures Covers(ReportAll(flags, ms), mask)
    decreases |ms|
  {
    if ms != [] {
      var next := MarkAlive(flags, ms[0]);
      MarkAliveKeepsMask(flags, ms[0], mask);
      ReportAllKeepsMask(next, ms[1..], mask);
    }
  }

  /** Every module in the series, whenever it reports, ends up with its bit set. */
  lemma {:induction false} ReportAllSetsEachBit(flags: bv32, ms: seq<nat>, m: nat)
    requires m < MAX_MY_MOD_TYPE && m in ms
    ensures Covers(ReportAll(flags, ms), Bit(m))
    decreases |ms|
  {
    var next := MarkAlive(flags, ms[0]);
    if ms[0] == m {
      MarkAliveSetsOwnBit(flags, m);
      ReportAllKeepsMask(next, ms[1..], Bit(m));
    } else {
      ReportAllSetsEachBit(next, ms[1..], m);
    }
  }

  /**
   * Liveness: once each of the six monitored tasks has reported at least once
   * since the last feed, in any order and interleaved with any other reports,
   * the next timer callback feeds the hardware.
   */
  lemma EveryTaskReportedAllowsFeed(flags: bv32, ms: seq<nat>)
    requires forall k :: 0 <= k < MOD_FOTA ==> k in ms
    ensures AllAlive(ReportAll(flags, ms))
  {
    var r := ReportAll(flags, ms);
    ReportAllSetsEachBit(flags, ms, MOD_MAIN);
    ReportAllSetsEachBit(flags, ms, MOD_BLE);
    ReportAllSetsEachBit(flags, ms, MOD_CTRL);
    ReportAllSetsEachBit(flags, ms, MOD_LTE);
    ReportAllSetsEachBit(flags, ms, MOD_NFC);
    ReportAllSetsEachBit(flags, ms, MOD_GSENSOR);
    EachMonitoredBitIsAllAlive(r);
  }

  /** The six monitored bits together make up the expected mask. */
  lemma EachMonitoredBitIsAllAlive(flags: bv32)
    requires Covers(flags, Bit(MOD_MAIN)) && Covers(flags, Bit(MOD_BLE)) && Covers(flags, Bit(MOD_CTRL))
    requires Covers(flags, Bit(MOD_LTE)) && Covers(flags, Bit(MOD_NFC)) && Covers(flags, Bit(MOD_GSENSOR))
    ensures AllAlive(flags)
  {
    ExpectedMaskIsMonitoredTasks();
  }

  /** The feed period leaves the watchdog two spare periods before it resets the chip. */
  lemma FeedIntervalBelowTimeout()
    ensures 3 * WDT_FEED_INTERVAL_MS <= WDT_TIMEOUT_MS
    ensures WDT_FEED_INTERVAL_MS < WDT_TIMEOUT_MS
  {
  }

  class Watchdog {
    /** thread_alive_flags */
    var aliveFlags: bv32
    /** wdt_channel_id; -1 before installation */
    var channelId: int
    /** The number of wdt_feed calls issued to the hardware. */
    var hwFeeds: nat

    constructor ()
      ensures aliveFlags == 0 && channelId == -1 && hwFeeds == 0
    {
      aliveFlags := 0;
      channelId := -1;
      hwFeeds := 0;
    }

    /** my_wdt_feed: sets bit m only, for m within module_type; other ids change nothing. */
    method Feed(modType: nat)
      modifies this
      ensures aliveFlags == MarkAlive(old(aliveFlags), modType)
      ensures channelId == old(channelId) && hwFeeds == old(hwFeeds)
    {
      if modType < MAX_MY_MOD_TYPE {
        aliveFlags := aliveFlags | Bit(modType);
      }
    }

    /**
     * wdt_feed_timer_callback: all-or-nothing. With every expected bit set
     * the hardware is fed once and the whole bitmap is cleared, bits outside
     * the expected mask included; otherwise nothing changes and the watchdog
     * is left to expire.
     */
    method FeedTimerCallback()
      modifies this
      ensures channelId == old(channelId)
      ensures AllAlive(old(aliveFlags)) ==> aliveFlags == 0 && hwFeeds == old(hwFeeds) + 1
      ensures !AllAlive(old(aliveFlags)) ==> aliveFlags == old(aliveFlags) && hwFeeds == old(hwFeeds)
    {
      if AllAlive(aliveFlags) {
        hwFeeds := hwFeeds + 1;
        aliveFlags := 0;
      }
    }

    /**
     * my_wdt_init. A device that is not ready gives -ENODEV; a negative
     * channel from wdt_install_timeout is stored and returned; a wdt_setup
     * error is returned. On success the hardware is fed once and the feed
     * callback is started as a periodic timer on `feedTimerId`, whose
     * result is ignored.
     */
    method Init(pool: Timers.TimerPool, feedTimerId: int, deviceReady: bool, installResult: int, setupErr: int)
      returns (rc: int)
      requires pool.Valid()
      modifies this, pool.timers, pool.initStatus
      ensures pool.Valid()
      ensures aliveFlags == old(aliveFlags)
      ensures !deviceReady ==>
        && rc == -ENODEV && channelId == old(channelId) && hwFeeds == old(hwFeeds)
        && pool.timers[..] == old(pool.timers[..]) && pool.initStatus[..] == old(pool.initStatus[..])
      ensures deviceReady ==> channelId == installResult
      ensures deviceReady && installResult < 0 ==>
        && rc == installResult && hwFeeds == old(hwFeeds)
        && pool.timers[..] == old(pool.timers[..]) && pool.initStatus[..] == old(pool.initStatus[..])
      ensures deviceReady && installResult >= 0 && setupErr != 0 ==>
        && rc == setupErr && hwFeeds == old(hwFeeds)
        && pool.timers[..] == old(pool.timers[..]) && pool.initStatus[..] == old(pool.initStatus[..])
      ensures deviceReady && installResult >= 0 && setupErr == 0 ==>
        && rc == 0 && hwFeeds == old(hwFeeds) + 1
        && (Timers.InRange(feedTimerId) ==>
              && pool.timers[..] == old(pool.timers[..])[feedTimerId :=
                   Timers.KTimer(true, WDT_FEED_INTERVAL_MS, WDT_FEED_INTERVAL_MS, Some(WDT_FEED_CALLBACK))]
              && pool.initStatus[..] == old(pool.initStatus[..])[feedTimerId := true])
        && (!Timers.InRange(feedTimerId) ==>
              pool.timers[..] == old(pool.timers[..]) && pool.initStatus[..] == old(pool.initStatus[..]))
    {
      if !deviceReady {
        return -ENODEV;
      }
      channelId := installResult;
      if channelId < 0 {
        return channelId;
      }
      if setupErr != 0 {
        return setupErr;
      }
      hwFeeds := hwFeeds + 1;
      var _ := pool.Start(feedTimerId, WDT_FEED_INTERVAL_MS, true, Some(WDT_FEED_CALLBACK));
      rc := 0;
    }
  }
}
