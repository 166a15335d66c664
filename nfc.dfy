/**
 * The NFC work session of my_nfc.c: a session powers the reader, polls it
 * every 500 ms and is ended by a one-shot stop timer or by an explicit stop.
 * Pending kernel work is state: the stop timer's duration in seconds and the
 * delay of the next poll, None when nothing is pending.
 */
module Nfc {
  import opened Common
  import MsgKernel

  /** The delay nfc_poll_handler reschedules itself with. */
  const POLL_INTERVAL_MS: nat := 500

  /** A uint32_t product duration * 1000, wrapping as C unsigned arithmetic does. */
  function MsFromSeconds(duration: uint32): (r: uint32)
    ensures duration <= 4294967 ==> r == duration * 1000
    ensures duration > 4294967 ==> r < duration * 1000
  {
    (duration * 1000) % 0x1_0000_0000
  }

  /**
   * An illustration of the ensures of MsFromSeconds at the boundary: above
   * 4294967 s the stored millisecond count wraps, and 4294968 s reads as 704 ms.
   */
  lemma MsFromSecondsWraps()
    ensures MsFromSeconds(4294968) == 704
    ensures MsFromSeconds(4294967) == 4294967000
  {
  }

  class NfcReader {
    /** NFC_DEFAULT_WORK_TIME_S */
    const defaultWorkTimeS: uint32
    /** nfc_ctx.is_working */
    var isWorking: bool
    /** nfc_ctx.work_duration_ms */
    var workDurationMs: uint32
    /** The NFC power pin. */
    var powered: bool
    /** nfc_ctx.stop_timer: the duration it was started with, while pending. */
    var stopTimerS: Option<nat>
    /** nfc_ctx.poll_work: its delay, while scheduled. */
    var pollDelayMs: Option<nat>

    /**
     * A session is on exactly while the reader is powered and the stop
     * timer pending; no poll is scheduled outside a session.
     */
    ghost predicate Valid()
      reads this
    {
      && isWorking == powered
      && isWorking == stopTimerS.Some?
      && (!isWorking ==> pollDelayMs.None?)
    }

    constructor (defaultS: uint32)
      ensures Valid() && defaultWorkTimeS == defaultS
      ensures !isWorking && workDurationMs == 0 && pollDelayMs == None
    {
      defaultWorkTimeS := defaultS;
      isWorking := false;
      workDurationMs := 0;
      powered := false;
      stopTimerS := None;
      pollDelayMs := None;
    }

    /**
     * my_nfc_start_work: a second start while a session runs gives -EBUSY
     * and changes nothing. Otherwise the session lasts timeoutS seconds, or
     * the default when timeoutS is 0: the reader is powered, the stop timer
     * started for that many seconds, the first poll scheduled at once, and
     * the duration stored in milliseconds as a uint32_t.
     */
    method StartWork(timeoutS: uint32) returns (rc: int)
      requires Valid()
      modifies this`isWorking, this`workDurationMs, this`powered, this`stopTimerS, this`pollDelayMs
      ensures Valid()
      ensures old(isWorking) ==>
        && rc == -EBUSY && isWorking && workDurationMs == old(workDurationMs)
        && stopTimerS == old(stopTimerS) && pollDelayMs == old(pollDelayMs)
      ensures !old(isWorking) ==>
        var duration := if timeoutS == 0 then defaultWorkTimeS else timeoutS;
        && rc == 0 && isWorking && powered
        && workDurationMs == MsFromSeconds(duration)
        && stopTimerS == Some(duration) && pollDelayMs == Some(0)
    {
      if isWorking {
        return -EBUSY;
      }
      var duration := if timeoutS == 0 then defaultWorkTimeS else timeoutS;
      powered := true;
      isWorking := true;
      workDurationMs := MsFromSeconds(duration);
      stopTimerS := Some(duration);
      pollDelayMs := Some(0);
      rc := 0;
    }

    /**
     * my_nfc_stop_work: from any state, the session ends, the stop timer and
     * the poll are cancelled and the reader is powered off; the end state
     * does not depend on the start state, so stopping twice is stopping once.
     */
    method StopWork()
      modifies this`isWorking, this`powered, this`stopTimerS, this`pollDelayMs
      ensures Valid()
      ensures !isWorking && !powered && stopTimerS == None && pollDelayMs == None
    {
      isWorking := false;
      stopTimerS := None;
      pollDelayMs := None;
      powered := false;
    }

    /**
     * nfc_poll_handler, run when the poll work comes due: outside a session
     * it returns without rescheduling; in a session it reads the reader (the
     * result is only logged) and schedules the next poll in 500 ms.
     */
    method PollHandler()
      requires Valid()
      modifies this`pollDelayMs
      ensures Valid()
      ensures pollDelayMs == (if isWorking then Some(POLL_INTERVAL_MS) else None)
    {
      if !isWorking {
        pollDelayMs := None;
        return;
      }
      pollDelayMs := Some(POLL_INTERVAL_MS);
    }

    /** nfc_stop_timer_handler: the stop timer expires and the session is stopped. */
    method StopTimerHandler()
      modifies this`isWorking, this`powered, this`stopTimerS, this`pollDelayMs
      ensures Valid()
      ensures !isWorking && !powered && stopTimerS == None && pollDelayMs == None
    {
      stopTimerS := None;
      StopWork();
    }

    /**
     * my_nfc_init: a bus or power pin that is not ready gives -ENODEV and a
     * pin configuration error is returned, each before any state changes.
     * Otherwise the pin is driven inactive, the work and the timer are
     * initialised idle, no session is on, and the NFC queue is registered
     * under MOD_NFC.
     */
    method Init(i2cReady: bool, gpioReady: bool, configureErr: int, kernel: MsgKernel.Kernel, nfcQ: nat)
      returns (rc: int)
      requires Valid() && kernel.Valid() && nfcQ < kernel.queues.Length
      modifies this`isWorking, this`powered, this`stopTimerS, this`pollDelayMs, kernel.handles
      ensures Valid() && kernel.Valid()
      ensures !i2cReady || !gpioReady ==> rc == -ENODEV
      ensures i2cReady && gpioReady && configureErr != 0 ==> rc == configureErr
      ensures rc != 0 ==>
        && isWorking == old(isWorking) && powered == old(powered)
        && stopTimerS == old(stopTimerS) && pollDelayMs == old(pollDelayMs)
        && kernel.handles[..] == old(kernel.handles[..])
      ensures i2cReady && gpioReady && configureErr == 0 ==>
        && rc == 0 && !isWorking && !powered && stopTimerS == None && pollDelayMs == None
        && kernel.handles[..] == old(kernel.handles[..])[MOD_NFC := Some(nfcQ)]
    {
      if !i2cReady || !gpioReady {
        return -ENODEV;
      }
      if configureErr != 0 {
        return configureErr;
      }
      powered := false;
      pollDelayMs := None;
      stopTimerS := None;
      isWorking := false;
      kernel.InitMsgHandler(MOD_NFC, Some(nfcQ));
      rc := 0;
    }
  }
}
