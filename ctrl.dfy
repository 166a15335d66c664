/**
 * The control task of my_ctrl.c: the three battery LEDs that show a charge
 * level, the PWM buzzer that plays tones and note sequences, and the
 * control queue. A GPIO or PWM call's status is a parameter; the buzzer's
 * history is the series of PWM settings applied to it.
 */
module Ctrl {
  import opened Common
  import MsgKernel

  /** ARRAY_SIZE(batt_leds) */
  const BATT_LED_COUNT: nat := 3

  /** The level batt_led_set_level shows: levels above 3 count as 3. */
  function ClampLevel(level: uint8): (c: nat)
    ensures c <= BATT_LED_COUNT
    ensures level <= 3 ==> c == level
    ensures level > 3 ==> c == 3
  {
    if level > 3 then 3 else level
  }

  /** The battery LEDs for a level: LED i is lit when i is below the clamped level. */
  function LedPattern(level: uint8): (p: seq<bool>)
    ensures |p| == BATT_LED_COUNT
    ensures forall i :: 0 <= i < |p| ==> (p[i] <==> i < ClampLevel(level))
  {
    seq(BATT_LED_COUNT, i => i < ClampLevel(level))
  }

  /** The number of lit LEDs. */
  function CountLit(p: seq<bool>): nat
    decreases |p|
  {
    if p == [] then 0 else (if p[0] then 1 else 0) + CountLit(p[1..])
  }

  /** A row lit from index 0 up to c has exactly c lit LEDs. */
  lemma {:induction false} CountLitPrefix(p: seq<bool>, c: nat)
    requires c <= |p|
    requires forall i :: 0 <= i < |p| ==> (p[i] <==> i < c)
    ensures CountLit(p) == c
    decreases |p|
  {
    if p != [] {
      var rest := p[1..];
      var c' := if c == 0 then 0 else c - 1;
      assert forall i :: 0 <= i < |rest| ==> (rest[i] <==> i < c') by {
        forall i | 0 <= i < |rest|
          ensures rest[i] <==> i < c'
        {
          assert rest[i] == p[i + 1];
        }
      }
      CountLitPrefix(rest, c');
    }
  }

  /** Exactly min(level, 3) LEDs are lit, and they are the lowest ones. */
  lemma LitLedsMatchLevel(level: uint8)
    ensures CountLit(LedPattern(level)) == Min(level, BATT_LED_COUNT)
    ensures forall i, j :: 0 <= j < i < BATT_LED_COUNT && LedPattern(level)[i] ==> LedPattern(level)[j]
  {
    CountLitPrefix(LedPattern(level), ClampLevel(level));
  }

  /** The index of the first failing GPIO write (negative status), or the number of writes. */
  function FirstFailure(results: seq<int>): (k: nat)
    ensures k <= |results|
    ensures forall j :: 0 <= j < k ==> results[j] >= 0
    ensures k < |results| ==> results[k] < 0
    decreases |results|
  {
    if results == [] then 0
    else if results[0] < 0 then 0
    else
      var k := FirstFailure(results[1..]);
      assert forall j :: 1 <= j < |results| ==> results[j] == results[1..][j - 1];
      1 + k
  }

  /**
   * A PWM setting of the buzzer: stopped (the devicetree period with pulse 0,
   * as pwm_set_pulse_dt writes it), or a square wave in nanoseconds.
   */
  datatype PwmSetting = Silent | Tone(periodNs: uint32, pulseNs: uint32)

  /** my_buzzer_note */
  datatype Note = Note(freqHz: uint32, durationMs: uint32)

  /**
   * The wave my_ctrl_buzzer_play_tone sets for a non-zero frequency: one
   * period of 1e9 / freqHz nanoseconds, rounded down, at half duty.
   */
  function ToneSetting(freqHz: uint32): (s: PwmSetting)
    requires freqHz > 0
    ensures s.Tone?
    ensures s.periodNs * freqHz <= 1000000000 < (s.periodNs + 1) * freqHz
    ensures 0 <= s.periodNs - 2 * s.pulseNs <= 1
  {
    var period := 1000000000 / freqHz;
    Tone(period, period / 2)
  }

  /**
   * The PWM settings one my_ctrl_buzzer_play_tone call applies, given the
   * status pwm_set_dt returns.
   */
  function ToneWrites(n: Note, pwmErr: int): (r: seq<PwmSetting>)
    ensures n.freqHz == 0 ==> forall k :: 0 <= k < |r| ==> r[k] == Silent
    ensures n.freqHz != 0 && pwmErr != 0 ==> r == []
    ensures n.freqHz != 0 && pwmErr == 0 ==> r != [] && r[0] == ToneSetting(n.freqHz)
    ensures n.durationMs > 0 && r != [] ==> r[|r| - 1] == Silent
    ensures forall k :: 0 <= k < |r| && r[k].Tone? ==> r[k].pulseNs <= r[k].periodNs
  {
    var stopAfter := if n.durationMs > 0 then [Silent] else [];
    if n.freqHz == 0 then [Silent] + stopAfter
    else if pwmErr != 0 then []
    else [ToneSetting(n.freqHz)] + stopAfter
  }

  /** The PWM settings of a sequence of tones, in order. */
  function SequenceWrites(notes: seq<Note>, pwmErrs: seq<int>): seq<PwmSetting>
    requires |notes| == |pwmErrs|
    decreases |notes|
  {
    if notes == [] then [] else ToneWrites(notes[0], pwmErrs[0]) + SequenceWrites(notes[1..], pwmErrs[1..])
  }

  /** Playing one more note appends exactly its settings after the earlier ones. */
  lemma {:induction false} SequenceWritesSnoc(notes: seq<Note>, pwmErrs: seq<int>, n: Note, e: int)
    requires |notes| == |pwmErrs|
    ensures SequenceWrites(notes + [n], pwmErrs + [e]) == SequenceWrites(notes, pwmErrs) + ToneWrites(n, e)
    decreases |notes|
  {
    if notes == [] {
      assert notes + [n] == [n];
      assert pwmErrs + [e] == [e];
    } else {
      assert (notes + [n])[1..] == notes[1..] + [n];
      assert (pwmErrs + [e])[1..] == pwmErrs[1..] + [e];
      SequenceWritesSnoc(notes[1..], pwmErrs[1..], n, e);
    }
  }

  class Controller {
    /** The battery LED pins. */
    const battLeds: array<bool>
    /** Every setting applied to the buzzer PWM, oldest first. */
    var pwmLog: seq<PwmSetting>

    ghost predicate Valid()
      reads this
    {
      battLeds.Length == BATT_LED_COUNT
    }

    constructor ()
      ensures Valid() && fresh(battLeds) && pwmLog == []
      ensures forall i :: 0 <= i < BATT_LED_COUNT ==> !battLeds[i]
    {
      battLeds := new bool[BATT_LED_COUNT](_ => false);
      pwmLog := [];
    }

    /**
     * batt_led_set_level: LED i is driven on exactly when i is below the
     * clamped level, lowest index first; the first negative status is
     * returned and the LEDs after it are not written.
     */
    method BattLedSetLevel(level: uint8, setResults: seq<int>) returns (rc: int)
      requires Valid() && |setResults| == BATT_LED_COUNT
      modifies battLeds
      ensures var k := FirstFailure(setResults);
        && (forall j :: 0 <= j < k ==> battLeds[j] == LedPattern(level)[j])
        && (forall j :: k <= j < BATT_LED_COUNT ==> battLeds[j] == old(battLeds[j]))
        && rc == (if k < BATT_LED_COUNT then setResults[k] else 0)
    {
      var lit := if level > 3 then 3 else level;
      var i := 0;
      while i < BATT_LED_COUNT
        invariant 0 <= i <= BATT_LED_COUNT
        invariant forall j :: 0 <= j < i ==> setResults[j] >= 0
        invariant forall j :: 0 <= j < i ==> battLeds[j] == LedPattern(level)[j]
        invariant forall j :: i <= j < BATT_LED_COUNT ==> battLeds[j] == old(battLeds[j])
      {
        var on := i < lit;
        var ret := setResults[i];
        if ret < 0 {
          assert FirstFailure(setResults) == i by {
            FirstFailureAt(setResults, i);
          }
          return ret;
        }
        battLeds[i] := on;
        i := i + 1;
      }
      assert FirstFailure(setResults) == BATT_LED_COUNT;
      rc := 0;
    }

    /**
     * my_ctrl_buzzer_play_tone: frequency 0 stops the buzzer, setting the
     * devicetree period with pulse 0; otherwise the tone's wave is set, and a
     * pwm_set_dt error is returned before any wait. After a non-zero
     * duration the buzzer is stopped.
     */
    method PlayTone(freqHz: uint32, durationMs: uint32, pwmErr: int) returns (rc: int)
      modifies this`pwmLog
      ensures pwmLog == old(pwmLog) + ToneWrites(Note(freqHz, durationMs), pwmErr)
      ensures rc == (if freqHz != 0 then pwmErr else 0)
    {
      if freqHz == 0 {
        pwmLog := pwmLog + [Silent];
      } else {
        var period := 1000000000 / freqHz;
        var pulse := period / 2;
        if pwmErr != 0 {
          return pwmErr;
        }
        pwmLog := pwmLog + [Tone(period, pulse)];
      }
      if durationMs > 0 {
        pwmLog := pwmLog + [Silent];
      }
      rc := 0;
    }

    /**
     * my_ctrl_buzzer_play_sequence: no notes, or a count of 0, gives -EINVAL
     * and plays nothing; otherwise the notes are played in index order,
     * each tone's own status ignored, and 0 is returned.
     */
    method PlaySequence(notes: Option<seq<Note>>, numNotes: uint32, pwmErrs: seq<int>) returns (rc: int)
      requires notes.Some? ==> numNotes <= |notes.value|
      requires |pwmErrs| == numNotes
      modifies this`pwmLog
      ensures notes.None? || numNotes == 0 ==> rc == -EINVAL && pwmLog == old(pwmLog)
      ensures notes.Some? && numNotes > 0 ==>
        rc == 0 && pwmLog == old(pwmLog) + SequenceWrites(notes.value[..numNotes], pwmErrs)
    {
      if notes.None? || numNotes == 0 {
        return -EINVAL;
      }
      var ns := notes.value;
      var i: nat := 0;
      while i < numNotes
        invariant i <= numNotes
        invariant pwmLog == old(pwmLog) + SequenceWrites(ns[..i], pwmErrs[..i])
      {
        var _ := PlayTone(ns[i].freqHz, ns[i].durationMs, pwmErrs[i]);
        SequenceWritesSnoc(ns[..i], pwmErrs[..i], ns[i], pwmErrs[i]);
        assert ns[..i] + [ns[i]] == ns[..i + 1];
        assert pwmErrs[..i] + [pwmErrs[i]] == pwmErrs[..i + 1];
        i := i + 1;
      }
      assert pwmErrs[..numNotes] == pwmErrs;
      rc := 0;
    }

    /**
     * my_ctrl_push_msg: a NULL message gives -EINVAL; otherwise the message
     * joins the control queue without waiting, and a full queue gives -ENOMSG.
     */
    method PushMsg(msg: Option<Msg>, kernel: MsgKernel.Kernel, ctrlQ: nat) returns (rc: int)
      requires kernel.Valid() && ctrlQ < kernel.queues.Length
      modifies kernel.queues
      ensures kernel.Valid()
      ensures msg.None? ==> rc == -EINVAL && kernel.queues[..] == old(kernel.queues[..])
      ensures msg.Some? ==>
        && kernel.queues[..] == old(kernel.queues[..])[ctrlQ := MsgKernel.Put(old(kernel.queues[ctrlQ]), msg.value)]
        && rc == (if |old(kernel.queues[ctrlQ])| < MSGQ_MAX_MSGS then 0 else -ENOMSG)
    {
      if msg.None? {
        return -EINVAL;
      }
      rc := kernel.MsgqPut(ctrlQ, msg.value);
    }

    /**
     * my_ctrl_init: the I/O set-up calls' results are ignored; a buzzer PWM
     * that is not ready gives -ENODEV, otherwise the control queue is
     * registered under MOD_CTRL.
     */
    method Init(pwmReady: bool, kernel: MsgKernel.Kernel, ctrlQ: nat) returns (rc: int)
      requires kernel.Valid() && ctrlQ < kernel.queues.Length
      modifies kernel.handles
      ensures kernel.Valid()
      ensures !pwmReady ==> rc == -ENODEV && kernel.handles[..] == old(kernel.handles[..])
      ensures pwmReady ==> rc == 0 && kernel.handles[..] == old(kernel.handles[..])[MOD_CTRL := Some(ctrlQ)]
    {
      if !pwmReady {
        return -ENODEV;
      }
      kernel.InitMsgHandler(MOD_CTRL, Some(ctrlQ));
      rc := 0;
    }
  }

  /** The first failure is at k when k fails and every write before it succeeds. */
  lemma {:induction false} FirstFailureAt(results: seq<int>, k: nat)
    requires k < |results| && results[k] < 0
    requires forall j :: 0 <= j < k ==> results[j] >= 0
    ensures FirstFailure(results) == k
    decreases k
  {
    if k > 0 {
      FirstFailureAt(results[1..], k - 1);
    }
  }
}
