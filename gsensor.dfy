/**
 * The accelerometer of my_gsensor.c: identification of a DA215S by its chip
 * id, and the decoding of its three axes from six little-endian bytes. The
 * outcomes of the bus and pin calls are parameters.
 */
module GSensor {
  import opened Common
  import MsgKernel

  /** The DA215S chip id register's expected value. */
  const DA215S_CHIP_ID: uint8 := 0x13

  /** gsensor_type, as far as the driver tells the kinds apart. */
  datatype SensorType = Unknown | Da215s

  /** gsensor_data: one reading of each axis, as int16_t values. */
  datatype Accel = Accel(x: int, y: int, z: int)

  predicate IsInt16(v: int)
  {
    -0x8000 <= v < 0x8000
  }

  /**
   * (int16_t)((msb << 8) | lsb): the two's-complement value of a
   * little-endian byte pair.
   */
  function Int16FromLE(lsb: uint8, msb: uint8): (v: int)
    ensures IsInt16(v)
    ensures v < 0 <==> msb >= 0x80
    ensures (if v < 0 then v + 0x1_0000 else v) == msb * 0x100 + lsb
  {
    var u := msb * 0x100 + lsb;
    if u >= 0x8000 then u - 0x1_0000 else u
  }

  /** The little-endian byte pair of an int16_t, low byte first. */
  function Int16ToLE(v: int): (bytes: (uint8, uint8))
    requires IsInt16(v)
  {
    var u := if v < 0 then v + 0x1_0000 else v;
    (u % 0x100, u / 0x100)
  }

  /** Decoding the encoding of any int16_t gives it back. */
  lemma Int16RoundTrip(v: int)
    requires IsInt16(v)
    ensures Int16FromLE(Int16ToLE(v).0, Int16ToLE(v).1) == v
  {
  }

  /** Every byte pair is the encoding of the value it decodes to. */
  lemma BytesRoundTrip(lsb: uint8, msb: uint8)
    ensures Int16ToLE(Int16FromLE(lsb, msb)) == (lsb, msb)
  {
  }

  /**
   * da215s_check_id: the sensor is identified exactly when the id register
   * read succeeds and the register holds 0x13; a failed read is never an
   * identification, whatever value the id variable holds.
   */
  function CheckId(readErr: int, chipId: uint8): (r: bool)
    ensures r <==> readErr == 0 && chipId == 0x13
    ensures readErr != 0 ==> !r
  {
    readErr == 0 && chipId == DA215S_CHIP_ID
  }

  /** The outcomes of the driver calls my_gsensor_init makes, in order. */
  datatype InitOutcome = InitOutcome(busReady: bool, intPortReady: bool, pwrPortReady: bool, pwrGpioReady: bool,
                                     pwrConfigureErr: int, intConfigureErr: int, intIrqErr: int,
                                     idReadErr: int, chipId: uint8)

  /** Whether my_gsensor_init gets as far as powering the sensor. */
  predicate PowersUp(o: InitOutcome)
  {
    o.busReady && o.intPortReady && o.pwrPortReady && o.pwrGpioReady && o.pwrConfigureErr == 0
  }

  /** Whether my_gsensor_init gets as far as reading the chip id. */
  predicate ReachesIdCheck(o: InitOutcome)
  {
    PowersUp(o) && o.intConfigureErr == 0 && o.intIrqErr == 0
  }

  /** What my_gsensor_init returns. */
  function InitResult(o: InitOutcome): (r: int)
    ensures r == 0 <==> ReachesIdCheck(o) && CheckId(o.idReadErr, o.chipId)
    ensures !(o.busReady && o.intPortReady && o.pwrPortReady && o.pwrGpioReady) ==> r == -ENODEV
    ensures ReachesIdCheck(o) && !CheckId(o.idReadErr, o.chipId) ==> r == -ENODEV
  {
    if !o.busReady || !o.intPortReady || !o.pwrPortReady then -ENODEV
    else if !o.pwrGpioReady then -ENODEV
    else if o.pwrConfigureErr != 0 then o.pwrConfigureErr
    else if o.intConfigureErr != 0 then o.intConfigureErr
    else if o.intIrqErr != 0 then o.intIrqErr
    else if !CheckId(o.idReadErr, o.chipId) then -ENODEV
    else 0
  }

  class Sensor {
    /** current_sensor */
    var currentSensor: SensorType
    /** The sensor's power pin. */
    var powered: bool

    constructor ()
      ensures currentSensor == Unknown && !powered
    {
      currentSensor := Unknown;
      powered := false;
    }

    /**
     * my_gsensor_read_data: -ENOTSUP unless a DA215S was identified; a
     * burst-read error is returned with no reading; otherwise x, y and z
     * are the signed values of byte pairs 0-1, 2-3 and 4-5.
     */
    method ReadData(busErr: int, raw: seq<uint8>) returns (rc: int, data: Option<Accel>)
      requires |raw| == 6
      ensures currentSensor != Da215s ==> rc == -ENOTSUP && data == None
      ensures currentSensor == Da215s && busErr != 0 ==> rc == busErr && data == None
      ensures currentSensor == Da215s && busErr == 0 ==>
        rc == 0 && data == Some(Accel(Int16FromLE(raw[0], raw[1]), Int16FromLE(raw[2], raw[3]), Int16FromLE(raw[4], raw[5])))
      ensures data.Some? ==> IsInt16(data.value.x) && IsInt16(data.value.y) && IsInt16(data.value.z)
    {
      if currentSensor != Da215s {
        return -ENOTSUP, None;
      }
      if busErr != 0 {
        return busErr, None;
      }
      var x := Int16FromLE(raw[0], raw[1]);
      var y := Int16FromLE(raw[2], raw[3]);
      var z := Int16FromLE(raw[4], raw[5]);
      return 0, Some(Accel(x, y, z));
    }

    /**
     * my_gsensor_init: devices that are not ready give -ENODEV and a pin
     * configuration error is returned. The sensor is powered once its pin
     * is configured; it is recorded as a DA215S only when its id matches,
     * and otherwise init fails with -ENODEV and registers nothing. On
     * success the queue is registered under MOD_GSENSOR.
     */
    method Init(o: InitOutcome, kernel: MsgKernel.Kernel, gsensorQ: nat) returns (rc: int)
      requires kernel.Valid() && gsensorQ < kernel.queues.Length
      modifies this`currentSensor, this`powered, kernel.handles
      ensures kernel.Valid()
      ensures rc == InitResult(o)
      ensures powered == (old(powered) || PowersUp(o))
      ensures currentSensor == (if ReachesIdCheck(o) && CheckId(o.idReadErr, o.chipId) then Da215s else old(currentSensor))
      ensures rc == 0 ==> kernel.handles[..] == old(kernel.handles[..])[MOD_GSENSOR := Some(gsensorQ)]
      ensures rc != 0 ==> kernel.handles[..] == old(kernel.handles[..])
    {
      if !o.busReady || !o.intPortReady || !o.pwrPortReady {
        return -ENODEV;
      }
      if !o.pwrGpioReady {
        return -ENODEV;
      }
      if o.pwrConfigureErr != 0 {
        return o.pwrConfigureErr;
      }
      powered := true;
      if o.intConfigureErr != 0 {
        return o.intConfigureErr;
      }
      if o.intIrqErr != 0 {
        return o.intIrqErr;
      }
      if CheckId(o.idReadErr, o.chipId) {
        currentSensor := Da215s;
      } else {
        return -ENODEV;
      }
      kernel.InitMsgHandler(MOD_GSENSOR, Some(gsensorQ));
      rc := 0;
    }
  }
}
