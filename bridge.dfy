/**
 * The UART side of the UART<->BLE byte bridge (my_shell.c): the uart_cb event
 * state machine that moves heap buffers between the UART driver, the two
 * FIFOs and the BLE write thread, my_shell_send_from_ble, and the
 * initialisation of the shell module.
 */
module Bridge {
  import opened Common
  import MsgKernel
  import opened Ownership
  import opened Chunking
  import ShellText

  /** The value of x converted to size_t, which is 32 bits wide on the target. */
  function ToSizeT(x: int): (r: nat)
    ensures r < 0x1_0000_0000
    ensures 0 <= x < 0x1_0000_0000 ==> r == x
    ensures -0x1_0000_0000 <= x < 0 ==> r == x + 0x1_0000_0000
  {
    x % 0x1_0000_0000
  }

  /** my_shell_init_param: the UART device and the two FIFOs the bridge uses. */
  datatype ShellInitParam = ShellInitParam(uartDev: nat, uartRxToBleFifo: nat, bleTxToUartFifo: nat)

  /**
   * What the driver calls inside uart_low_level_init report: device
   * readiness, the two k_malloc results, and the return codes of
   * uart_callback_set, of uart_tx for the welcome message and of
   * uart_rx_enable.
   */
  datatype UartInitOutcome = UartInitOutcome(
    deviceReady: bool, rxAllocOk: bool, callbackErr: int, txAllocOk: bool, welcomeTxResult: int, rxEnableErr: int)

  /**
   * What uart_low_level_init returns, given the outcomes of the driver calls
   * and whether the transmitter is already busy (uart_tx then refuses the
   * welcome message with -EBUSY). Each failure is reported by the first
   * step that fails.
   */
  function InitResult(o: UartInitOutcome, txBusy: bool): int
  {
    if !o.deviceReady then -ENODEV
    else if !o.rxAllocOk then -ENOMEM
    else if o.callbackErr != 0 then o.callbackErr
    else if !o.txAllocOk then -ENOMEM
    else if txBusy then -EBUSY
    else if o.welcomeTxResult != 0 then o.welcomeTxResult
    else o.rxEnableErr
  }

  /** Whether uart_low_level_init gets as far as a welcome message in flight. */
  predicate Welcomed(o: UartInitOutcome, txBusy: bool)
  {
    o.deviceReady && o.rxAllocOk && o.callbackErr == 0 && o.txAllocOk && !txBusy && o.welcomeTxResult == 0
  }

  /** How many k_malloc calls of uart_low_level_init succeed. */
  function InitAllocations(o: UartInitOutcome): nat
  {
    if !o.deviceReady || !o.rxAllocOk then 0
    else if o.callbackErr != 0 || !o.txAllocOk then 1
    else 2
  }

  /**
   * The shell context of my_shell.c, the static state of uart_cb, and the
   * heap blocks they pass around. The ghost map `loc` says where each live
   * block is, and the invariant makes every container agree with it, so
   * that each live block is in exactly one place and a freed block is in
   * none. Each event handler is one atomic step, made of the moves below.
   */
  class Shell {
    /** The live k_malloc blocks and their used bytes data[0 .. len). */
    var heap: map<BufId, UartBuf>
    /** Where each live block is. */
    ghost var loc: map<BufId, Place>
    /** The identity the next allocation receives. */
    var nextId: nat
    /** Receive buffers the driver holds, the one being filled first. */
    var rxHeld: seq<BufId>
    /** uart_rx_to_ble_fifo, head first. */
    var rxToBle: seq<BufId>
    /** ble_tx_to_uart_fifo, head first. */
    var bleToUart: seq<BufId>
    /** The transmission the driver is carrying out, if any. */
    var tx: Option<TxSlice>
    /** aborted_buf and aborted_len of uart_cb. */
    var abortedBuf: Option<BufId>
    var abortedLen: nat
    /** disable_req of uart_cb, and the number of uart_rx_disable calls issued. */
    var disableReq: bool
    var disableCalls: nat
    /** Whether uart_work is scheduled. */
    var workPending: bool
    /** The buffer the BLE write thread has taken off uart_rx_to_ble_fifo. */
    var bleHeld: Option<BufId>
    /** shell_ctx.ble_connected */
    var bleConnected: bool
    /** The device and FIFOs bound by my_shell_init. */
    var param: Option<ShellInitParam>

    /** Every container agrees with loc; blocks may be in a handler's hands. */
    ghost predicate Inv()
      reads this
    {
      Owned(heap, loc, nextId, rxHeld, rxToBle, bleToUart, abortedBuf, bleHeld, tx)
    }

    /** Between events: no block is left in a handler's local variables. */
    ghost predicate Valid()
      reads this
    {
      Inv() && Settled(loc)
    }

    /** The bridge before my_shell_init: nothing allocated, BLE not connected. */
    constructor ()
      ensures Valid()
      ensures heap == map[] && rxHeld == [] && rxToBle == [] && bleToUart == [] && tx == None && bleHeld == None
      ensures abortedBuf == None && abortedLen == 0 && !disableReq && !workPending && !bleConnected && param == None
    {
      heap := map[];
      loc := map[];
      nextId := 0;
      rxHeld := [];
      rxToBle := [];
      bleToUart := [];
      tx := None;
      abortedBuf := None;
      abortedLen := 0;
      disableReq := false;
      disableCalls := 0;
      workPending := false;
      bleHeld := None;
      bleConnected := false;
      param := None;
    }

    // ---- moves ----

    /** k_malloc(sizeof(struct shell_uart_data_t)) that succeeds, and the block's first contents. */
    method Alloc(data: seq<byte>) returns (b: BufId)
      requires Inv() && |data| <= SHELL_UART_BUF_SIZE
      modifies this`heap, this`nextId, this`loc
      ensures Inv()
      ensures b == old(nextId) && nextId == old(nextId) + 1
      ensures b !in old(heap) && heap == old(heap)[b := UartBuf(data)] && loc == old(loc)[b := Handler]
    {
      b := nextId;
      TracksUpdate(loc, rxHeld, RxDriver, b, Handler);
      TracksUpdate(loc, rxToBle, RxFifo, b, Handler);
      TracksUpdate(loc, bleToUart, TxFifo, b, Handler);
      TracksOptUpdate(loc, abortedBuf, Aborted, b, Handler);
      TracksOptUpdate(loc, bleHeld, BleThread, b, Handler);
      TracksTxUpdate(loc, tx, abortedBuf, b, Handler);
      heap := heap[b := UartBuf(data)];
      loc := loc[b := Handler];
      nextId := nextId + 1;
    }

    /** k_free of a block the running handler holds: a block can only be freed once. */
    method Free(b: BufId)
      requires Inv() && b in loc && loc[b] == Handler
      modifies this`heap, this`loc
      ensures Inv()
      ensures heap == old(heap) - {b} && loc == old(loc) - {b}
    {
      TracksRemove(loc, rxHeld, RxDriver, b);
      TracksRemove(loc, rxToBle, RxFifo, b);
      TracksRemove(loc, bleToUart, TxFifo, b);
      TracksOptRemove(loc, abortedBuf, Aborted, b);
      TracksOptRemove(loc, bleHeld, BleThread, b);
      TracksTxRemove(loc, tx, abortedBuf, b);
      heap := heap - {b};
      loc := loc - {b};
    }

    /** The running handler drops its last pointer to b without freeing it. */
    method Leak(b: BufId)
      requires Inv() && b in loc && loc[b] == Handler
      modifies this`loc
      ensures Inv()
      ensures loc == old(loc)[b := Leaked]
    {
      TracksUpdate(loc, rxHeld, RxDriver, b, Leaked);
      TracksUpdate(loc, rxToBle, RxFifo, b, Leaked);
      TracksUpdate(loc, bleToUart, TxFifo, b, Leaked);
      TracksOptUpdate(loc, abortedBuf, Aborted, b, Leaked);
      TracksOptUpdate(loc, bleHeld, BleThread, b, Leaked);
      TracksTxUpdate(loc, tx, abortedBuf, b, Leaked);
      loc := loc[b := Leaked];
    }

    /** Writes the used bytes of a live block. */
    method Fill(b: BufId, data: seq<byte>)
      requires Inv() && b in heap && |data| <= SHELL_UART_BUF_SIZE
      modifies this`heap
      ensures Inv()
      ensures heap == old(heap)[b := UartBuf(data)]
    {
      heap := heap[b := UartBuf(data)];
    }

    /** The driver takes a receive buffer (uart_rx_enable, uart_rx_buf_rsp). */
    method GiveRx(b: BufId)
      requires Inv() && b in loc && loc[b] == Handler
      modifies this`rxHeld, this`loc
      ensures Inv()
      ensures rxHeld == old(rxHeld) + [b] && loc == old(loc)[b := RxDriver]
    {
      TracksPush(loc, rxHeld, RxDriver, b);
      TracksUpdate(loc, rxToBle, RxFifo, b, RxDriver);
      TracksUpdate(loc, bleToUart, TxFifo, b, RxDriver);
      TracksOptUpdate(loc, abortedBuf, Aborted, b, RxDriver);
      TracksOptUpdate(loc, bleHeld, BleThread, b, RxDriver);
      TracksTxUpdate(loc, tx, abortedBuf, b, RxDriver);
      rxHeld := rxHeld + [b];
      loc := loc[b := RxDriver];
    }

    /** The driver hands back its oldest receive buffer. */
    method TakeRx() returns (b: BufId)
      requires Inv() && rxHeld != []
      modifies this`rxHeld, this`loc
      ensures Inv()
      ensures b == old(rxHeld)[0] && rxHeld == old(rxHeld)[1..] && b in heap && loc == old(loc)[b := Handler]
    {
      b := rxHeld[0];
      TracksPop(loc, rxHeld, RxDriver, Handler);
      TracksUpdate(loc, rxToBle, RxFifo, b, Handler);
      TracksUpdate(loc, bleToUart, TxFifo, b, Handler);
      TracksOptUpdate(loc, abortedBuf, Aborted, b, Handler);
      TracksOptUpdate(loc, bleHeld, BleThread, b, Handler);
      TracksTxUpdate(loc, tx, abortedBuf, b, Handler);
      rxHeld := rxHeld[1..];
      loc := loc[b := Handler];
    }

    /** k_fifo_put on uart_rx_to_ble_fifo. */
    method PutRxToBle(b: BufId)
      requires Inv() && b in loc && loc[b] == Handler
      modifies this`rxToBle, this`loc
      ensures Inv()
      ensures rxToBle == old(rxToBle) + [b] && loc == old(loc)[b := RxFifo]
    {
      TracksUpdate(loc, rxHeld, RxDriver, b, RxFifo);
      TracksPush(loc, rxToBle, RxFifo, b);
      TracksUpdate(loc, bleToUart, TxFifo, b, RxFifo);
      TracksOptUpdate(loc, abortedBuf, Aborted, b, RxFifo);
      TracksOptUpdate(loc, bleHeld, BleThread, b, RxFifo);
      TracksTxUpdate(loc, tx, abortedBuf, b, RxFifo);
      rxToBle := rxToBle + [b];
      loc := loc[b := RxFifo];
    }

    /** k_fifo_put on ble_tx_to_uart_fifo. */
    method PutBleToUart(b: BufId)
      requires Inv() && b in loc && loc[b] == Handler
      modifies this`bleToUart, this`loc
      ensures Inv()
      ensures bleToUart == old(bleToUart) + [b] && loc == old(loc)[b := TxFifo]
    {
      TracksUpdate(loc, rxHeld, RxDriver, b, TxFifo);
      TracksUpdate(loc, rxToBle, RxFifo, b, TxFifo);
      TracksPush(loc, bleToUart, TxFifo, b);
      TracksOptUpdate(loc, abortedBuf, Aborted, b, TxFifo);
      TracksOptUpdate(loc, bleHeld, BleThread, b, TxFifo);
      TracksTxUpdate(loc, tx, abortedBuf, b, TxFifo);
      bleToUart := bleToUart + [b];
      loc := loc[b := TxFifo];
    }

    /** k_fifo_get on ble_tx_to_uart_fifo with something in it. */
    method GetBleToUart() returns (b: BufId)
      requires Inv() && bleToUart != []
      modifies this`bleToUart, this`loc
      ensures Inv()
      ensures b == old(bleToUart)[0] && bleToUart == old(bleToUart)[1..] && b in heap
      ensures loc == old(loc)[b := Handler]
    {
      b := bleToUart[0];
      TracksUpdate(loc, rxHeld, RxDriver, b, Handler);
      TracksUpdate(loc, rxToBle, RxFifo, b, Handler);
      TracksPop(loc, bleToUart, TxFifo, Handler);
      TracksOptUpdate(loc, abortedBuf, Aborted, b, Handler);
      TracksOptUpdate(loc, bleHeld, BleThread, b, Handler);
      TracksTxUpdate(loc, tx, abortedBuf, b, Handler);
      bleToUart := bleToUart[1..];
      loc := loc[b := Handler];
    }

    /** k_fifo_get on uart_rx_to_ble_fifo by the BLE write thread, with something in it. */
    method GetRxToBle() returns (b: BufId)
      requires Inv() && rxToBle != [] && bleHeld.None?
      modifies this`rxToBle, this`bleHeld, this`loc
      ensures Inv()
      ensures b == old(rxToBle)[0] && rxToBle == old(rxToBle)[1..] && bleHeld == Some(b) && b in heap
      ensures loc == old(loc)[b := BleThread]
    {
      b := rxToBle[0];
      TracksUpdate(loc, rxHeld, RxDriver, b, BleThread);
      TracksPop(loc, rxToBle, RxFifo, BleThread);
      TracksUpdate(loc, bleToUart, TxFifo, b, BleThread);
      TracksOptUpdate(loc, abortedBuf, Aborted, b, BleThread);
      TracksTxUpdate(loc, tx, abortedBuf, b, BleThread);
      rxToBle := rxToBle[1..];
      bleHeld := Some(b);
      loc := loc[b := BleThread];
    }

    /** k_free by the BLE write thread of the block it holds. */
    method FreeBleHeld() returns (b: BufId)
      requires Inv() && bleHeld.Some?
      modifies this`bleHeld, this`heap, this`loc
      ensures Inv()
      ensures b == old(bleHeld).value && bleHeld == None && heap == old(heap) - {b} && loc == old(loc) - {b}
    {
      b := bleHeld.value;
      TracksRemove(loc, rxHeld, RxDriver, b);
      TracksRemove(loc, rxToBle, RxFifo, b);
      TracksRemove(loc, bleToUart, TxFifo, b);
      TracksOptRemove(loc, abortedBuf, Aborted, b);
      TracksTxRemove(loc, tx, abortedBuf, b);
      bleHeld := None;
      heap := heap - {b};
      loc := loc - {b};
    }

    /**
     * uart_tx: refused with -EBUSY while a transmission is in flight;
     * otherwise the driver's own verdict `result`, and on 0 the driver takes
     * the slice: a block from the handler's hands, or the aborted block,
     * which its record keeps.
     */
    method StartTx(b: BufId, offset: nat, len: nat, result: int) returns (err: int)
      requires Inv() && b in loc && (loc[b] == Handler || abortedBuf == Some(b))
      modifies this`tx, this`loc
      ensures Inv()
      ensures old(tx).Some? ==> err == -EBUSY && tx == old(tx) && loc == old(loc)
      ensures old(tx).None? ==> err == result
      ensures old(tx).None? && result == 0 ==>
        && tx == Some(TxSlice(b, offset, len))
        && loc == (if old(loc)[b] == Handler then old(loc)[b := InFlight] else old(loc))
      ensures old(tx).None? && result != 0 ==> tx == None && loc == old(loc)
    {
      if tx.Some? {
        return -EBUSY;
      }
      err := result;
      if err == 0 {
        if loc[b] == Handler {
          TracksUpdate(loc, rxHeld, RxDriver, b, InFlight);
          TracksUpdate(loc, rxToBle, RxFifo, b, InFlight);
          TracksUpdate(loc, bleToUart, TxFifo, b, InFlight);
          TracksOptUpdate(loc, abortedBuf, Aborted, b, InFlight);
          TracksOptUpdate(loc, bleHeld, BleThread, b, InFlight);
          loc := loc[b := InFlight];
        }
        tx := Some(TxSlice(b, offset, len));
      }
    }

    /**
     * The driver ends its transmission and lets go of the slice; the block
     * comes to the running handler, unless the aborted record keeps it.
     */
    method EndTx() returns (t: TxSlice)
      requires Inv() && tx.Some?
      modifies this`tx, this`loc
      ensures Inv()
      ensures t == old(tx).value && tx == None && t.buf in heap
      ensures old(loc)[t.buf] == InFlight || abortedBuf == Some(t.buf)
      ensures loc == (if old(loc)[t.buf] == InFlight then old(loc)[t.buf := Handler] else old(loc))
    {
      t := tx.value;
      tx := None;
      if loc[t.buf] == InFlight {
        TracksUpdate(loc, rxHeld, RxDriver, t.buf, Handler);
        TracksUpdate(loc, rxToBle, RxFifo, t.buf, Handler);
        TracksUpdate(loc, bleToUart, TxFifo, t.buf, Handler);
        TracksOptUpdate(loc, abortedBuf, Aborted, t.buf, Handler);
        TracksOptUpdate(loc, bleHeld, BleThread, t.buf, Handler);
        loc := loc[t.buf := Handler];
      }
    }

    /** aborted_buf = the block the driver just gave back. */
    method RecordAborted(b: BufId)
      requires Inv() && abortedBuf.None? && tx.None? && b in loc && loc[b] == Handler
      modifies this`abortedBuf, this`loc
      ensures Inv()
      ensures abortedBuf == Some(b) && loc == old(loc)[b := Aborted]
    {
      TracksUpdate(loc, rxHeld, RxDriver, b, Aborted);
      TracksUpdate(loc, rxToBle, RxFifo, b, Aborted);
      TracksUpdate(loc, bleToUart, TxFifo, b, Aborted);
      TracksOptUpdate(loc, bleHeld, BleThread, b, Aborted);
      abortedBuf := Some(b);
      loc := loc[b := Aborted];
    }

    /** aborted_buf = NULL, once nothing is in flight; the running handler now holds the block. */
    method ClearAborted() returns (b: BufId)
      requires Inv() && abortedBuf.Some? && tx.None?
      modifies this`abortedBuf, this`loc
      ensures Inv()
      ensures b == old(abortedBuf).value && abortedBuf == None && loc == old(loc)[b := Handler]
    {
      b := abortedBuf.value;
      TracksUpdate(loc, rxHeld, RxDriver, b, Handler);
      TracksUpdate(loc, rxToBle, RxFifo, b, Handler);
      TracksUpdate(loc, bleToUart, TxFifo, b, Handler);
      TracksOptUpdate(loc, bleHeld, BleThread, b, Handler);
      abortedBuf := None;
      loc := loc[b := Handler];
    }

    // ---- the BLE -> UART direction ----

    /**
     * One pass of the loop of my_shell_send_from_ble after a successful
     * k_malloc: the next chunk of the payload, from `pos` on, goes into a
     * fresh block, which is handed to uart_tx and, when the driver refuses
     * it, put on ble_tx_to_uart_fifo.
     */
    method SendChunk(d: seq<byte>, pos: nat, result: int) returns (next: nat, accepted: bool)
      requires Valid() && pos < |d|
      modifies this`heap, this`nextId, this`loc, this`bleToUart, this`tx
      ensures Valid()
      ensures pos < next <= |d| && Chunks(d, next) == Chunks(d, pos)[1..]
      ensures nextId == old(nextId) + 1
      ensures heap == old(heap)[old(nextId) := UartBuf(Chunks(d, pos)[0])]
      ensures accepted <==> old(tx).None? && result == 0
      ensures accepted ==> tx == Some(TxSlice(old(nextId), 0, |Chunks(d, pos)[0]|)) && bleToUart == old(bleToUart)
      ensures !accepted ==> tx == old(tx) && bleToUart == old(bleToUart) + [old(nextId)]
      ensures loc == old(loc)[old(nextId) := if accepted then InFlight else TxFifo]
    {
      var n := if |d| - pos > CHUNK_PAYLOAD then CHUNK_PAYLOAD else |d| - pos;
      var chunk := d[pos..pos + n];
      next := pos + n;
      if next == |d| && d[|d| - 1] == CR {
        chunk := chunk + [LF];
      }
      ChunksStep(d, pos);
      ghost var loc0 := loc;
      var b := Alloc(chunk);
      var err := StartTx(b, 0, |chunk|, result);
      accepted := err == 0;
      if accepted {
        UpdateTwice(loc0, b, Handler, InFlight);
        SettledUpdate(loc0, b, InFlight);
      } else {
        PutBleToUart(b);
        UpdateTwice(loc0, b, Handler, TxFifo);
        SettledUpdate(loc0, b, TxFifo);
      }
    }

    /**
     * One pass of the loop of my_shell_send_from_ble: chunk number count of
     * cs, the chunks of the whole payload, is sent or queued, so that the
     * first count + 1 chunks are accounted for.
     */
    method SendNext(d: seq<byte>, pos: nat, result: int, ghost cs: seq<seq<byte>>, ghost count: nat,
                    ghost acceptAt: nat, ghost h0: map<BufId, UartBuf>, ghost q0: seq<BufId>,
                    ghost tx0: Option<TxSlice>, ghost base: BufId, ghost l0: map<BufId, Place>)
      returns (next: nat)
      requires Valid() && pos < |d|
      requires count <= |cs| && cs[count..] == Chunks(d, pos) && nextId == base + count
      requires result == 0 <==> count == acceptAt
      requires Sent(h0, q0, tx0, base, cs, acceptAt, count, heap, bleToUart, tx)
      requires KeepsPlaces(l0, loc)
      modifies this`heap, this`nextId, this`loc, this`bleToUart, this`tx
      ensures Valid()
      ensures pos < next <= |d| && count < |cs| && cs[count + 1..] == Chunks(d, next)
      ensures nextId == base + count + 1
      ensures Sent(h0, q0, tx0, base, cs, acceptAt, count + 1, heap, bleToUart, tx)
      ensures KeepsPlaces(l0, loc)
    {
      SuffixStep(cs, count, Chunks(d, pos));
      ghost var heap0, queue0, tx0' := heap, bleToUart, tx;
      ghost var c, id := Chunks(d, pos)[0], nextId;
      var accepted;
      next, accepted := SendChunk(d, pos, result);
      SentStep(h0, q0, tx0, base, cs, acceptAt, count, heap0, queue0, tx0', c, id, accepted, heap, bleToUart, tx);
    }

    /**
     * my_shell_send_from_ble: a missing or empty payload gives -EINVAL and
     * changes nothing. Otherwise the payload is cut as Chunks describes, and
     * chunk i goes into the fresh block old(nextId) + i. The first
     * `allocLimit` k_malloc calls succeed and the next one fails, which stops
     * the loop with -ENOMEM, the earlier chunks staying where they went. The
     * driver, while idle, refuses every chunk before number `acceptAt` (with
     * `refusal`) and accepts that one; once busy it refuses the rest with
     * -EBUSY. The accepted chunk is in flight; every other chunk joins
     * ble_tx_to_uart_fifo, in chunk order.
     */
    method SendFromBle(data: Option<seq<byte>>, allocLimit: nat, acceptAt: nat, refusal: int) returns (rc: int)
      requires Valid()
      requires data.Some? ==> |data.value| < 0x1_0000
      requires refusal != 0
      modifies this`heap, this`nextId, this`loc, this`bleToUart, this`tx
      ensures Valid()
      ensures data.None? || data.value == [] ==>
        && rc == -EINVAL && heap == old(heap) && nextId == old(nextId)
        && bleToUart == old(bleToUart) && tx == old(tx) && loc == old(loc)
      ensures KeepsPlaces(old(loc), loc)
      ensures data.Some? && data.value != [] ==>
        var cs := Chunks(data.value, 0);
        var n := Min(|cs|, allocLimit);
        && nextId == old(nextId) + n
        && rc == (if allocLimit < |cs| then -ENOMEM else 0)
        && Sent(old(heap), old(bleToUart), old(tx), old(nextId), cs, acceptAt, n, heap, bleToUart, tx)
    {
      if data.None? || data.value == [] {
        return -EINVAL;
      }
      rc := SendChunks(data.value, allocLimit, acceptAt, refusal);
    }

    /** The loop of my_shell_send_from_ble over a non-empty payload d. */
    method SendChunks(d: seq<byte>, allocLimit: nat, acceptAt: nat, refusal: int) returns (rc: int)
      requires Valid() && d != [] && |d| < 0x1_0000
      requires refusal != 0
      modifies this`heap, this`nextId, this`loc, this`bleToUart, this`tx
      ensures Valid()
      ensures KeepsPlaces(old(loc), loc)
      ensures var cs := Chunks(d, 0);
        var n := Min(|cs|, allocLimit);
        && nextId == old(nextId) + n
        && rc == (if allocLimit < |cs| then -ENOMEM else 0)
        && Sent(old(heap), old(bleToUart), old(tx), old(nextId), cs, acceptAt, n, heap, bleToUart, tx)
    {
      ghost var cs := Chunks(d, 0);
      var pos: nat := 0;
      var count: nat := 0;
      rc := 0;
      assert cs[..0] == [];
      while pos != |d|
        invariant pos <= |d|
        invariant Valid()
        invariant count <= |cs| && cs[count..] == Chunks(d, pos)
        invariant count <= allocLimit
        invariant rc == 0
        invariant nextId == old(nextId) + count
        invariant Sent(old(heap), old(bleToUart), old(tx), old(nextId), cs, acceptAt, count, heap, bleToUart, tx)
        invariant KeepsPlaces(old(loc), loc)
        decreases |d| - pos
      {
        if count == allocLimit {
          assert |Chunks(d, pos)| > 0;
          rc := -ENOMEM;
          break;
        }
        pos := SendNext(d, pos, if count == acceptAt then 0 else refusal, cs, count, acceptAt,
                        old(heap), old(bleToUart), old(tx), old(nextId), old(loc));
        count := count + 1;
      }
      assert count == Min(|cs|, allocLimit);
    }

    // ---- uart_cb, the UART -> host direction ----

    /**
     * The tail of UART_TX_DONE: the head of ble_tx_to_uart_fifo, if any, is
     * taken and handed to uart_tx; when that call fails the block is dropped
     * and not freed.
     */
    method SendNextQueued(txResult: int) returns (next: Option<BufId>)
      requires Valid() && tx.None?
      modifies this`tx, this`loc, this`bleToUart
      ensures Valid()
      ensures old(bleToUart) == [] ==> next == None && bleToUart == [] && tx == None && loc == old(loc)
      ensures old(bleToUart) != [] ==>
        var b := old(bleToUart)[0];
        && next == Some(b) && b in heap && bleToUart == old(bleToUart)[1..]
        && (txResult == 0 ==> tx == Some(TxSlice(b, 0, |heap[b].data|)) && loc == old(loc)[b := InFlight])
        && (txResult != 0 ==> tx == None && loc == old(loc)[b := Leaked])
    {
      if bleToUart == [] {
        return None;
      }
      ghost var loc0 := loc;
      var b := GetBleToUart();
      next := Some(b);
      var err := StartTx(b, 0, |heap[b].data|, txResult);
      if err != 0 {
        Leak(b);
        UpdateTwice(loc0, b, Handler, Leaked);
        SettledUpdate(loc0, b, Leaked);
      } else {
        UpdateTwice(loc0, b, Handler, InFlight);
        SettledUpdate(loc0, b, InFlight);
      }
    }

    /**
     * The head of UART_TX_DONE: the driver is done with its transmission. A
     * zero length or a NULL buffer returns at once, which drops the block
     * just sent unless the aborted record keeps it. Otherwise exactly one
     * block is freed: the recorded aborted block if there is one (which also
     * clears the aborted state, and drops the block just sent when that is
     * another one), else the block just sent.
     */
    method FreeSent(evtLen: nat, evtBufNull: bool) returns (freed: Option<BufId>)
      requires Valid() && tx.Some?
      modifies this`heap, this`tx, this`loc, this`abortedBuf, this`abortedLen
      ensures Valid() && tx == None
      ensures freed.None? <==> evtLen == 0 || evtBufNull
      ensures var t := old(tx).value.buf;
        freed.None? ==>
          && heap == old(heap) && abortedBuf == old(abortedBuf) && abortedLen == old(abortedLen)
          && loc == (if old(abortedBuf) == Some(t) then old(loc) else old(loc)[t := Leaked])
      ensures var t := old(tx).value.buf;
        freed.Some? ==>
          && freed.value == (if old(abortedBuf).Some? then old(abortedBuf).value else t)
          && heap == old(heap) - {freed.value} && loc == Release(old(loc), t, freed.value)
          && abortedBuf == None && abortedLen == (if old(abortedBuf).Some? then 0 else old(abortedLen))
    {
      ghost var loc0 := loc;
      var t := EndTx();
      if evtLen == 0 || evtBufNull {
        if abortedBuf != Some(t.buf) {
          Leak(t.buf);
          UpdateTwice(loc0, t.buf, Handler, Leaked);
          SettledUpdate(loc0, t.buf, Leaked);
        }
        return None;
      }
      var victim: BufId;
      if abortedBuf.Some? {
        victim := ClearAborted();
        abortedLen := 0;
        if t.buf != victim {
          Leak(t.buf);
          Free(victim);
          UpdateOtherRemove(loc0, t.buf, victim, Handler, Handler, Leaked);
          SettledRemove(loc0, victim);
          SettledUpdate(loc0 - {victim}, t.buf, Leaked);
        } else {
          Free(victim);
          UpdateRemove(loc0, victim, Handler);
          SettledRemove(loc0, victim);
        }
      } else {
        victim := t.buf;
        Free(victim);
        UpdateRemove(loc0, victim, Handler);
        SettledRemove(loc0, victim);
      }
      freed := Some(victim);
    }

    /** UART_TX_DONE: FreeSent, then, unless it returned at once, SendNextQueued. */
    method TxDone(evtLen: nat, evtBufNull: bool, txResult: int) returns (freed: Option<BufId>, next: Option<BufId>)
      requires Valid() && tx.Some?
      modifies this`heap, this`tx, this`loc, this`abortedBuf, this`abortedLen, this`bleToUart
      ensures Valid()
      ensures freed.None? <==> evtLen == 0 || evtBufNull
      ensures var t := old(tx).value.buf;
        freed.None? ==>
          && next == None && tx == None && heap == old(heap)
          && abortedBuf == old(abortedBuf) && abortedLen == old(abortedLen) && bleToUart == old(bleToUart)
          && loc == (if old(abortedBuf) == Some(t) then old(loc) else old(loc)[t := Leaked])
      ensures var t := old(tx).value.buf;
        freed.Some? ==>
          && freed.value == (if old(abortedBuf).Some? then old(abortedBuf).value else t)
          && heap == old(heap) - {freed.value}
          && abortedBuf == None && abortedLen == (if old(abortedBuf).Some? then 0 else old(abortedLen))
          && var dropped := Release(old(loc), t, freed.value);
          && (old(bleToUart) == [] ==> next == None && bleToUart == [] && tx == None && loc == dropped)
          && (old(bleToUart) != [] ==>
                var b := old(bleToUart)[0];
                && next == Some(b) && b in heap && bleToUart == old(bleToUart)[1..]
                && (txResult == 0 ==> tx == Some(TxSlice(b, 0, |heap[b].data|)) && loc == dropped[b := InFlight])
                && (txResult != 0 ==> tx == None && loc == dropped[b := Leaked]))
    {
      freed := FreeSent(evtLen, evtBufNull);
      if freed.None? {
        return freed, None;
      }
      next := SendNextQueued(txResult);
    }

    /**
     * The head of UART_TX_ABORTED: the driver gives the aborted block back.
     * The first aborted block is recorded and kept across further aborts; a
     * different block aborted meanwhile is dropped.
     */
    method KeepAborted() returns (kept: BufId)
      requires Valid() && tx.Some?
      modifies this`tx, this`loc, this`abortedBuf
      ensures Valid() && tx == None
      ensures var t := old(tx).value.buf;
        && kept == (if old(abortedBuf).Some? then old(abortedBuf).value else t)
        && abortedBuf == Some(kept) && kept in heap
        && loc == (if old(abortedBuf).None? then old(loc)[t := Aborted]
                   else if t != kept then old(loc)[t := Leaked] else old(loc))
    {
      ghost var loc0 := loc;
      var t := EndTx();
      if abortedBuf.None? {
        RecordAborted(t.buf);
        UpdateTwice(loc0, t.buf, Handler, Aborted);
        SettledUpdate(loc0, t.buf, Aborted);
      } else if abortedBuf != Some(t.buf) {
        Leak(t.buf);
        UpdateTwice(loc0, t.buf, Handler, Leaked);
        SettledUpdate(loc0, t.buf, Leaked);
      }
      kept := abortedBuf.value;
    }

    /**
     * UART_TX_ABORTED: KeepAborted; aborted_len grows by the bytes the
     * driver did send, wrapping as a size_t, and the rest of the recorded block, from offset
     * aborted_len, is handed to uart_tx again, whose result is ignored. The
     * length passed is buf->len - aborted_len in size_t arithmetic.
     */
    method TxAborted(evtLen: nat, txResult: int)
      requires Valid() && tx.Some?
      modifies this`tx, this`loc, this`abortedBuf, this`abortedLen
      ensures Valid()
      ensures var t := old(tx).value.buf;
        var kept := if old(abortedBuf).Some? then old(abortedBuf).value else t;
        && abortedBuf == Some(kept) && kept in heap
        && abortedLen == ToSizeT(old(abortedLen) + evtLen)
        && loc == (if old(abortedBuf).None? then old(loc)[t := Aborted]
                   else if t != kept then old(loc)[t := Leaked] else old(loc))
        && (txResult == 0 ==> tx == Some(TxSlice(kept, abortedLen, ToSizeT(|heap[kept].data| - abortedLen))))
        && (txResult != 0 ==> tx == None)
    {
      var kept := KeepAborted();
      abortedLen := ToSizeT(abortedLen + evtLen);
      var _ := StartTx(kept, abortedLen, ToSizeT(|heap[kept].data| - abortedLen), txResult);
    }

    // ---- uart_cb, the host -> BLE direction ----

    /**
     * UART_RX_RDY: the bytes the driver wrote extend the buffer being filled.
     * Unless a disable is already pending, a buffer that now ends in LF or CR
     * requests uart_rx_disable, once.
     */
    method RxRdy(bytes: seq<byte>)
      requires Valid() && rxHeld != [] && rxHeld[0] in heap
      requires 0 < |bytes| && |heap[rxHeld[0]].data| + |bytes| <= SHELL_UART_BUF_SIZE
      modifies this`heap, this`disableReq, this`disableCalls
      ensures Valid()
      ensures var b := rxHeld[0];
        heap == old(heap)[b := UartBuf(old(heap)[b].data + bytes)]
      ensures var last := bytes[|bytes| - 1];
        && disableReq == (old(disableReq) || last == LF || last == CR)
        && disableCalls == old(disableCalls) + (if !old(disableReq) && (last == LF || last == CR) then 1 else 0)
    {
      var b := rxHeld[0];
      var data := heap[b].data + bytes;
      Fill(b, data);
      if disableReq {
        return;
      }
      if data[|data| - 1] == LF || data[|data| - 1] == CR {
        disableReq := true;
        disableCalls := disableCalls + 1;
      }
    }

    /**
     * A fresh receive buffer for the driver, as UART_RX_DISABLED and
     * uart_work_handler allocate it: a failed k_malloc reschedules the work
     * item; a buffer whose uart_rx_enable fails is dropped without a free.
     */
    method RestartRx(allocOk: bool, enableErr: int) returns (b: Option<BufId>)
      requires Valid()
      modifies this`heap, this`nextId, this`loc, this`rxHeld, this`workPending
      ensures Valid()
      ensures !allocOk ==>
        && b == None && workPending && heap == old(heap) && nextId == old(nextId)
        && rxHeld == old(rxHeld) && loc == old(loc)
      ensures allocOk ==>
        && b == Some(old(nextId)) && b.value !in old(heap) && heap == old(heap)[b.value := UartBuf([])]
        && nextId == old(nextId) + 1 && workPending == old(workPending)
        && (enableErr == 0 ==> rxHeld == old(rxHeld) + [b.value] && loc == old(loc)[b.value := RxDriver])
        && (enableErr != 0 ==> rxHeld == old(rxHeld) && loc == old(loc)[b.value := Leaked])
    {
      if !allocOk {
        workPending := true;
        return None;
      }
      ghost var loc0 := loc;
      var buf := Alloc([]);
      b := Some(buf);
      if enableErr == 0 {
        GiveRx(buf);
        UpdateTwice(loc0, buf, Handler, RxDriver);
        SettledUpdate(loc0, buf, RxDriver);
      } else {
        Leak(buf);
        UpdateTwice(loc0, buf, Handler, Leaked);
        SettledUpdate(loc0, buf, Leaked);
      }
    }

    /** UART_RX_DISABLED: clears disable_req, then RestartRx. */
    method RxDisabled(allocOk: bool, enableErr: int) returns (b: Option<BufId>)
      requires Valid()
      modifies this`heap, this`nextId, this`loc, this`rxHeld, this`workPending, this`disableReq
      ensures Valid()
      ensures !disableReq
      ensures !allocOk ==>
        && b == None && workPending && heap == old(heap) && nextId == old(nextId)
        && rxHeld == old(rxHeld) && loc == old(loc)
      ensures allocOk ==>
        && b == Some(old(nextId)) && b.value !in old(heap) && heap == old(heap)[b.value := UartBuf([])]
        && nextId == old(nextId) + 1 && workPending == old(workPending)
        && (enableErr == 0 ==> rxHeld == old(rxHeld) + [b.value] && loc == old(loc)[b.value := RxDriver])
        && (enableErr != 0 ==> rxHeld == old(rxHeld) && loc == old(loc)[b.value := Leaked])
    {
      disableReq := false;
      b := RestartRx(allocOk, enableErr);
    }

    /** uart_work_handler: the delayed work item runs, and so is no longer pending, then RestartRx. */
    method WorkHandler(allocOk: bool, enableErr: int) returns (b: Option<BufId>)
      requires Valid()
      modifies this`heap, this`nextId, this`loc, this`rxHeld, this`workPending
      ensures Valid()
      ensures workPending <==> !allocOk
      ensures !allocOk ==>
        && b == None && heap == old(heap) && nextId == old(nextId) && rxHeld == old(rxHeld) && loc == old(loc)
      ensures allocOk ==>
        && b == Some(old(nextId)) && b.value !in old(heap) && heap == old(heap)[b.value := UartBuf([])]
        && nextId == old(nextId) + 1
        && (enableErr == 0 ==> rxHeld == old(rxHeld) + [b.value] && loc == old(loc)[b.value := RxDriver])
        && (enableErr != 0 ==> rxHeld == old(rxHeld) && loc == old(loc)[b.value := Leaked])
    {
      workPending := false;
      b := RestartRx(allocOk, enableErr);
    }

    /**
     * UART_RX_BUF_REQUEST: a fresh buffer is offered to the driver; a failed
     * k_malloc offers nothing, and a buffer uart_rx_buf_rsp refuses is
     * dropped without a free, since its result is ignored.
     */
    method RxBufRequest(allocOk: bool, rspErr: int) returns (b: Option<BufId>)
      requires Valid()
      modifies this`heap, this`nextId, this`loc, this`rxHeld
      ensures Valid()
      ensures !allocOk ==>
        b == None && heap == old(heap) && nextId == old(nextId) && rxHeld == old(rxHeld) && loc == old(loc)
      ensures allocOk ==>
        && b == Some(old(nextId)) && b.value !in old(heap) && heap == old(heap)[b.value := UartBuf([])]
        && nextId == old(nextId) + 1
        && (rspErr == 0 ==> rxHeld == old(rxHeld) + [b.value] && loc == old(loc)[b.value := RxDriver])
        && (rspErr != 0 ==> rxHeld == old(rxHeld) && loc == old(loc)[b.value := Leaked])
    {
      if !allocOk {
        return None;
      }
      ghost var loc0 := loc;
      var buf := Alloc([]);
      b := Some(buf);
      if rspErr == 0 {
        GiveRx(buf);
        UpdateTwice(loc0, buf, Handler, RxDriver);
        SettledUpdate(loc0, buf, RxDriver);
      } else {
        Leak(buf);
        UpdateTwice(loc0, buf, Handler, Leaked);
        SettledUpdate(loc0, buf, Leaked);
      }
    }

    /**
     * UART_RX_BUF_RELEASED: the driver gives back its oldest buffer. A
     * buffer holding data is put on uart_rx_to_ble_fifo exactly when BLE is
     * connected; otherwise, and when it is empty, it is freed. Exactly one
     * of the two happens.
     */
    method RxBufReleased() returns (forwarded: bool)
      requires Valid() && rxHeld != []
      modifies this`heap, this`loc, this`rxHeld, this`rxToBle
      ensures Valid()
      ensures var b := old(rxHeld)[0];
        && rxHeld == old(rxHeld)[1..] && b in old(heap)
        && (forwarded <==> |old(heap)[b].data| > 0 && bleConnected)
        && (forwarded ==> rxToBle == old(rxToBle) + [b] && heap == old(heap) && loc == old(loc)[b := RxFifo])
        && (!forwarded ==> rxToBle == old(rxToBle) && heap == old(heap) - {b} && loc == old(loc) - {b})
    {
      ghost var loc0 := loc;
      var b := TakeRx();
      forwarded := |heap[b].data| > 0 && bleConnected;
      if forwarded {
        PutRxToBle(b);
        UpdateTwice(loc0, b, Handler, RxFifo);
        SettledUpdate(loc0, b, RxFifo);
      } else {
        Free(b);
        UpdateRemove(loc0, b, Handler);
        SettledRemove(loc0, b);
      }
    }

    /** my_shell_set_ble_connected */
    method SetBleConnected(connected: bool)
      modifies this`bleConnected
      ensures bleConnected == connected
    {
      bleConnected := connected;
    }

    // ---- initialisation ----

    /**
     * The welcome message of uart_low_level_init: a fresh buffer holds the
     * text and is handed to uart_tx; when uart_tx refuses it, it is freed.
     */
    method SendWelcome(result: int) returns (err: int)
      requires Inv()
      modifies this`heap, this`nextId, this`loc, this`tx
      ensures Inv()
      ensures nextId == old(nextId) + 1 && old(nextId) !in old(heap)
      ensures err == (if old(tx).Some? then -EBUSY else result)
      ensures err == 0 ==>
        && heap == old(heap)[old(nextId) := UartBuf(ShellText.WELCOME)]
        && loc == old(loc)[old(nextId) := InFlight]
        && tx == Some(TxSlice(old(nextId), 0, |ShellText.WELCOME|))
      ensures err != 0 ==> heap == old(heap) && loc == old(loc) && tx == old(tx)
    {
      ghost var heap0, loc0 := heap, loc;
      ShellText.WelcomeFits();
      var t := Alloc(ShellText.WELCOME);
      err := StartTx(t, 0, |ShellText.WELCOME|, result);
      if err != 0 {
        Free(t);
        FreshRemove(heap0, t, UartBuf(ShellText.WELCOME));
        FreshRemove(loc0, t, Handler);
      } else {
        UpdateTwice(loc0, t, Handler, InFlight);
      }
    }

    /**
     * uart_low_level_init: a device that is not ready gives -ENODEV, and a
     * failed receive-buffer k_malloc -ENOMEM, with nothing allocated. A
     * uart_callback_set error or a failed transmit-buffer k_malloc frees the
     * receive buffer; a refused welcome message frees both. When
     * uart_rx_enable fails only the receive buffer is freed: the welcome
     * message stays in flight, for UART_TX_DONE to free. On success the
     * welcome message is in flight and the receive buffer is the driver's.
     */
    method LowLevelInit(o: UartInitOutcome) returns (rc: int)
      requires Valid()
      modifies this`heap, this`nextId, this`loc, this`rxHeld, this`tx
      ensures Valid()
      ensures rc == InitResult(o, old(tx).Some?)
      ensures nextId == old(nextId) + InitAllocations(o)
      ensures var t := old(nextId) + 1;
        Welcomed(o, old(tx).Some?) ==> tx == Some(TxSlice(t, 0, |ShellText.WELCOME|))
      ensures !Welcomed(o, old(tx).Some?) ==>
        heap == old(heap) && loc == old(loc) && tx == old(tx) && rxHeld == old(rxHeld)
      ensures var t := old(nextId) + 1;
        Welcomed(o, old(tx).Some?) && rc != 0 ==>
          && heap == old(heap)[t := UartBuf(ShellText.WELCOME)]
          && loc == old(loc)[t := InFlight] && rxHeld == old(rxHeld)
      ensures var rx, t := old(nextId), old(nextId) + 1;
        rc == 0 ==>
          && heap == old(heap)[rx := UartBuf([])][t := UartBuf(ShellText.WELCOME)]
          && loc == old(loc)[rx := RxDriver][t := InFlight] && rxHeld == old(rxHeld) + [rx]
    {
      if !o.deviceReady {
        return -ENODEV;
      }
      if !o.rxAllocOk {
        return -ENOMEM;
      }
      rc := InitBuffers(o);
    }

    /** uart_low_level_init once the device is ready and the receive buffer is allocated. */
    method InitBuffers(o: UartInitOutcome) returns (rc: int)
      requires Valid() && o.deviceReady && o.rxAllocOk
      modifies this`heap, this`nextId, this`loc, this`rxHeld, this`tx
      ensures Valid()
      ensures rc == InitResult(o, old(tx).Some?)
      ensures nextId == old(nextId) + InitAllocations(o)
      ensures var t := old(nextId) + 1;
        Welcomed(o, old(tx).Some?) ==> tx == Some(TxSlice(t, 0, |ShellText.WELCOME|))
      ensures !Welcomed(o, old(tx).Some?) ==>
        heap == old(heap) && loc == old(loc) && tx == old(tx) && rxHeld == old(rxHeld)
      ensures var t := old(nextId) + 1;
        Welcomed(o, old(tx).Some?) && rc != 0 ==>
          && heap == old(heap)[t := UartBuf(ShellText.WELCOME)]
          && loc == old(loc)[t := InFlight] && rxHeld == old(rxHeld)
      ensures var rx, t := old(nextId), old(nextId) + 1;
        rc == 0 ==>
          && heap == old(heap)[rx := UartBuf([])][t := UartBuf(ShellText.WELCOME)]
          && loc == old(loc)[rx := RxDriver][t := InFlight] && rxHeld == old(rxHeld) + [rx]
    {
      ghost var heap0, loc0 := heap, loc;
      var rx := Alloc([]);
      if o.callbackErr != 0 || !o.txAllocOk {
        Free(rx);
        FreshRemove(heap0, rx, UartBuf([]));
        FreshRemove(loc0, rx, Handler);
        return if o.callbackErr != 0 then o.callbackErr else -ENOMEM;
      }
      rc := WelcomeAndEnable(rx, o.welcomeTxResult, o.rxEnableErr, heap0, loc0);
    }

    /**
     * The rest of uart_low_level_init, with the receive buffer rx allocated
     * over the state heap0/loc0: the welcome message, then uart_rx_enable.
     */
    method WelcomeAndEnable(rx: BufId, result: int, enableErr: int, ghost heap0: map<BufId, UartBuf>,
                            ghost loc0: map<BufId, Place>)
      returns (rc: int)
      requires Inv() && rx == nextId - 1 && rx !in heap0 && rx !in loc0 && Settled(loc0)
      requires heap == heap0[rx := UartBuf([])] && loc == loc0[rx := Handler]
      modifies this`heap, this`nextId, this`loc, this`rxHeld, this`tx
      ensures Valid()
      ensures rc == (if old(tx).Some? then -EBUSY else if result != 0 then result else enableErr)
      ensures nextId == old(nextId) + 1
      ensures old(tx).None? && result == 0 ==> tx == Some(TxSlice(old(nextId), 0, |ShellText.WELCOME|))
      ensures !(old(tx).None? && result == 0) ==>
        heap == heap0 && loc == loc0 && tx == old(tx) && rxHeld == old(rxHeld)
      ensures old(tx).None? && result == 0 && rc != 0 ==>
        && heap == heap0[old(nextId) := UartBuf(ShellText.WELCOME)]
        && loc == loc0[old(nextId) := InFlight] && rxHeld == old(rxHeld)
      ensures rc == 0 ==>
        && heap == heap0[rx := UartBuf([])][old(nextId) := UartBuf(ShellText.WELCOME)]
        && loc == loc0[rx := RxDriver][old(nextId) := InFlight] && rxHeld == old(rxHeld) + [rx]
    {
      var err := SendWelcome(result);
      ghost var t := rx + 1;
      if err != 0 {
        Free(rx);
        FreshRemove(heap0, rx, UartBuf([]));
        FreshRemove(loc0, rx, Handler);
        return err;
      }
      if enableErr != 0 {
        Free(rx);
        FreshRemoveBelow(heap0, rx, t, UartBuf([]), UartBuf(ShellText.WELCOME));
        FreshRemoveBelow(loc0, rx, t, Handler, InFlight);
        SettledUpdate(loc0, t, InFlight);
        return enableErr;
      }
      GiveRx(rx);
      UpdateSwap(loc0, rx, t, Handler, InFlight, RxDriver);
      SettledUpdate(loc0, rx, RxDriver);
      SettledUpdate(loc0[rx := RxDriver], t, InFlight);
      rc := 0;
    }

    /**
     * my_shell_init: a NULL parameter block gives -EINVAL and changes
     * nothing. Otherwise the device and FIFOs are bound, the link is marked
     * disconnected and uart_low_level_init runs; its error is returned as is,
     * with the shell queue left unregistered. On success the shell queue is
     * registered under the shell's module id.
     */
    method ShellInit(p: Option<ShellInitParam>, o: UartInitOutcome, kernel: MsgKernel.Kernel, shellMod: ModuleId, shellQ: nat)
      returns (rc: int)
      requires Valid() && kernel.Valid() && shellQ < kernel.queues.Length
      modifies this`heap, this`nextId, this`loc, this`rxHeld, this`tx, this`param, this`bleConnected, kernel.handles
      ensures Valid() && kernel.Valid()
      ensures p.None? ==>
        && rc == -EINVAL && param == old(param) && bleConnected == old(bleConnected)
        && heap == old(heap) && loc == old(loc) && nextId == old(nextId) && tx == old(tx) && rxHeld == old(rxHeld)
        && kernel.handles[..] == old(kernel.handles[..])
      ensures p.Some? ==>
        && param == p && !bleConnected
        && rc == InitResult(o, old(tx).Some?)
        && nextId == old(nextId) + InitAllocations(o)
        && (rc == 0 ==> kernel.handles[..] == old(kernel.handles[..])[shellMod := Some(shellQ)])
        && (rc != 0 ==> kernel.handles[..] == old(kernel.handles[..]))
      ensures var t := old(nextId) + 1;
        p.Some? && Welcomed(o, old(tx).Some?) ==> tx == Some(TxSlice(t, 0, |ShellText.WELCOME|))
      ensures p.Some? && !Welcomed(o, old(tx).Some?) ==>
        heap == old(heap) && loc == old(loc) && tx == old(tx) && rxHeld == old(rxHeld)
      ensures var t := old(nextId) + 1;
        p.Some? && Welcomed(o, old(tx).Some?) && rc != 0 ==>
          && heap == old(heap)[t := UartBuf(ShellText.WELCOME)]
          && loc == old(loc)[t := InFlight] && rxHeld == old(rxHeld)
      ensures var rx, t := old(nextId), old(nextId) + 1;
        p.Some? && rc == 0 ==>
          && heap == old(heap)[rx := UartBuf([])][t := UartBuf(ShellText.WELCOME)]
          && loc == old(loc)[rx := RxDriver][t := InFlight] && rxHeld == old(rxHeld) + [rx]
    {
      if p.None? {
        return -EINVAL;
      }
      param := p;
      bleConnected := false;
      rc := LowLevelInit(o);
      if rc != 0 {
        return;
      }
      kernel.InitMsgHandler(shellMod, Some(shellQ));
    }

    // ---- the BLE write thread's side of uart_rx_to_ble_fifo ----

    /** k_fifo_get on uart_rx_to_ble_fifo: the oldest buffer, now the write thread's. */
    method TakeForBle() returns (b: Option<BufId>)
      requires Valid() && bleHeld.None?
      modifies this`rxToBle, this`bleHeld, this`loc
      ensures Valid()
      ensures old(rxToBle) == [] ==> b == None && rxToBle == [] && bleHeld == None && loc == old(loc)
      ensures old(rxToBle) != [] ==>
        && b == Some(old(rxToBle)[0]) && rxToBle == old(rxToBle)[1..] && bleHeld == b && b.value in heap
        && loc == old(loc)[b.value := BleThread]
    {
      if rxToBle == [] {
        return None;
      }
      ghost var loc0 := loc;
      var buf := GetRxToBle();
      b := Some(buf);
      SettledUpdate(loc0, buf, BleThread);
    }

    /** k_free of the write thread's buffer. */
    method ReleaseFromBle() returns (freed: BufId)
      requires Valid() && bleHeld.Some?
      modifies this`heap, this`bleHeld, this`loc
      ensures Valid()
      ensures freed == old(bleHeld).value && bleHeld == None && heap == old(heap) - {freed} && loc == old(loc) - {freed}
    {
      ghost var loc0 := loc;
      freed := FreeBleHeld();
      SettledRemove(loc0, freed);
    }
  }
}
