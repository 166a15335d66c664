/**
 * The BLE side of the bridge, from my_ble_core.c: the connection callbacks
 * and the flags they keep (current_conn, auth_conn, the connection LED and
 * the shell's ble_connected), the numeric-comparison pairing buttons, the
 * write thread that relays UART data to the Nordic UART Service, and the
 * start-up and init sequencing.
 *
 * A connection handle is an opaque identity; None is a NULL pointer.
 */
module BleCore {
  import opened Common
  import MsgKernel
  import Bridge

  type ConnId = nat

  /** DK_BTN1_MSK and DK_BTN2_MSK: button 1 confirms, button 2 rejects. */
  const KEY_PASSKEY_ACCEPT: bv32 := 0x1
  const KEY_PASSKEY_REJECT: bv32 := 0x2

  /**
   * One num_comp_reply: bt_conn_auth_passkey_confirm or bt_conn_auth_cancel,
   * with the auth_conn it was handed (None when that pointer was NULL).
   */
  datatype Reply = Confirm(conn: Option<ConnId>) | Cancel(conn: Option<ConnId>)

  /** One bt_nus_send attempt: the connection and the bytes offered. */
  datatype NusSend = NusSend(conn: ConnId, data: seq<byte>)

  /** my_ble_core_init_param: the two bridge FIFOs, as handles. */
  datatype BleInitParam = BleInitParam(uartRxToBleFifo: nat, bleTxToUartFifo: nat)

  /**
   * The results of the steps of my_ble_core_start, in order:
   * bt_conn_auth_cb_register, bt_conn_auth_info_cb_register, bt_enable,
   * bt_nus_init and the creation of the connectable advertising set and of
   * the two beacons.
   */
  datatype StartOutcome = StartOutcome(authCbErr: int, authInfoCbErr: int, enableErr: int, nusInitErr: int,
                                       connAdvErr: int, beacon1Err: int, beacon2Err: int)

  /** What one pass of ble_write_thread's loop did. */
  datatype WriteStep = WaitingInit | WaitingData | Relayed(buf: BufId)

  function StartSteps(o: StartOutcome): seq<int>
  {
    [o.authCbErr, o.authInfoCbErr, o.enableErr, o.nusInitErr, o.connAdvErr, o.beacon1Err, o.beacon2Err]
  }

  /** The first non-zero status of a series of steps, or 0 when all succeed. */
  function FirstError(errs: seq<int>): (r: int)
    ensures r == 0 <==> forall i :: 0 <= i < |errs| ==> errs[i] == 0
    ensures r != 0 ==> exists i :: 0 <= i < |errs| && errs[i] == r && forall j :: 0 <= j < i ==> errs[j] == 0
    decreases |errs|
  {
    if errs == [] then 0
    else if errs[0] != 0 then errs[0]
    else
      var r := FirstError(errs[1..]);
      assert forall i :: 1 <= i < |errs| ==> errs[i] == errs[1..][i - 1];
      r
  }

  /** The first failing step decides the result, whatever comes after it. */
  lemma {:induction false} FirstErrorAt(errs: seq<int>, k: nat)
    requires k < |errs| && errs[k] != 0
    requires forall j :: 0 <= j < k ==> errs[j] == 0
    ensures FirstError(errs) == errs[k]
    decreases k
  {
    if k > 0 {
      FirstErrorAt(errs[1..], k - 1);
    }
  }

  /**
   * The replies my_ble_button_changed issues as written, for the buttons
   * that are both pressed and changed: the accept reply comes first, and a
   * reject in the same event is still sent after the accept reply has
   * cleared auth_conn.
   */
  function RepliesAsWritten(auth: Option<ConnId>, buttons: bv32): (r: seq<Reply>)
    ensures r == [] <==> auth.None? || buttons & (KEY_PASSKEY_ACCEPT | KEY_PASSKEY_REJECT) == 0
    ensures |r| <= 2
    ensures r != [] ==> r[0].conn == auth && (r[0].Confirm? <==> buttons & KEY_PASSKEY_ACCEPT != 0)
  {
    if auth.None? then []
    else
      var accept := buttons & KEY_PASSKEY_ACCEPT != 0;
      var reject := buttons & KEY_PASSKEY_REJECT != 0;
      (if accept then [Confirm(auth)] else []) + (if reject then [Cancel(if accept then None else auth)] else [])
  }

  /**
   * The replies as intended: at most one per pending request, accept taking
   * precedence, and always to the connection that asked.
   */
  function Replies(auth: Option<ConnId>, buttons: bv32): (r: seq<Reply>)
    ensures r == [] <==> auth.None? || buttons & (KEY_PASSKEY_ACCEPT | KEY_PASSKEY_REJECT) == 0
    ensures |r| <= 1
    ensures r != [] ==> auth.Some? && r[0].conn == auth && (r[0].Confirm? <==> buttons & KEY_PASSKEY_ACCEPT != 0)
  {
    if auth.None? then []
    else if buttons & KEY_PASSKEY_ACCEPT != 0 then [Confirm(auth)]
    else if buttons & KEY_PASSKEY_REJECT != 0 then [Cancel(auth)]
    else []
  }

  /** Pressing both buttons at once sends a second reply on a NULL auth_conn. */
  lemma BothButtonsReplyTwice(c: ConnId)
    ensures RepliesAsWritten(Some(c), KEY_PASSKEY_ACCEPT | KEY_PASSKEY_REJECT) == [Confirm(Some(c)), Cancel(None)]
  {
  }

  /** Outside that case the code as written does what was intended. */
  lemma RepliesAgreeUnlessBothPressed(auth: Option<ConnId>, buttons: bv32)
    requires buttons & KEY_PASSKEY_ACCEPT == 0 || buttons & KEY_PASSKEY_REJECT == 0
    ensures RepliesAsWritten(auth, buttons) == Replies(auth, buttons)
  {
  }

  class Ble {
    /** current_conn */
    var currentConn: Option<ConnId>
    /** auth_conn: the connection waiting for a numeric-comparison answer. */
    var authConn: Option<ConnId>
    /** CON_STATUS_LED */
    var statusLed: bool
    /** Whether ble_init_ok has been given, letting the write thread run. */
    var initOk: bool
    /** Every num_comp_reply issued, oldest first. */
    var replies: seq<Reply>
    /** Every bt_nus_send attempted, oldest first. */
    var nusSends: seq<NusSend>
    /** g_ble_ctx, set by my_ble_core_init. */
    var fifos: Option<BleInitParam>

    constructor ()
      ensures currentConn == None && authConn == None && !statusLed && !initOk
      ensures replies == [] && nusSends == [] && fifos == None
    {
      currentConn := None;
      authConn := None;
      statusLed := false;
      initOk := false;
      replies := [];
      nusSends := [];
      fifos := None;
    }

    /** The connection LED and the shell's flag both say whether a connection is held. */
    ghost predicate LinkAgrees(shell: Bridge.Shell)
      reads this, shell
    {
      statusLed == currentConn.Some? && shell.bleConnected == currentConn.Some?
    }

    /**
     * connected: a failed connection changes nothing; otherwise the
     * connection is held, the LED lit and the shell told it may forward.
     */
    method Connected(conn: ConnId, err: uint8, shell: Bridge.Shell)
      modifies this`currentConn, this`statusLed, shell`bleConnected
      ensures err != 0 ==>
        currentConn == old(currentConn) && statusLed == old(statusLed) && shell.bleConnected == old(shell.bleConnected)
      ensures err == 0 ==> currentConn == Some(conn) && statusLed && shell.bleConnected
      ensures old(LinkAgrees(shell)) ==> LinkAgrees(shell)
    {
      if err != 0 {
        return;
      }
      currentConn := Some(conn);
      statusLed := true;
      shell.SetBleConnected(true);
    }

    /**
     * disconnected: any pending pairing request is dropped; the connection,
     * the LED and the shell's flag are cleared only when a connection was
     * held.
     */
    method Disconnected(shell: Bridge.Shell)
      modifies this`currentConn, this`authConn, this`statusLed, shell`bleConnected
      ensures authConn == None && currentConn == None
      ensures old(currentConn).Some? ==> !statusLed && !shell.bleConnected
      ensures old(currentConn).None? ==> statusLed == old(statusLed) && shell.bleConnected == old(shell.bleConnected)
      ensures old(LinkAgrees(shell)) ==> LinkAgrees(shell)
    {
      authConn := None;
      if currentConn.Some? {
        currentConn := None;
        statusLed := false;
        shell.SetBleConnected(false);
      }
    }

    /** auth_passkey_confirm: the connection now waits for a button answer. */
    method AuthPasskeyConfirm(conn: ConnId)
      modifies this`authConn
      ensures authConn == Some(conn)
    {
      authConn := Some(conn);
    }

    /** num_comp_reply: answer the pending request and drop it. */
    method NumCompReply(accept: bool)
      modifies this`replies, this`authConn
      ensures replies == old(replies) + [if accept then Confirm(old(authConn)) else Cancel(old(authConn))]
      ensures authConn == None
    {
      replies := replies + [if accept then Confirm(authConn) else Cancel(authConn)];
      authConn := None;
    }

    /**
     * my_ble_button_changed as written: with both buttons in one event the
     * reject reply goes out after the accept reply has cleared auth_conn.
     */
    method ButtonChangedAsWritten(buttonState: bv32, hasChanged: bv32)
      modifies this`replies, this`authConn
      ensures replies == old(replies) + RepliesAsWritten(old(authConn), buttonState & hasChanged)
      ensures authConn == (if RepliesAsWritten(old(authConn), buttonState & hasChanged) == [] then old(authConn) else None)
    {
      var buttons := buttonState & hasChanged;
      if authConn.Some? {
        if buttons & KEY_PASSKEY_ACCEPT != 0 {
          NumCompReply(true);
        }
        if buttons & KEY_PASSKEY_REJECT != 0 {
          NumCompReply(false);
        }
      }
    }

    /**
     * my_ble_button_changed as intended: only buttons both pressed and
     * changed count, nothing happens without a pending request, and the one
     * reply, accept first, goes to the connection that asked.
     */
    method ButtonChanged(buttonState: bv32, hasChanged: bv32)
      modifies this`replies, this`authConn
      ensures replies == old(replies) + Replies(old(authConn), buttonState & hasChanged)
      ensures authConn == (if Replies(old(authConn), buttonState & hasChanged) == [] then old(authConn) else None)
    {
      var buttons := buttonState & hasChanged;
      if authConn.Some? {
        if buttons & KEY_PASSKEY_ACCEPT != 0 {
          NumCompReply(true);
        } else if buttons & KEY_PASSKEY_REJECT != 0 {
          NumCompReply(false);
        }
      }
    }

    /**
     * One pass of ble_write_thread: nothing before ble_init_ok is given;
     * then the oldest buffer of uart_rx_to_ble_fifo is taken, offered to
     * bt_nus_send only while a connection is held (whatever the send
     * returns), and freed in every case.
     */
    method WriteThreadStep(shell: Bridge.Shell) returns (r: WriteStep)
      requires shell.Valid() && shell.bleHeld.None?
      modifies this`nusSends, shell`rxToBle, shell`bleHeld, shell`loc, shell`heap
      ensures shell.Valid() && shell.bleHeld.None?
      ensures !initOk ==> r == WaitingInit
      ensures initOk && old(shell.rxToBle) == [] ==> r == WaitingData
      ensures r.WaitingInit? || r.WaitingData? ==>
        && nusSends == old(nusSends) && shell.rxToBle == old(shell.rxToBle)
        && shell.heap == old(shell.heap) && shell.loc == old(shell.loc)
      ensures initOk && old(shell.rxToBle) != [] ==>
        var b := old(shell.rxToBle)[0];
        && r == Relayed(b) && b in old(shell.heap)
        && shell.rxToBle == old(shell.rxToBle)[1..]
        && shell.heap == old(shell.heap) - {b} && shell.loc == old(shell.loc) - {b}
        && nusSends == old(nusSends) + (if currentConn.Some? then [NusSend(currentConn.value, old(shell.heap)[b].data)] else [])
    {
      if !initOk {
        return WaitingInit;
      }
      var taken := shell.TakeForBle();
      if taken.None? {
        return WaitingData;
      }
      var b := taken.value;
      if currentConn.Some? {
        nusSends := nusSends + [NusSend(currentConn.value, shell.heap[b].data)];
      }
      var _ := shell.ReleaseFromBle();
      r := Relayed(b);
    }

    /**
     * my_ble_core_start: the first failing step's status is returned and
     * the later steps are not run; ble_init_ok is given once bt_enable has
     * succeeded, whatever the later steps do.
     */
    method Start(o: StartOutcome) returns (rc: int)
      modifies this`initOk
      ensures rc == FirstError(StartSteps(o))
      ensures initOk <==> old(initOk) || (o.authCbErr == 0 && o.authInfoCbErr == 0 && o.enableErr == 0)
    {
      if o.authCbErr != 0 {
        FirstErrorAt(StartSteps(o), 0);
        return o.authCbErr;
      }
      if o.authInfoCbErr != 0 {
        FirstErrorAt(StartSteps(o), 1);
        return o.authInfoCbErr;
      }
      if o.enableErr != 0 {
        FirstErrorAt(StartSteps(o), 2);
        return o.enableErr;
      }
      initOk := true;
      if o.nusInitErr != 0 {
        FirstErrorAt(StartSteps(o), 3);
        return o.nusInitErr;
      }
      if o.connAdvErr != 0 {
        FirstErrorAt(StartSteps(o), 4);
        return o.connAdvErr;
      }
      if o.beacon1Err != 0 {
        FirstErrorAt(StartSteps(o), 5);
        return o.beacon1Err;
      }
      if o.beacon2Err != 0 {
        FirstErrorAt(StartSteps(o), 6);
        return o.beacon2Err;
      }
      rc := 0;
    }

    /**
     * my_ble_core_init: a NULL parameter block gives -EINVAL and changes
     * nothing; otherwise both FIFOs are stored and the BLE queue is
     * registered under MOD_BLE.
     */
    method Init(param: Option<BleInitParam>, kernel: MsgKernel.Kernel, bleQ: nat) returns (rc: int)
      requires kernel.Valid() && bleQ < kernel.queues.Length
      modifies this`fifos, kernel.handles
      ensures kernel.Valid()
      ensures param.None? ==> rc == -EINVAL && fifos == old(fifos) && kernel.handles[..] == old(kernel.handles[..])
      ensures param.Some? ==>
        rc == 0 && fifos == param && kernel.handles[..] == old(kernel.handles[..])[MOD_BLE := Some(bleQ)]
    {
      if param.None? {
        return -EINVAL;
      }
      fifos := param;
      kernel.InitMsgHandler(MOD_BLE, Some(bleQ));
      rc := 0;
    }
  }
}
