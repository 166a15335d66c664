# LL311_BLE firmware core, modelled in Dafny

LL311_BLE is a Zephyr firmware for an nRF-based device. Its tasks talk to each
other through a module registry of bounded message queues. It keeps a small
pool of software timers. It bridges a UART shell to the Nordic UART Service
over BLE, and it guards its tasks with a liveness watchdog. Around these sit
three small peripherals: an NFC reader session, the control task (battery LEDs
and a PWM buzzer) and a DA215S accelerometer.

The model takes each source file's own form:

- **`MsgKernel`** (main.c). The registry `g_my_msg_info` is an array of queue
  handles. The statically defined queues are an array of `seq<Msg>` with room
  for 10 messages each. The class models registration, sends that never block
  and drop silently, FIFO receives with their three waiting modes, the idle
  task loops, and the main loop's release of a BLE data payload.
- **`Timers`** (main.c). The timer pool has two arrays: the `k_timer` slots
  and the "initialized" flags, which are never cleared. The passage of time is
  an explicit `Expire` step, and "remaining time > 0" is a running flag.
- **`Bridge`** (my_shell.c) and **`Ownership`**, **`Chunking`**,
  **`ShellText`**.
  - Every `k_malloc` block has an identity, and the class `Shell` holds the
    live blocks (`heap`).
  - It also holds the places that hold blocks: the receive buffers the driver
    holds, `uart_rx_to_ble_fifo`, `ble_tx_to_uart_fifo`, the transmission in
    flight, `aborted_buf`, and the BLE write thread's block.
  - A ghost map `loc` says where each live block is. The invariant `Valid`
    ties every container to it, so no block is in two places and a freed block
    is in none (`Ownership.OwnedExclusive`).
  - The source drops blocks without freeing them in several places: a failed
    `uart_tx` in `UART_TX_DONE`, a failed `uart_rx_enable` or
    `uart_rx_buf_rsp`, and a `UART_TX_DONE` of length 0 or with a different
    aborted block. The model keeps these blocks under the place `Leaked`, so
    each contract says exactly which block is lost.
  - Each driver event is one atomic method, built from the small "moves" of
    the class.
- **`BleCore`** (my_ble_core.c). It holds the connection flags, the
  numeric-comparison buttons, one pass of the write thread, the start-up error
  sequencing and init.
- **`Wdt`** (my_wdt.c). It models the 32-bit alive bitmap, the all-or-nothing
  feed decision and init.
- **`Nfc`** (my_nfc.c), **`Ctrl`** (my_ctrl.c) and **`GSensor`**
  (my_gsensor.c): the small state machines and arithmetic.

Calls into Zephyr, the Bluetooth stack and the drivers become parameters
carrying their outcome. Examples are the `uart_tx` result, how many `k_malloc`
calls succeed, a device's readiness and a GPIO status. Both the shell and the
write thread are assumed to be bound to the same two FIFOs, as `main()`
intends.

## Model

| member | source | states |
|---|---|---|
| MsgKernel.Kernel.constructor | applications/LL311_BLE/src/main.c:22-30 | no module is registered and every queue is empty |
| MsgKernel.Kernel.InitMsgHandler | applications/LL311_BLE/src/main.c:86-96 | a NULL queue leaves the registry unchanged; otherwise the module's slot is overwritten, so the last registration wins |
| MsgKernel.Kernel.MsgqPut | applications/LL311_BLE/src/main.c:120 | the message joins the tail when the queue holds fewer than 10; otherwise the queue is unchanged and -ENOMSG is returned |
| MsgKernel.Kernel.SendMsg | applications/LL311_BLE/src/main.c:106-121 | `{msg, NULL, 0}` is appended to the destination's queue unless it is full; an unregistered destination leaves every queue unchanged |
| MsgKernel.Kernel.SendMsgData | applications/LL311_BLE/src/main.c:131-145 | the caller's message is appended to the destination's queue unless it is full; an unregistered destination leaves every queue unchanged |
| MsgKernel.Kernel.RecvMsg | applications/LL311_BLE/src/main.c:157-160 | the oldest message is returned and removed; on an empty queue K_NO_WAIT gives -ENOMSG, a bounded wait gives -EAGAIN and K_FOREVER blocks, each leaving the queues unchanged |
| MsgKernel.Kernel.IdleTaskStep | applications/LL311_BLE/src/my_shell.c:448-469 | a task loop without handlers blocks on an empty queue and otherwise consumes exactly the oldest message |
| MsgKernel.Kernel.MainLoopStep | applications/LL311_BLE/src/main.c:359-376 | the main loop consumes the oldest message, and frees its payload exactly when it is a BLE data event with a payload and a non-zero length |
| MsgKernel.PutAllKeepsPrefix | applications/LL311_BLE/src/main.c:106-121 | a series of sends keeps, in send order, as many messages as there is room for, and drops the rest; the queue never exceeds 10 |
| MsgKernel.EleventhSendIsDropped | applications/LL311_BLE/src/main.c:25 | of eleven sends to an empty queue, the first ten are kept in order and the eleventh is dropped |
| Timers.TimerPool.constructor | applications/LL311_BLE/src/main.c:29-30 | every slot is uninitialized and idle |
| Timers.TimerPool.Start | applications/LL311_BLE/src/main.c:204-231 | an id out of range gives -EINVAL and changes nothing; otherwise the slot is marked initialized and runs with the new callback, duration `ms`, and period `ms` iff isPeriod, replacing any earlier configuration |
| Timers.TimerPool.Stop | applications/LL311_BLE/src/main.c:182-193 | only an initialized, in-range timer stops; any other id changes nothing |
| Timers.TimerPool.Delete | applications/LL311_BLE/src/main.c:239-251 | the same as stop, and the initialized flags never change |
| Timers.TimerPool.IsRunning | applications/LL311_BLE/src/main.c:260-274 | true iff the id is in range and the timer is pending, which implies it was started |
| Timers.TimerPool.Expire | applications/LL311_BLE/src/main.c:168-175 | an expiring timer fires its installed callback; a periodic timer stays pending and a one-shot timer stops |
| Timers.PeriodicSurvivesExpiry | applications/LL311_BLE/src/main.c:226-228 | after a start and any number of expiries, the first fires the callback; a timer started periodic with a non-zero period fires it at every later expiry and is still running, and a one-shot timer fires nothing more and is stopped |
| Wdt.MarkAliveSetsOwnBit | applications/LL311_BLE/src/my_wdt.c:73-79 | a report sets the reporter's bit |
| Wdt.MarkAliveKeepsOtherBits | applications/LL311_BLE/src/my_wdt.c:73-79 | a report leaves every other bit unchanged |
| Wdt.MarkAliveIgnoresUnknownModule | applications/LL311_BLE/src/my_wdt.c:75 | an id outside module_type changes nothing |
| Wdt.MarkAliveIdempotent | applications/LL311_BLE/src/my_wdt.c:77 | reporting twice is reporting once |
| Wdt.ExpectedMaskIsMonitoredTasks | applications/LL311_BLE/src/my_wdt.c:47-48 | the expected mask is bits 0 to 5 |
| Wdt.FotaIsNotMonitored | applications/LL311_BLE/src/my_wdt.c:47-48 | the FOTA bit is not part of the expected mask |
| Wdt.AllAliveIffEachMonitoredTask | applications/LL311_BLE/src/my_wdt.c:47-50 | the feed test passes iff each of Main, BLE, Ctrl, LTE, NFC and GSensor has its bit set |
| Wdt.AllAliveIgnoresFota | applications/LL311_BLE/src/my_wdt.c:47-50 | whether FOTA reported plays no part in the feed decision |
| Wdt.SilentTaskBlocksFeed | applications/LL311_BLE/src/my_wdt.c:58-63 | one monitored task that has not reported blocks the feed |
| Wdt.MarkAliveKeepsMask | applications/LL311_BLE/src/my_wdt.c:77 | a report never clears a bit |
| Wdt.ReportAllKeepsMask | applications/LL311_BLE/src/my_wdt.c:77 | no series of reports clears a bit that is already set |
| Wdt.ReportAllSetsEachBit | applications/LL311_BLE/src/my_wdt.c:73-79 | every module in a series of reports ends up with its bit set |
| Wdt.EveryTaskReportedAllowsFeed | applications/LL311_BLE/src/my_wdt.c:42-57 | once each monitored task has reported since the last feed, in any order, the next callback feeds |
| Wdt.EachMonitoredBitIsAllAlive | applications/LL311_BLE/src/my_wdt.c:47-50 | the six monitored bits together pass the feed test |
| Wdt.FeedIntervalBelowTimeout | applications/LL311_BLE/src/my_wdt.c:29-30 | the 10000 ms feed interval is below the 30000 ms timeout, three times over |
| Wdt.Watchdog.constructor | applications/LL311_BLE/src/my_wdt.c:26-33 | the bitmap is clear and no channel is installed |
| Wdt.Watchdog.Feed | applications/LL311_BLE/src/my_wdt.c:73-79 | the bitmap becomes MarkAlive of the old one and nothing else changes |
| Wdt.Watchdog.FeedTimerCallback | applications/LL311_BLE/src/my_wdt.c:42-64 | with every expected bit set, the hardware is fed once and the whole bitmap is cleared; otherwise nothing changes |
| Wdt.Watchdog.Init | applications/LL311_BLE/src/my_wdt.c:88-133 | a device that is not ready gives -ENODEV; a negative channel is stored and returned; a setup error is returned; success feeds once and leaves the feed timer running periodically every 10000 ms, marked initialised, with every other timer slot and flag unchanged; no error path touches the timer pool |
| Ownership.TracksDistinct | applications/LL311_BLE/src/my_shell.c:71-215 | no block is queued twice in the same FIFO or receive-slot list |
| Ownership.OwnedExclusive | applications/LL311_BLE/src/my_shell.c:71-215 | every block a container holds is live, and no block is held by two containers or by a container and the transmitter |
| Chunking.ChunkPayloadLeavesRoomForLf | applications/LL311_BLE/src/my_shell.c:392-393 | a chunk carries BUF_SIZE - 1 payload bytes at most |
| Chunking.ChunksConcat | applications/LL311_BLE/src/my_shell.c:393-415 | the chunks, written one after the other, are the payload followed by one LF exactly when the payload ends in CR |
| Chunking.ChunksShape | applications/LL311_BLE/src/my_shell.c:395-415 | every chunk but the last carries 39 bytes; the last carries the remaining 1 to 39 bytes plus the LF, so no chunk is empty or exceeds BUF_SIZE |
| Chunking.ChunksCount | applications/LL311_BLE/src/my_shell.c:382-406 | a payload of n bytes is cut into ceil(n / 39) chunks |
| Chunking.ChunksStep | applications/LL311_BLE/src/my_shell.c:395-415 | the first chunk is the next min(39, rest) bytes, plus LF when it ends a payload ending in CR, and the other chunks continue from there |
| Chunking.PlacedKeys | applications/LL311_BLE/src/my_shell.c:384 | the heap after k chunks holds the old blocks and exactly k fresh ones |
| Chunking.PlacedHolds | applications/LL311_BLE/src/my_shell.c:404-415 | fresh block number i holds chunk i |
| Chunking.PlacedKeeps | applications/LL311_BLE/src/my_shell.c:384-404 | blocks allocated before the call keep their contents |
| Chunking.SentStep | applications/LL311_BLE/src/my_shell.c:417-422 | sending one more chunk, taken by the driver or queued, extends the account of the loop by that chunk |
| ShellText.WelcomeFits | applications/LL311_BLE/src/my_shell.c:327-330 | the 34-byte banner and its NUL fit in the 40-byte buffer, so the length check passes, and it ends in CR LF |
| Bridge.Shell.constructor | applications/LL311_BLE/src/my_shell.c:26-37 | no block is live, the aborted state is clear and BLE is not connected |
| Bridge.Shell.SendChunk | applications/LL311_BLE/src/my_shell.c:384-422 | the next chunk goes into a fresh block that is in flight when the idle driver accepts it, and at the tail of ble_tx_to_uart_fifo otherwise |
| Bridge.Shell.SendNext | applications/LL311_BLE/src/my_shell.c:382-423 | one pass of the loop accounts for exactly one more chunk |
| Bridge.Shell.SendFromBle | applications/LL311_BLE/src/my_shell.c:375-426 | a NULL or empty payload gives -EINVAL and allocates nothing; otherwise the first min(chunks, allocations) chunks are placed in fresh blocks in order, one is in flight if the driver took it, the rest are queued in chunk order, and a failed allocation stops with -ENOMEM; every block live before the call keeps its place |
| Bridge.Shell.SendNextQueued | applications/LL311_BLE/src/my_shell.c:104-113 | the head of ble_tx_to_uart_fifo, if any, is dequeued and transmitted; when uart_tx refuses it, it is lost without a free |
| Bridge.Shell.FreeSent | applications/LL311_BLE/src/my_shell.c:83-102 | length 0 or a NULL buffer frees nothing; otherwise exactly one block is freed: the aborted block, which clears the aborted state, or else the block just sent |
| Bridge.Shell.TxDone | applications/LL311_BLE/src/my_shell.c:83-115 | UART_TX_DONE frees exactly one block and then dequeues and transmits at most one, or does nothing at all for length 0 or a NULL buffer |
| Bridge.Shell.KeepAborted | applications/LL311_BLE/src/my_shell.c:199-204 | the first aborted block is recorded and kept across later aborts |
| Bridge.Shell.TxAborted | applications/LL311_BLE/src/my_shell.c:199-212 | aborted_len grows by the event length, wrapping as a size_t, and the kept block is retransmitted from offset aborted_len for its length minus aborted_len, in size_t |
| Bridge.Shell.RxRdy | applications/LL311_BLE/src/my_shell.c:117-138 | the receive buffer grows by the new bytes; a disable is requested once, when the last byte is LF or CR, and not again while one is pending |
| Bridge.Shell.RestartRx | applications/LL311_BLE/src/my_shell.c:140-152 | a fresh empty buffer goes to the driver; a failed allocation reschedules the work item, and a refused enable loses the buffer |
| Bridge.Shell.RxDisabled | applications/LL311_BLE/src/my_shell.c:136-154 | UART_RX_DISABLED clears disable_req and restarts reception |
| Bridge.Shell.WorkHandler | applications/LL311_BLE/src/my_shell.c:227-246 | the work item restarts reception and is pending again only when its allocation failed |
| Bridge.Shell.RxBufRequest | applications/LL311_BLE/src/my_shell.c:159-172 | a fresh empty buffer is offered to the driver when the allocation succeeds |
| Bridge.Shell.RxBufReleased | applications/LL311_BLE/src/my_shell.c:174-197 | a released buffer with data is queued for BLE iff BLE is connected, and is freed otherwise; exactly one of the two happens |
| Bridge.Shell.SetBleConnected | applications/LL311_BLE/src/my_shell.c:435-439 | the connected flag becomes the argument |
| Bridge.Shell.SendWelcome | applications/LL311_BLE/src/my_shell.c:323-354 | the banner is placed in a fresh block and is in flight when uart_tx accepts it, and is freed otherwise |
| Bridge.Shell.LowLevelInit | applications/LL311_BLE/src/my_shell.c:256-365 | the result is the first failing step's error; every failure frees what was allocated, except that a failed rx enable leaves the banner in flight; success leaves the banner in flight and the receive buffer with the driver |
| Bridge.Shell.InitBuffers | applications/LL311_BLE/src/my_shell.c:268-365 | as LowLevelInit, once the device is ready and the receive buffer is allocated |
| Bridge.Shell.WelcomeAndEnable | applications/LL311_BLE/src/my_shell.c:346-364 | the banner goes out, then reception is enabled; each failure frees the receive buffer |
| Bridge.Shell.ShellInit | applications/LL311_BLE/src/my_shell.c:479-500 | a NULL parameter gives -EINVAL and changes nothing; otherwise the link is marked disconnected and low-level init runs with its full outcome: the welcome block in flight, the receive buffer given to the driver on success, and the buffers unchanged when the banner was never sent; the queue is registered only on success |
| Bridge.Shell.TakeForBle | applications/LL311_BLE/src/my_ble_core.c:637-638 | the write thread takes the oldest block of uart_rx_to_ble_fifo |
| Bridge.Shell.ReleaseFromBle | applications/LL311_BLE/src/my_ble_core.c:665 | the write thread frees the block it holds |
| BleCore.FirstError | applications/LL311_BLE/src/my_ble_core.c:679-749 | the result is 0 iff every step succeeds, and otherwise is the first non-zero status |
| BleCore.FirstErrorAt | applications/LL311_BLE/src/my_ble_core.c:679-749 | the first failing step decides the result, whatever follows it |
| BleCore.RepliesAsWritten | applications/LL311_BLE/src/my_ble_core.c:571-587 | replies are sent only with a pending request and a pressed accept or reject; accept goes first, to the pending connection |
| BleCore.Replies | applications/LL311_BLE/src/my_ble_core.c:571-587 | the corrected handler sends at most one reply, always to the pending connection |
| BleCore.BothButtonsReplyTwice | applications/LL311_BLE/src/my_ble_core.c:580-586 | with both buttons pressed, the code as written sends a second reply on a NULL auth_conn |
| BleCore.RepliesAgreeUnlessBothPressed | applications/LL311_BLE/src/my_ble_core.c:571-587 | outside that case, the code as written behaves as intended |
| BleCore.Ble.constructor | applications/LL311_BLE/src/my_ble_core.c:35-39 | there is no connection and no pending request, and nothing has been sent |
| BleCore.Ble.Connected | applications/LL311_BLE/src/my_ble_core.c:323-342 | a failed connection changes nothing; otherwise the connection is held, the LED is lit and the shell flag is set, and the LED and the flag keep agreeing with the connection |
| BleCore.Ble.Disconnected | applications/LL311_BLE/src/my_ble_core.c:352-375 | the pending request is always dropped; the connection, the LED and the shell flag are cleared only when a connection was held |
| BleCore.Ble.AuthPasskeyConfirm | applications/LL311_BLE/src/my_ble_core.c:454-458 | the connection waits for a button answer |
| BleCore.Ble.NumCompReply | applications/LL311_BLE/src/my_ble_core.c:547-562 | one confirm or cancel is issued to auth_conn, which is then cleared |
| BleCore.Ble.ButtonChangedAsWritten | applications/LL311_BLE/src/my_ble_core.c:571-587 | the replies are exactly RepliesAsWritten of the pressed-and-changed buttons |
| BleCore.Ble.ButtonChanged | applications/LL311_BLE/src/my_ble_core.c:571-587 | the corrected handler issues exactly Replies of the pressed-and-changed buttons |
| BleCore.Ble.WriteThreadStep | applications/LL311_BLE/src/my_ble_core.c:627-667 | nothing happens before ble_init_ok; otherwise the oldest block is sent only while a connection is held, and is freed in every case |
| BleCore.Ble.Start | applications/LL311_BLE/src/my_ble_core.c:679-749 | the result is the first non-zero step status; the write thread is released iff bt_enable and the steps before it succeed |
| BleCore.Ble.Init | applications/LL311_BLE/src/my_ble_core.c:759-783 | a NULL parameter gives -EINVAL and changes nothing; otherwise both FIFOs are stored and MOD_BLE is registered |
| Nfc.MsFromSeconds | applications/LL311_BLE/src/my_nfc.c:156 | the millisecond count is duration * 1000 up to 4294967 s, and wraps below it beyond that |
| Nfc.MsFromSecondsWraps | applications/LL311_BLE/src/my_nfc.c:156 | an illustration of the general ensures of `Nfc.MsFromSeconds`: 4294967 s is 4294967000 ms, but 4294968 s reads as 704 ms |
| Nfc.NfcReader.constructor | applications/LL311_BLE/src/my_nfc.c:28-35 | no session is on, and the default duration is fixed |
| Nfc.NfcReader.StartWork | applications/LL311_BLE/src/my_nfc.c:139-166 | a start during a session gives -EBUSY and changes nothing; otherwise the session runs for timeout_s, or the default when 0, with the reader powered, the stop timer started, a poll due at once and the wrapped millisecond count stored |
| Nfc.NfcReader.StopWork | applications/LL311_BLE/src/my_nfc.c:175-187 | from any state, the session ends with nothing pending and the reader unpowered, so stopping is idempotent |
| Nfc.NfcReader.PollHandler | applications/LL311_BLE/src/my_nfc.c:84-104 | outside a session nothing is rescheduled; in a session the next poll is due in 500 ms |
| Nfc.NfcReader.StopTimerHandler | applications/LL311_BLE/src/my_nfc.c:113-117 | the stop timer's expiry ends the session as a stop does |
| Nfc.NfcReader.Init | applications/LL311_BLE/src/my_nfc.c:196-241 | devices that are not ready give -ENODEV and a configure error is returned, each with nothing changed; success leaves no session on and registers MOD_NFC |
| Ctrl.ClampLevel | applications/LL311_BLE/src/my_ctrl.c:228-230 | levels above 3 count as 3 |
| Ctrl.LedPattern | applications/LL311_BLE/src/my_ctrl.c:232-234 | LED i is lit iff i is below the clamped level |
| Ctrl.CountLitPrefix | applications/LL311_BLE/src/my_ctrl.c:232-237 | a row lit from index 0 up to c has exactly c lit LEDs |
| Ctrl.LitLedsMatchLevel | applications/LL311_BLE/src/my_ctrl.c:217-237 | exactly min(level, 3) LEDs are lit, lowest indices first |
| Ctrl.FirstFailure | applications/LL311_BLE/src/my_ctrl.c:235-236 | the index of the first negative status: every write before it succeeded |
| Ctrl.FirstFailureAt | applications/LL311_BLE/src/my_ctrl.c:235-236 | a failing write with only successes before it is the first failure |
| Ctrl.ToneSetting | applications/LL311_BLE/src/my_ctrl.c:158-159 | the period is 10^9 / freq rounded down, and the pulse is half of it rounded down (period - 2 * pulse is 0 or 1), so pulse <= period and both fit in uint32 |
| Ctrl.ToneWrites | applications/LL311_BLE/src/my_ctrl.c:150-176 | frequency 0 only silences the buzzer; a PWM error writes nothing more; otherwise the tone is set first, and a non-zero duration ends in silence |
| Ctrl.SequenceWritesSnoc | applications/LL311_BLE/src/my_ctrl.c:183-187 | playing one more note appends exactly that note's settings |
| Ctrl.Controller.constructor | applications/LL311_BLE/src/my_ctrl.c:203-208 | the battery LEDs start off |
| Ctrl.Controller.BattLedSetLevel | applications/LL311_BLE/src/my_ctrl.c:223-240 | the LEDs before the first failing write show the level's pattern, the rest are untouched, and the result is that failure's status or 0 |
| Ctrl.Controller.PlayTone | applications/LL311_BLE/src/my_ctrl.c:150-176 | the buzzer receives exactly ToneWrites, and the result is the PWM error for a non-zero frequency and 0 otherwise |
| Ctrl.Controller.PlaySequence | applications/LL311_BLE/src/my_ctrl.c:178-189 | NULL notes or a count of 0 gives -EINVAL and plays nothing; otherwise the notes are played in index order and 0 is returned |
| Ctrl.Controller.PushMsg | applications/LL311_BLE/src/my_ctrl.c:249-255 | a NULL message gives -EINVAL; otherwise the message joins the control queue, or -ENOMSG when the queue is full |
| Ctrl.Controller.Init | applications/LL311_BLE/src/my_ctrl.c:334-366 | a PWM that is not ready gives -ENODEV with nothing registered; otherwise MOD_CTRL is registered |
| GSensor.Int16FromLE | applications/LL311_BLE/src/my_gsensor.c:133-135 | the value is an int16, negative iff the high byte's top bit is set, and equals the byte pair in two's complement |
| GSensor.Int16RoundTrip | applications/LL311_BLE/src/my_gsensor.c:133-135 | decoding the little-endian encoding of any int16 gives it back |
| GSensor.BytesRoundTrip | applications/LL311_BLE/src/my_gsensor.c:133-135 | every byte pair is the encoding of the value it decodes to |
| GSensor.CheckId | applications/LL311_BLE/src/my_gsensor.c:88-109 | true iff the chip-id read returns 0 and the id is 0x13; a failed read is never an identification |
| GSensor.InitResult | applications/LL311_BLE/src/my_gsensor.c:162-222 | init succeeds iff every step succeeds and the id matches; devices that are not ready, or a wrong id, give -ENODEV |
| GSensor.Sensor.constructor | applications/LL311_BLE/src/my_gsensor.c:42 | no sensor is identified and the sensor is not powered |
| GSensor.Sensor.ReadData | applications/LL311_BLE/src/my_gsensor.c:117-143 | -ENOTSUP unless a DA215S was identified; a bus error is returned with no reading; otherwise x, y and z are the signed values of byte pairs 0-1, 2-3 and 4-5 |
| GSensor.Sensor.Init | applications/LL311_BLE/src/my_gsensor.c:162-239 | the result is InitResult; the sensor is powered once its pin is configured; it is recorded as a DA215S, and MOD_GSENSOR registered, only when the id matches |

## Left out

- Threads, preemption and interrupts: each driver event, callback and loop pass is one atomic step, and no interleaving is modelled.
- Real time: `k_sleep` and `k_msleep` delays, timer deadlines and the 100 ms and 50 ms settling waits. Expiry is an explicit step.
- Logging throughout, including the main loop's hex dump.
- Thread creation and naming: each `*_init` returns without a thread id.
- `main()` start-up ordering, `error()`, `custom_task_info_init`, `my_system_reset` and power-off.
- The DTR wait loop and the DCD/DSR settings of `uart_low_level_init` (my_shell.c:295-321): they only wait on the line and log.
- `uart_test_async_api` and the async adapter (my_shell.c:280-285): driver plumbing.
- UART_RX_STOPPED: the handler does nothing on it.
- Advertising, the beacons and the pairing callbacks other than auth_passkey_confirm (my_ble_core.c:142-301, 400-523): calls into the Bluetooth stack. Their outcomes are parameters of `BleCore.Ble.Start`.
- `bt_receive_cb` (my_ble_core.c:599-614) only passes its bytes to `Bridge.Shell.SendFromBle`.
- The reference counting of `bt_conn_ref`/`bt_conn_unref`: a connection is an opaque identity.
- `my_nfc_pwr_on`, `my_gsensor_pwr_on`, `my_ctrl_stop_buzzer`, `lock_led_set`, `misc_io_init`, `leds_init`, `gsensor_gpio_isr` and the task loops' empty handlers beyond `MsgKernel.Kernel.IdleTaskStep`: plain pin writes, or no logic of their own. Pin state appears only where the core reads it back (the NFC and accelerometer power pins, the battery LEDs). The battery LEDs' initial inactive setting by `leds_init` is not modelled by `Ctrl.Controller.Init`; they start off only through `Ctrl.Controller.constructor`.
- The I2C read inside the NFC poll: its result is only logged.
- my_battery.c, my_motor.c and my_lte.c: driver wrappers and a loopback test with no logic of their own.
- my_gsensor.h, my_ctrl.h and my_nfc.h are not part of this model. `gsensor_type` is modelled as {unknown, DA215S}, `my_buzzer_note` as (frequency, duration), and NFC_DEFAULT_WORK_TIME_S is a constructor parameter of `Nfc.NfcReader`.
- CONFIG_BT_NUS_UART_BUFFER_SIZE is fixed at 40, the Nordic UART Service sample's default. The chunk payload is 39 accordingly.
- The button masks DK_BTN1_MSK and DK_BTN2_MSK are taken as bits 0 and 1.
- MOD_SHELL is not in the module_type enum. `Bridge.Shell.ShellInit` takes the module id it registers as a parameter, and main.c:291's call without arguments is modelled after the declaration at my_shell.h:57.
- MY_TIMER_WDT_FEED is not in the MY_E_TIMER enum. `Wdt.Watchdog.Init` takes the timer id as a parameter, and an id outside the pool leaves the timers unchanged, as `my_start_timer` does.
- The `.reserved` field main.c:299 passes to `my_ble_core_init_param` is not in the structure. The parameter is modelled as the two FIFOs.
- A timer started with a period of 0 ms is not rejected by `my_start_timer`. The model follows the code: with isPeriod it behaves as a one-shot, since a zero period means no repeat.
- Bridge.Shell.SendFromBle: `uart_tx` is modelled as "-EBUSY while a transmission is in flight, otherwise the driver's verdict". The idle driver is assumed to refuse chunks before number acceptAt with one refusal code and to accept that one. A driver that accepts and then completes a transmission within the same call is not covered.
- Bridge.Shell.RxRdy: the driver is assumed to write within the 40-byte buffer, as it was handed that size, and never to report a zero-length UART_RX_RDY (`requires 0 < |bytes|`); on such an event the source would read `buf[len - 1]` of a buffer that may be empty.
- The payload of a message dropped by `my_send_msg_data` is left without an owner, as in the source. Main-queue payloads are identities, not bridge blocks.

## Findings

| source | as written | input that shows it | evidently intended | confidence | as-written member | corrected member |
|---|---|---|---|---|---|---|
| applications/LL311_BLE/src/my_ble_core.c:580-586 | the accept and reject tests are two independent `if`s, and `num_comp_reply` clears `auth_conn` after the first reply | a pending request and one event with both buttons 1 and 2 pressed and changed (`buttons == 0x3`) | one reply per pending request: a second reply, `bt_conn_auth_cancel(NULL)` followed by `bt_conn_unref(NULL)`, is never issued | not executed | BleCore.BothButtonsReplyTwice | BleCore.Ble.ButtonChanged |
