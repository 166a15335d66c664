/**
 * Types and constants shared by every module of the LL311_BLE firmware:
 * the module and timer enumerations of my_comm.h, the message envelope
 * MSG_S of my_main.h, the UART buffer of my_shell.h, and the negative
 * error numbers the firmware returns (Zephyr's errno values).
 */
module Common {

  type byte = bv8
  type uint8 = x: int | 0 <= x < 0x100
  type uint16 = x: int | 0 <= x < 0x1_0000
  type uint32 = x: int | 0 <= x < 0x1_0000_0000

  const UINT32_MODULUS: int := 0x1_0000_0000

  datatype Option<T> = None | Some(value: T)

  // ---- module_type ----
  const MOD_MAIN: nat := 0
  const MOD_BLE: nat := 1
  const MOD_CTRL: nat := 2
  const MOD_LTE: nat := 3
  const MOD_NFC: nat := 4
  const MOD_GSENSOR: nat := 5
  const MOD_FOTA: nat := 6
  const MAX_MY_MOD_TYPE: nat := 7

  /** A value of the C enum module_type: an index into the registry. */
  type ModuleId = m: nat | m < MAX_MY_MOD_TYPE

  // ---- MY_E_TIMER ----
  const MY_TIMER_ONE_MINUTE: int := 0
  const MY_TIMER_TEST: int := 1
  const MY_TIMER_MAX_ID: nat := 2

  // ---- MY_MAIN_TASK_MSG (only the identifier the core acts on) ----
  const MY_MSG_BLE_DATA_EVENT: uint32 := 10

  // ---- error numbers (returned negated) ----
  const EAGAIN: int := 11
  const ENOMEM: int := 12
  const EBUSY: int := 16
  const ENODEV: int := 19
  const EINVAL: int := 22
  const ENOMSG: int := 35
  const ENOTSUP: int := 134

  /** Identity of a heap block obtained from k_malloc (a pointer in C). */
  type BufId = nat

  /** MSG_S: a message identifier, an optional owned payload and its length. */
  datatype Msg = Msg(msgId: uint32, pData: Option<BufId>, dataLen: uint32)

  /** Every k_msgq of the firmware is defined with room for 10 messages. */
  const MSGQ_MAX_MSGS: nat := 10

  /** SHELL_UART_BUF_SIZE, the capacity of shell_uart_data_t.data. */
  const SHELL_UART_BUF_SIZE: nat := 40

  const CR: byte := 0x0D
  const LF: byte := 0x0A

  /** The used part of a shell_uart_data_t: data[0 .. len). */
  datatype UartBuf = UartBuf(data: seq<byte>)

  function Min(a: int, b: int): int { if a <= b then a else b }
}
