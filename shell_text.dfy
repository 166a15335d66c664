/**
 * The text my_shell.c writes to the UART of its own accord: the welcome
 * banner that uart_low_level_init formats into a transmit buffer.
 */
module ShellText {
  import opened Common

  /** The welcome message "Starting Shell Command Interface\r\n", as the bytes snprintf writes. */
  const WELCOME: seq<byte> := [
    0x53, 0x74, 0x61, 0x72, 0x74, 0x69, 0x6E, 0x67, 0x20, 0x53, 0x68, 0x65, 0x6C, 0x6C, 0x20, 0x43, 0x6F,
    0x6D, 0x6D, 0x61, 0x6E, 0x64, 0x20, 0x49, 0x6E, 0x74, 0x65, 0x72, 0x66, 0x61, 0x63, 0x65, 0x0D, 0x0A]

  /**
   * snprintf into the 40-byte data array succeeds: the banner and its
   * terminating NUL fit, so the length check of uart_low_level_init passes
   * and the banner ends in CR LF.
   */
  lemma WelcomeFits()
    ensures 0 < |WELCOME| < SHELL_UART_BUF_SIZE
    ensures WELCOME[|WELCOME| - 2..] == [CR, LF]
  {
  }
}
