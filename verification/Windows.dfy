/** Limits of HTTP/2 connections (sections 4.2, 6.5.2 and 6.9.2 of RFC 9113). */
module Windows {

  const INITIAL_WINDOW := 65535
  const DEFAULT_FRAME := 16384
  const FRAME_LIMIT := 0x100_0000
}
