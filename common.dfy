/** Types shared by the whole model of the BlueZ event layer (src/event.c). */
module Common {

  /** An octet, as held in a `uint8_t` or (for names) a `char` buffer. */
  type byte = x: int | 0 <= x < 0x100

  type uint16 = x: int | 0 <= x < 0x1_0000

  type uint32 = x: int | 0 <= x < 0x1_0000_0000

  /** A Bluetooth device address (`bdaddr_t`). Lookups by its text form
      (`ba2str`) are lookups by the address itself, since that form is injective. */
  type Address = seq<byte>

  /** A NUL-terminated C string of bytes, without its terminator. */
  type CBytes = s: seq<byte> | 0 !in s

  datatype Option<+T> = None | Some(value: T)

  datatype Result<+T, +E> = Ok(value: T) | Err(error: E)

  /** Linux errno values returned negated by the handlers. */
  const ENOMEM: int := 12
  const ENODEV: int := 19
}
