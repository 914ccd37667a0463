/** Words shared by every part of the client: bytes, words, C strings, return codes. */
module Mqtt {

  type byte = x: int | 0 <= x < 256
  type uint16 = x: int | 0 <= x < 0x1_0000
  type uint32 = x: int | 0 <= x < 0x1_0000_0000
  type cstring = s: seq<byte> | 0 !in s
  type Qos = q: int | 0 <= q <= 2

  datatype Option<+T> = None | Some(value: T)

  /** The `MOSQ_ERR_*` values. */
  datatype Rc =
    | Success
    | NoMem
    | Protocol
    | Inval
    | NoConn
    | ConnRefused
    | NotFound
    | ConnLost
    | Tls
    | PayloadSize
    | NotSupported
    | Auth
    | AclDenied
    | Unknown
    | Errno
    | Eai
    | Proxy

  const MQTT_MAX_PAYLOAD := 268435455

  /** One more than the largest remaining length four bytes can carry. */
  const REMAINING_LIMIT := 0x1000_0000

  const MAX_FIELD := 65535

  const CONNECT: byte := 0x10
  const PUBLISH: byte := 0x30
  const SUBSCRIBE: byte := 0x80
  const UNSUBSCRIBE: byte := 0xA0
  const DISCONNECT: byte := 0xE0

  const SLASH: byte := 0x2F
  const PLUS: byte := 0x2B
  const HASH: byte := 0x23
  const DOLLAR: byte := 0x24

  function Min(a: int, b: int): int {
    if a < b then a else b
  }

  /** `command & 0xF0`, for a command byte. */
  function HighNibble(command: byte): byte {
    command / 16 * 16
  }
}
