/** Types shared by every module: ports, peer keys, and the result types. */
module Common {

  /** A TCP port number, of 16 bits. */
  type Port = n: nat | n < 0x1_0000

  /** A peer's public key. */
  datatype Key = Key(bytes: seq<bv8>)

  /** Identifies one QUIC connection. */
  type ConnId = nat

  /** A reading of the monotone clock. */
  type Instant = nat

  datatype Option<+T> = None | Some(value: T)

  datatype Result<+T, +E> = Ok(value: T) | Err(error: E)

  /** The kinds of failure an answer can report. */
  datatype ErrorKind = Invalid | NotFound | Conflict | Denied | Unavailable | Internal

  /** The connection in a slot, if there is one. */
  function ConnSet(c: Option<ConnId>): set<ConnId> {
    if c.Some? then {c.value} else {}
  }
}
