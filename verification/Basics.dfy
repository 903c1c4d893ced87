/** The values every part of the adapter shares: peers, clock readings and the protocol's constants. */
module Basics {

  datatype Option<+T> = None | Some(value: T)

  /** A host is the text form of an IP address, and a node the key of one node identity. */
  type Host = string
  type Node = string

  /** A UDP peer: an address and the port it was seen on. */
  datatype Peer = Peer(host: Host, port: nat)

  /** Nanoseconds since the zero value of Go's time.Time, so that an unset time reads 0. */
  type Time = nat

  const SECOND: nat := 1_000_000_000

  const RELAY_LIFETIME: nat := 30 * SECOND
  const RELAY_SWEEP_INTERVAL: nat := SECOND
  const UPF_ADDR_LIFETIME: nat := 1800 * SECOND

  const RELAY_SEQUENCE_FLOOR: nat := 0x80_0000
  const RELAY_SEQUENCE_CEIL: nat := 0xFF_FFFF

  /** How many numbers the adapter can hand out. */
  const RELAY_SEQUENCES: nat := RELAY_SEQUENCE_CEIL - RELAY_SEQUENCE_FLOOR + 1

  const RELAY_SEND_ATTEMPTS: nat := 4
}
