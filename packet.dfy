/** The packet values the queue handles. Wire encoding is not part of this
    model: a packet here is just the header fields the queue reads or stamps
    and its payload. */
module Packets {
  import opened Types

  /** The five packet types of BEP 29 (ST_DATA, ST_FIN, ST_STATE, ST_RESET,
      ST_SYN). `State` is the bare acknowledgement. */
  datatype PacketType = Data | Fin | State | Reset | Syn

  /** Size of the fixed uTP header (BEP 29: 20 bytes). */
  const HEADER_LEN: nat := 20

  /** Largest window the peer may advertise; the value of the crate constant is
      not part of this model, only that it fits in 32 bits. */
  const MAX_WINDOW_SIZE: nat := 1_048_576

  datatype Packet = Packet(
    ty: PacketType,
    connectionId: uint16,
    seqNr: uint16,
    ackNr: uint16,
    timestamp: uint32,
    timestampDiff: uint32,
    wndSize: uint32,
    payload: seq<uint8>)

  /** `Packet::data`: a Data packet carrying `payload`, header fields zero. */
  function DataPacket(payload: seq<uint8>): Packet {
    Packet(Data, 0, 0, 0, 0, 0, 0, payload)
  }

  /** `Packet::state`: an empty State (acknowledgement) packet. */
  function StatePacket(): Packet {
    Packet(State, 0, 0, 0, 0, 0, 0, [])
  }
}
