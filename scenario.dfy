/** Short client programs of the outbound queue: a handshake packet goes out
    and is acknowledged after a bare ack is owed and sent; separately, a queue
    set up as after a handshake sends an 11-byte write as one Data packet
    carrying the local ack. */
module Scenarios {
  import opened Types
  import opened Packets
  import opened QueueSpec
  import opened Queue

  /** Handshake, first half: nothing to send on a fresh queue; the pushed Syn
      takes sequence number 1, goes out once and is not chosen again. */
  method SendSyn() returns (q: OutQueue)
    ensures fresh(q) && q.Valid()
    ensures |q.packets| == 1 && q.packets[0].lastSentAt == Some(1_000)
    ensures q.packets[0].packet.seqNr == 1 && q.seqNr == 2
    ensures q.createdAt == 0 && q.connectionId == 25103
    ensures q.localAck == None && q.lastAck == None
  {
    q := new OutQueue(25103, 1, None, 0);
    var c := q.Next(0);
    assert c == Nothing;

    q.Push(Packet(Syn, 25103, 0, 0, 0, 0, 0, []));
    assert q.packets[0].packet.seqNr == 1 && q.seqNr == 2;
    c := q.Next(1_000);
    assert c == EntryAt(0);
    var p := q.PacketOf(c);
    assert p.ty == Syn && p.seqNr == 1 && p.ackNr == 0 && p.connectionId == 25103;
    q.Sent(c, 1_000);
    c := q.Next(2_000);
    assert c == Nothing;
  }

  /** Handshake, second half: once data up to 123 is ready to be acknowledged,
      a bare ack with the current sequence number is owed and, once sent, no
      longer; the peer's ack of the Syn then empties the queue. */
  method AckExchange(q: OutQueue)
    requires q.Valid()
    requires |q.packets| == 1 && q.packets[0].lastSentAt == Some(1_000)
    requires q.packets[0].packet.seqNr == 1 && q.seqNr == 2
    requires q.createdAt == 0 && q.localAck == None && q.lastAck == None
    modifies q
  {
    q.SetLocalAck(123);
    var c := q.Next(3_000);
    assert c.StateAck? && c.packet.ackNr == 123 && c.packet.seqNr == 2;
    q.Sent(c, 3_000);
    assert q.lastAck == Some(123);
    c := q.Next(4_000);
    assert c == Nothing;

    q.SetTheirAck(1, 5_000);
    assert q.IsEmpty();
  }

  /** The whole handshake: the Syn goes out, then the ack exchange runs on the
      queue it leaves. */
  method Handshake()
  {
    var q := SendSyn();
    AckExchange(q);
  }

  /** After the handshake (next sequence number 2, data up to 123 received),
      "hello world" fits in one packet and in the window: it goes out as one
      Data packet numbered 2 that carries the ack. */
  method HelloWorld()
  {
    var q := new OutQueue(25103, 2, Some(123), 0);
    var hello: seq<uint8> := [104, 101, 108, 108, 111, 32, 119, 111, 114, 108, 100];
    FragmentSingle(hello, MAX_PACKET_SIZE);
    var r := q.Write(hello);
    assert r == Ok(11) by {
      assert Flatten([hello]) == hello + Flatten([]);
    }
    assert |q.packets| == 1;
    var c := q.Next(6_000);
    assert c == EntryAt(0);
    var p := q.PacketOf(c);
    assert p.ty == Data && p.payload == hello && p.seqNr == 2 && p.ackNr == 123;
  }
}
