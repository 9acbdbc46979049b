/** The outbound packet queue of a uTP sender: it numbers and queues packets,
    fragments application writes within the window, retires cumulatively
    acknowledged entries while sampling their round-trip times, and decides in
    two phases (choose, then commit) what to transmit next. */
module Queue {
  import opened Types
  import opened Packets
  import opened Rtt
  import opened QueueSpec

  datatype WriteError = WouldBlock

  /** `io::Result<usize>` of `write`. */
  datatype WriteResult = Ok(written: nat) | Err(error: WriteError)

  /** Every entry that was sent, was sent no later than `now`. */
  predicate SentBy(es: seq<Entry>, now: Instant) {
    forall i :: 0 <= i < |es| && es[i].lastSentAt.Some? ==> es[i].lastSentAt.value <= now
  }

  class OutQueue {
    // Queued packets, oldest first.
    var packets: seq<Entry>

    // The connection state (a separate struct in the source, which the
    // transmit cursor borrows).
    var connectionId: uint16
    var seqNr: uint16
    var localAck: Option<uint16>
    var lastAck: Option<uint16>
    var peerWindow: uint32
    var localWindow: uint32
    var createdAt: Instant
    var theirDelay: uint32

    // Congestion state: smoothed rtt (`u64`, ms), its variance (`i64`), and
    // the congestion window in bytes, which nothing here ever changes.
    var rtt: nat
    var rttVariance: int
    var maxWindow: uint32

    /** The object invariant: every entry well formed, the entries numbered
        consecutively up to `seqNr`, and the estimator in range. */
    ghost predicate Valid()
      reads this
    {
      AllWellFormed(packets)
      && Numbered(packets, seqNr)
      && Bounded(Estimator(rtt, rttVariance))
    }

    constructor (connectionId: uint16, seqNr: uint16, localAck: Option<uint16>, now: Instant)
      ensures Valid()
      ensures packets == []
      ensures this.connectionId == connectionId && this.seqNr == seqNr
      ensures this.localAck == localAck && lastAck == None
      ensures peerWindow == MAX_WINDOW_SIZE && localWindow == 0
      ensures createdAt == now && theirDelay == 0
      ensures rtt == 0 && rttVariance == 0 && maxWindow == MAX_PACKET_SIZE
    {
      packets := [];
      this.connectionId := connectionId;
      this.seqNr := seqNr;
      this.localAck := localAck;
      lastAck := None;
      peerWindow := MAX_WINDOW_SIZE;
      localWindow := 0;
      createdAt := now;
      theirDelay := 0;
      rtt := 0;
      rttVariance := 0;
      maxWindow := MAX_PACKET_SIZE;
    }

    /** `is_empty`: every queued packet has been acknowledged and retired. */
    function IsEmpty(): (empty: bool)
      reads this
      ensures empty ==> InFlight() == 0 && Buffered() == 0
      ensures empty <==> packets == []
    {
      |packets| == 0
    }

    /** `in_flight`: how many entries have been sent and not yet retired
        (a count of packets, which `write` subtracts from a byte budget). */
    function InFlight(): (n: nat)
      reads this
      ensures n <= |packets|
      ensures Valid() && AllSent(packets) ==> n == |packets|
    {
      InFlightCount(packets)
    }

    /** `buffered`: payload bytes held by the queue, sent or not. */
    function Buffered(): (n: nat)
      reads this
      ensures n == 0 <==> forall i :: 0 <= i < |packets| ==> packets[i].packet.payload == []
    {
      BufferedBytes(packets)
    }

    /** `is_writable`: the queue holds less than the largest peer window. */
    function IsWritable(): (writable: bool)
      reads this
      ensures writable <==> Buffered() < MAX_WINDOW_SIZE
      ensures IsEmpty() ==> writable
    {
      BufferedBytes(packets) < MAX_WINDOW_SIZE
    }

    /** The byte budget `write` works with: the smaller of the congestion
        window and the peer's window. */
    function WindowLimit(): nat
      reads this
    {
      Min(maxWindow, peerWindow)
    }

    /** `timestamp`: microseconds since creation, modulo 2^32. */
    function Timestamp(now: Instant): (t: uint32)
      reads this
      requires createdAt <= now
      ensures t == (TotalNanos(Elapsed(createdAt, now)) / NANOS_PER_MICRO) % U32_MODULUS
    {
      AsMicros(Elapsed(createdAt, now))
    }

    /** What `next` writes into the packet it hands out at `now`. */
    function CurrentStamp(now: Instant): (st: Stamp)
      reads this
      requires createdAt <= now
      ensures st.timestamp == (TotalNanos(Elapsed(createdAt, now)) / NANOS_PER_MICRO) % U32_MODULUS
      ensures st.timestampDiff == theirDelay && st.wndSize == localWindow
      ensures st.ackNr == (if localAck.Some? then localAck.value else 0)
    {
      Stamp(Timestamp(now), theirDelay, localAck.GetOr(0), localWindow)
    }

    /** `socket_timeout`, in milliseconds. */
    function SocketTimeout(): (ms: int)
      reads this
      ensures ms >= MIN_TIMEOUT_MS
      ensures rtt + rttVariance > MIN_TIMEOUT_MS ==> ms == rtt + rttVariance
      ensures rtt + rttVariance <= MIN_TIMEOUT_MS ==> ms == MIN_TIMEOUT_MS
      ensures Valid() ==> ms <= 2 * MAX_SAMPLE_MS
    {
      SocketTimeoutMs(Estimator(rtt, rttVariance))
    }

    /** `set_their_delay`: the wrapping difference between our timestamp and
        the one the peer put into its last packet. */
    method SetTheirDelay(theirTimestamp: uint32, now: Instant)
      requires Valid() && createdAt <= now
      modifies this`theirDelay
      ensures Valid()
      ensures theirDelay == WrappingSub32(Timestamp(now), theirTimestamp)
      ensures (theirTimestamp + theirDelay) % U32_MODULUS == Timestamp(now)
    {
      var ourTimestamp := Timestamp(now);
      theirDelay := WrappingSub32(ourTimestamp, theirTimestamp);
    }

    /** `set_their_ack`: pop covered entries from the front, feeding each one
        that was sent exactly once into the estimator. */
    method SetTheirAck(ackNr: uint16, now: Instant)
      requires Valid() && SentBy(packets, now)
      modifies this`packets, this`rtt, this`rttVariance
      ensures Valid()
      ensures var k := AckedCount(old(packets), ackNr);
              packets == old(packets)[k..]
              && Estimator(rtt, rttVariance)
                 == Retire(Estimator(old(rtt), old(rttVariance)), old(packets)[..k], now)
    {
      ghost var es0 := packets;
      ghost var est0 := Estimator(rtt, rttVariance);
      ghost var i := 0;
      while packets != [] && AckCovers(packets[0].packet.seqNr, ackNr)
        invariant 0 <= i <= |es0| && packets == es0[i..]
        invariant forall j :: 0 <= j < i ==> AckCovers(es0[j].packet.seqNr, ackNr)
        invariant forall j :: 0 <= j < |es0| ==> SampleReady(es0[j], now)
        invariant Estimator(rtt, rttVariance) == Retire(est0, es0[..i], now)
        invariant Bounded(Estimator(rtt, rttVariance))
        decreases |packets|
      {
        var p := packets[0];
        assert p == es0[i] && AckCovers(p.packet.seqNr, ackNr);
        packets := packets[1..];
        assert packets == es0[i + 1..];
        var est := RetireOne(Estimator(rtt, rttVariance), p, now);
        rtt, rttVariance := est.rtt, est.variance;
        RetireSnoc(est0, es0, i, now);
        i := i + 1;
      }
      assert i == AckedCount(es0, ackNr);
      NumberedSuffix(es0, seqNr, i);
    }

    /** `set_local_window`; the source asserts that the value fits in 32 bits. */
    method SetLocalWindow(val: nat)
      requires Valid() && val < U32_MODULUS
      modifies this`localWindow
      ensures Valid() && localWindow == val
    {
      localWindow := val;
    }

    /** `set_local_ack`: data up to `val` is ready to be acknowledged. */
    method SetLocalAck(val: uint16)
      requires Valid()
      modifies this`localAck
      ensures Valid() && localAck == Some(val)
    {
      localAck := Some(val);
    }

    /** `push`: number the packet, stamp the connection id unless it is a Syn,
        and append it as a never-sent entry. Queuing a State packet is a
        contract violation (the source panics). */
    method Push(packet: Packet)
      requires Valid() && packet.ty != State
      modifies this`packets, this`seqNr
      ensures Valid()
      ensures packets == old(packets) + [NewEntry(Enqueued(packet, connectionId, old(seqNr)))]
      ensures seqNr == WrappingInc16(old(seqNr))
    {
      var p := packet;
      if p.ty != Syn {
        p := p.(connectionId := connectionId);
      }
      p := p.(seqNr := seqNr);
      NumberedPush(packets, seqNr, NewEntry(p));
      seqNr := WrappingInc16(seqNr);
      packets := packets + [NewEntry(p)];
    }

    /** The cursor `c` is what `next` just handed out for the current state
        (what the borrow of the source's `Next` guarantees). */
    ghost predicate Pending(c: Choice)
      reads this
    {
      match c
      case EntryAt(i) => FirstUnsent(packets) == Some(i)
      case StateAck(p) =>
        AllSent(packets) && localAck != lastAck
        && p.ty == State && p.connectionId == connectionId && p.seqNr == seqNr
        && p.ackNr == localAck.GetOr(0) && p.payload == []
      case Nothing => false
    }

    /** `next`: choose the first never-sent entry and stamp it in place, or else
        synthesize an acknowledgement if one is owed, or else nothing. Commits
        nothing: send counts, send times, `seqNr` and `lastAck` stay as they are. */
    method Next(now: Instant) returns (choice: Choice)
      requires Valid() && createdAt <= now
      modifies this`packets
      ensures Valid()
      ensures choice == Choose(old(packets), connectionId, seqNr, localAck, lastAck, CurrentStamp(now))
      ensures packets == StampChosen(old(packets), choice, CurrentStamp(now))
      ensures !choice.Nothing? ==> Pending(choice)
    {
      var st := Stamp(Timestamp(now), theirDelay, localAck.GetOr(0), localWindow);
      var i := 0;
      while i < |packets|
        invariant 0 <= i <= |packets| && packets == old(packets)
        invariant forall j :: 0 <= j < i ==> packets[j].lastSentAt.Some?
      {
        if packets[i].lastSentAt.Some? {
          i := i + 1;
          continue;
        }
        ghost var before := packets;
        assert FirstUnsent(before) == Some(i) by {
          var r := FirstUnsent(before);
          assert r.Some? && r.value >= i;
        }
        packets := packets[i := packets[i].(packet := Stamped(packets[i].packet, st))];
        FirstUnsentSameSendTimes(before, packets);
        NumberedRestamped(before, packets, seqNr);
        return EntryAt(i);
      }
      if localAck != lastAck {
        return StateAck(AckPacket(connectionId, seqNr, st));
      }
      return Nothing;
    }

    /** `Next::packet`: the packet the cursor would transmit. */
    function PacketOf(c: Choice): (p: Packet)
      reads this
      requires Valid() && Pending(c)
      ensures p.ty == State <==> c.StateAck?
      ensures c.EntryAt? ==> p == packets[c.index].packet
      ensures c.StateAck? ==> p == c.packet
    {
      match c
      case EntryAt(i) => packets[i].packet
      case StateAck(p) => p
    }

    /** `Next::sent`: commit the send of the cursor `c` at `now`. A queued entry
        counts one more send and records the time; for either kind of cursor the
        acknowledgement now owed is recorded as sent. */
    method Sent(c: Choice, now: Instant)
      requires Valid() && Pending(c)
      modifies this`packets, this`lastAck
      ensures Valid()
      ensures c.EntryAt? ==> packets == Committed(old(packets), c.index, now)
      ensures c.StateAck? ==> packets == old(packets)
      ensures lastAck == localAck
      ensures c.EntryAt? ==> InFlight() == old(InFlight()) + 1
      ensures c.StateAck? ==> AllSent(packets)
    {
      if c.EntryAt? {
        var i := c.index;
        InFlightCommitted(packets, i, now);
        NumberedRestamped(packets, Committed(packets, i, now), seqNr);
        packets := packets[i := packets[i].(numSends := packets[i].numSends + 1, lastSentAt := Some(now))];
      }
      lastAck := localAck;
    }

    /** The loop of `write`: while more than a header's worth of `budget` is
        left, cut the next chunk of `src`, push it as a Data packet and charge
        its length plus a header; return the number of bytes consumed. */
    method PushFragments(src: seq<uint8>, budget: nat) returns (len: nat)
      requires Valid()
      modifies this`packets, this`seqNr
      ensures Valid()
      ensures Written(packets, seqNr, len) == WriteLoop(old(packets), old(seqNr), connectionId, src, budget, 0)
    {
      ghost var target := WriteLoop(packets, seqNr, connectionId, src, budget, 0);
      var rem: nat := budget;
      len := 0;
      var rest := src;
      while rem > HEADER_LEN
        invariant Valid()
        invariant WriteLoop(packets, seqNr, connectionId, rest, rem, len) == target
        decreases rem
      {
        var packetLen := Min(MAX_PACKET_SIZE, Min(|rest|, rem - HEADER_LEN));
        if packetLen == 0 {
          break;
        }
        Push(DataPacket(rest[..packetLen]));
        len := len + packetLen;
        rem := rem - (packetLen + HEADER_LEN);
        rest := rest[packetLen..];
      }
    }

    /** `write`: empty input is a no-op; with no window left it would block;
        otherwise the input is cut into Data packets within the window and the
        number of bytes consumed is returned. */
    method Write(src: seq<uint8>) returns (r: WriteResult)
      requires Valid()
      modifies this`packets, this`seqNr
      ensures Valid()
      ensures |src| == 0 ==> r == Ok(0) && packets == old(packets) && seqNr == old(seqNr)
      ensures |src| > 0 && old(InFlight()) >= WindowLimit() ==>
                r == Err(WouldBlock) && packets == old(packets) && seqNr == old(seqNr)
      ensures |src| > 0 && old(InFlight()) < WindowLimit() ==>
                var chunks := Fragment(src, WindowLimit() - old(InFlight()));
                r == Ok(|Flatten(chunks)|)
                && packets == old(packets) + DataEntries(chunks, connectionId, old(seqNr))
                && seqNr == (old(seqNr) + |chunks|) % U16_MODULUS
    {
      if |src| == 0 {
        assert packets[|packets|..] == [];
        return Ok(0);
      }
      var curWindow := InFlight();
      var max := Min(maxWindow, peerWindow);
      if curWindow >= max {
        return Err(WouldBlock);
      }
      var budget := max - curWindow;
      assert budget == WindowLimit() - InFlight();
      var len := PushFragments(src, budget);
      WriteOutcome(old(packets), old(seqNr), connectionId, src, budget, packets, seqNr, len);
      return Ok(len);
    }
  }

  /** Changing packets' stamped fields or a send count keeps the numbering. */
  lemma NumberedRestamped(a: seq<Entry>, b: seq<Entry>, next: uint16)
    requires Numbered(a, next) && |a| == |b|
    requires forall i :: 0 <= i < |a| ==> b[i].packet.seqNr == a[i].packet.seqNr
    ensures Numbered(b, next)
  {
  }
}
