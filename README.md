# uTP outbound queue

A Dafny model of the outbound packet queue of a uTP (BEP 29, the micro
transport protocol of BitTorrent) sender. It also models the helper that
turns one random 16-bit value into a connection's pair of identifiers.

The queue (`Queue.OutQueue`) does the following:

- **Numbering.** It gives every pushed packet the next 16-bit sequence number, wrapping at 65536.
- **Connection id.** It stamps the connection id on every packet except the handshake (Syn) packet.
- **Writes.** It cuts application writes into Data packets of at most 1400 bytes. Each packet is charged its length plus a 20-byte header against the window budget.
- **Acks.** It pops cumulatively acknowledged entries from the front. Each popped entry that was sent exactly once becomes an RTT sample. The samples feed a smoothed rtt and variance, and those give a retransmission timeout of at least 500 ms.
- **Transmit decision.** It decides what to transmit in two phases:
  - `Next` chooses the first never-sent entry and stamps it in place. If every entry was sent, it synthesizes a bare acknowledgement when one is owed; otherwise it returns nothing.
  - `Sent` commits that choice.

The model is split into seven modules:

- `Types`: bounded integers and 16/32-bit wrapping arithmetic.
- `Packets`: the packet value.
- `Rtt`: durations, `as_ms`, `as_micros`, the estimator update and the timeout.
- `QueueSpec`: entries and the pure functions that specify each operation, with the lemmas about them.
- `Queue`: the class, whose methods are proved against `QueueSpec`.
- `Util`: the identifier pair.
- `Scenarios`: short client programs that drive the queue.

`Scenarios` drives the queue through these exchanges:

- `SendSyn`: a fresh queue has nothing to send; a pushed Syn takes sequence number 1, is sent once and is not chosen again.
- `AckExchange`: starting from the state `SendSyn` ends in (`Handshake` runs the two in sequence), once a local ack of 123 is set a bare ack is owed, sent once and then no longer owed; the peer's ack of 1 then empties the queue.
- `HelloWorld`: a separate fresh queue, created with next sequence number 2 and local ack 123, takes an 11-byte write of "hello world" as one Data packet numbered 2 that carries ack 123.

`Queue.OutQueue.Valid` is the object invariant. It holds three facts:

- **Entries are well formed.**
  - Each has been sent at most once.
  - It has a send time exactly when it has been sent, so the source's `unwrap` of the send time cannot fail.
  - Its `acked` flag is never set, and no State packet is queued.
- **Numbering.** The entries are numbered consecutively, modulo 2^16, up to the next sequence number.
- **Estimator range.** rtt and variance stay in [0, 30 999]. The source's `u64`/`i64` arithmetic therefore never overflows.

The model keeps these behaviours of the code:

- **Ack range test** (src/out_queue.rs:135-141). The test of `set_their_ack` uses the lower bound `ack_nr.wrapping_sub(ack_nr)`, which is always 0. The test is therefore "0 < seq <= ack", ack 0 retires everything, and an entry numbered 0 blocks every other ack.
- **Synthesized ack** (src/out_queue.rs:245). The acknowledgement packet carries the current `seq_nr` and does not consume it.
- **`in_flight` unit** (src/out_queue.rs:266-273 and 303-305). `in_flight` counts entries, and `write` subtracts that count from a byte budget.
- **Payload cap** (src/out_queue.rs:277-279). `write` caps payloads with MAX_PACKET_SIZE, not MAX_DATA_SIZE.
- **Clamped samples** (src/out_queue.rs:350-354). `as_ms` clamps only above 30 whole seconds, so a sample can reach 30 999 ms.
- **Variance division** (src/out_queue.rs:157). The signed variance update divides with Rust's truncating `/`. Dafny's `/` is Euclidean, so the model writes the truncation out.

Time is a parameter: an `Instant` is a natural number of nanoseconds, and every operation that reads the clock takes `now`. The borrowed `Next` cursor becomes a `Choice` value. `EntryAt(i)`, `StateAck(packet)` or `Nothing` is passed back to `Sent`. `Pending` states what the borrow guarantees. For an entry, the cursor is the index `Next` chooses in the current state. For a synthesized ack, an ack is still owed, every entry was sent, and the packet is a State packet with the queue's connection id, current sequence number, local ack and an empty payload. The other stamped fields of the ack are not checked, because they depend on the time of the `Next` call.

## Model

| member | source | states |
|---|---|---|
| Types.WrappingInc16 | src/out_queue.rs:207 | `wrapping_add(1)`: the successor below 65535, and 0 after 65535 |
| Types.WrappingSub16 | src/out_queue.rs:135 | `wrapping_sub`: the result added back to the subtrahend gives the minuend mod 2^16, and it is the plain difference when no wrap occurs |
| Types.WrappingSub32 | src/out_queue.rs:124 | the 32-bit `wrapping_sub`, same two properties mod 2^32 |
| Rtt.Elapsed | src/out_queue.rs:154 | `duration_since`: whole seconds and sub-second nanoseconds that add up to the elapsed nanoseconds |
| Rtt.AsMs | src/out_queue.rs:348-356 | never above 30 999; exactly 30 000 above 30 whole seconds; otherwise the duration in whole milliseconds |
| Rtt.AsMicros | src/out_queue.rs:341-346 | the 64-bit wrapping multiply, the truncation to 32 bits and the add give the duration in whole microseconds modulo 2^32 |
| Rtt.TruncDiv | src/out_queue.rs:157 | signed division rounding toward zero: the remainder has the sign of the dividend and is smaller than the divisor |
| Rtt.Update | src/out_queue.rs:152-163 | the new rtt lies between the old rtt and the sample; the new variance lies between the old variance and the absolute rtt-to-sample difference, and stays non-negative; the bounded range is preserved for samples up to 30 999 |
| Rtt.UpdateGains | src/out_queue.rs:155-163 | the rtt moves one eighth of the way to the sample and the variance one quarter of the way to the absolute rtt-to-sample difference, each step rounded toward zero (the signed variance step included) |
| Rtt.SocketTimeoutMs | src/out_queue.rs:183-191 | at least 500 ms; equal to rtt + variance whenever that exceeds 500, else exactly 500 |
| QueueSpec.Enqueued | src/out_queue.rs:194-204 | the pushed packet takes the given sequence number; it takes the queue's connection id unless it is a Syn; every other field is unchanged |
| QueueSpec.NumberedPush | src/out_queue.rs:204-214 | pushing an entry numbered with the current counter keeps the queue consecutively numbered with the counter advanced |
| QueueSpec.ConsecutiveNumbers | src/out_queue.rs:204-207 | in a numbered queue each entry's number is the wrapping successor of the previous one, and the last entry's successor is the next number to assign |
| QueueSpec.AckCovers | src/out_queue.rs:131-143 | the range test as written is exactly "ack is 0, or 0 < seq <= ack" (both directions) |
| QueueSpec.AckedCount | src/out_queue.rs:130-150 | the popped prefix: every popped entry is covered, the first kept entry is not, ack 0 pops everything, and a front entry numbered 0 blocks any other ack |
| QueueSpec.NumberedSuffix | src/out_queue.rs:150 | popping a prefix keeps the numbering |
| QueueSpec.RetireOne | src/out_queue.rs:152-163 | an entry sent other than exactly once leaves the estimator unchanged; one sent exactly once moves the rtt between the old rtt and its sample; the bounded range is kept |
| QueueSpec.Retire | src/out_queue.rs:152-164 | retiring entries keeps the estimator in range, and leaves it unchanged when no retired entry was sent exactly once |
| QueueSpec.RetireSnoc | src/out_queue.rs:150-164 | retiring one more entry feeds that entry into the estimator computed so far |
| QueueSpec.FirstUnsent | src/out_queue.rs:223-227 | the index of the first never-sent entry: every earlier entry was sent, and there is none exactly when all were sent |
| QueueSpec.AckPacket | src/out_queue.rs:242-249 | a State packet with the connection id, the current sequence number and an empty payload, carrying the stamp's timestamp, delay, ack and window |
| QueueSpec.Choose | src/out_queue.rs:217-257 | the first never-sent entry if there is one; otherwise an acknowledgement exactly when local ack differs from last ack, with type State, the connection id, the current (not consumed) sequence number, the stamp's timestamp, delay, ack and window, and an empty payload; otherwise nothing |
| QueueSpec.StampChosen | src/out_queue.rs:229-233 | the chosen entry receives the stamp's timestamp, delay, ack and window and keeps its connection id; stamping changes no other entry, and in the chosen one no send count, send time, type, sequence number or payload |
| QueueSpec.FirstUnsentSameSendTimes | src/out_queue.rs:225-227 | the choice depends only on the send times |
| QueueSpec.ChooseRepeatable | src/out_queue.rs:223-255 | deciding again without committing gives the same decision; with the same stamp it gives the same choice and the same queue |
| QueueSpec.Committed | src/out_queue.rs:329-335 | committing an entry counts one more send, records the send time and changes no other entry |
| QueueSpec.SentAdvances | src/out_queue.rs:225-227 | after the chosen entry is committed, `next` chooses a later entry or none |
| QueueSpec.InFlightCount | src/out_queue.rs:301-306 | the number of sent, unacked entries: at most the queue length, and all of it when all were sent |
| QueueSpec.InFlightAppend | src/out_queue.rs:301-306 | the in-flight count of a concatenation is the sum of the counts |
| QueueSpec.InFlightCommitted | src/out_queue.rs:301-306 | committing an unsent entry adds exactly one to the in-flight count |
| QueueSpec.InFlightSameSendState | src/out_queue.rs:301-306 | entries with the same send state have the same in-flight count |
| QueueSpec.BufferedBytes | src/out_queue.rs:308-313 | the payload bytes held: zero exactly when every payload is empty, and at least the size of each payload |
| QueueSpec.BufferedAppend | src/out_queue.rs:308-313 | the buffered bytes of a concatenation are the sum of the parts |
| QueueSpec.ChunkLen | src/out_queue.rs:277-279 | the next chunk fits in the input, in the budget left after a header, and in MAX_PACKET_SIZE |
| QueueSpec.Fragment | src/out_queue.rs:273-292 | the payloads `write` cuts; none when the window cannot hold a header and a byte, or the input is empty |
| QueueSpec.FragmentChunkSizes | src/out_queue.rs:276-292 | every payload `write` cuts is non-empty and at most 1400 bytes |
| QueueSpec.FragmentPrefix | src/out_queue.rs:285-291 | the payloads, concatenated in order, are exactly the first written bytes of the input, so no byte is duplicated, dropped or reordered, and no more than the input is consumed |
| QueueSpec.FragmentBudget | src/out_queue.rs:273-289 | payloads plus one header per packet fit in the budget; input is left over only when the remaining budget cannot hold a header and a byte |
| QueueSpec.FragmentProgress | src/out_queue.rs:276-283 | a budget of at most one header consumes nothing; a larger budget and non-empty input consume at least one byte |
| QueueSpec.FragmentSingle | src/out_queue.rs:276-292 | input that fits in one packet and in the budget goes out as a single packet (the 11-byte write at src/test/mod.rs:55-56) |
| QueueSpec.DataEntries | src/out_queue.rs:285-286 | one entry per chunk |
| QueueSpec.DataEntriesAt | src/out_queue.rs:285-286 | entry j is a never-sent Data packet carrying chunk j under sequence number start + j mod 2^16 |
| QueueSpec.DataEntriesAccounting | src/out_queue.rs:285-286 | the entries of a write are well formed, hold exactly the written bytes and add nothing to the in-flight count |
| QueueSpec.WriteLoop | src/out_queue.rs:273-292 | the loop of `write` step by step: it only appends to the queue and only adds to the byte count |
| QueueSpec.WriteLoopFragments | src/out_queue.rs:273-292 | the loop of `write` appends the entries for the fragments of its input under consecutive sequence numbers, advances the counter by their number, and consumes the bytes of those fragments |
| QueueSpec.WriteOutcome | src/out_queue.rs:273-294 | a state the loop ends in holds the old entries followed by the fragments' Data entries, the counter advanced by their number and their byte count |
| Queue.OutQueue.constructor | src/out_queue.rs:92-113 | an empty, valid queue with the given id, sequence number and local ack; no last ack, the largest peer window, a zero local window and delay, a zero estimator, and a congestion window of one packet |
| Queue.OutQueue.IsEmpty | src/out_queue.rs:117-119 | empty exactly when no entry is queued, so then nothing is in flight or buffered |
| Queue.OutQueue.InFlight | src/out_queue.rs:301-306 | at most the number of entries, and all of them in a valid queue whose entries were all sent |
| Queue.OutQueue.Buffered | src/out_queue.rs:308-313 | zero exactly when every queued payload is empty |
| Queue.OutQueue.Timestamp | src/out_queue.rs:315-317 | the time since creation in whole microseconds, modulo 2^32 |
| Queue.OutQueue.IsWritable | src/out_queue.rs:297-299 | writable exactly when fewer than MAX_WINDOW_SIZE bytes are buffered; an empty queue is writable |
| Queue.OutQueue.CurrentStamp | src/out_queue.rs:218-221 | the stamp is the time since creation in microseconds mod 2^32, the peer's delay, the local ack or 0, and the local window |
| Queue.OutQueue.SocketTimeout | src/out_queue.rs:183-191 | at least 500 ms, rtt + variance above 500, and at most 61 998 ms in a valid queue |
| Queue.OutQueue.SetTheirDelay | src/out_queue.rs:122-125 | the delay is our timestamp minus theirs, wrapping, so their timestamp plus the delay is our timestamp mod 2^32 |
| Queue.OutQueue.SetTheirAck | src/out_queue.rs:127-166 | the queue becomes the old queue without its longest covered prefix; the estimator is the result of retiring that prefix in order, one `RetireOne` step per popped entry; the invariant is kept |
| Queue.OutQueue.SetLocalWindow | src/out_queue.rs:168-171 | the local window becomes the value, which must fit in 32 bits |
| Queue.OutQueue.SetLocalAck | src/out_queue.rs:174-179 | the local ack becomes the value |
| Queue.OutQueue.Push | src/out_queue.rs:194-215 | exactly one never-sent entry holding the numbered packet is appended, the counter advances with wrap-around, and the invariant is kept |
| Queue.OutQueue.Next | src/out_queue.rs:217-258 | the choice is `Choose` of the state; the queue is `StampChosen`, so the chosen entry receives the current stamp and no send count, send time, sequence number or last ack changes; the choice is left pending |
| Queue.OutQueue.PacketOf | src/out_queue.rs:321-326 | the packet is a State packet exactly for a synthesized ack; it is the ack's own packet in that case and the chosen entry's packet otherwise |
| Queue.OutQueue.Sent | src/out_queue.rs:328-338 | an entry choice is committed at `now` and adds one in flight; for both kinds the last ack becomes the local ack |
| Queue.OutQueue.PushFragments | src/out_queue.rs:273-292 | the loop of `write` ends in the state `WriteLoop` describes |
| Queue.OutQueue.Write | src/out_queue.rs:261-295 | empty input writes 0 and changes nothing; with in-flight count at least min(max_window, peer_window) the write would block and changes nothing; otherwise it returns the length of the fragments, appends their Data entries under consecutive numbers and advances the counter by their count |
| Util.SequentialIdentifiers | src/util.rs:6-14 | two consecutive 16-bit identifiers, one of which is the drawn id: (id, id + 1) below 65535 and (65534, 65535) at 65535 |

## Left out

- **Clock.** `Instant::now` and `elapsed` are not modelled: every operation that reads the clock takes `now` as a natural number of nanoseconds.
- **Send times.** Ack processing requires every send time to be at most `now`, because `duration_since` needs that.
- **Identifier draw.** `next_u16` and the `rand` crate are not part of this model. `Util.SequentialIdentifiers` takes the drawn value as a parameter.
- **Packet module.** It is not part of this model: no wire encoding, and no header or packet methods beyond the field updates the queue makes.
  - `HEADER_LEN` is taken as the 20-byte header of BEP 29.
  - `MAX_WINDOW_SIZE` is taken as 1 048 576. Its true value lives in the crate root, which is not part of this model. Only its role as the writability bound and the initial peer window matters.
- **Socket tests.** The end-to-end socket test drives real sockets and threads, so it is not modelled. `Scenarios` holds its own exchanges, not a replay of that test: in the test no bare ack is sent after the peer's State packet, while `AckExchange` sends one, and `HelloWorld` starts from a fresh queue rather than the handshake's.
- **`Next` borrow.** The borrow and lifetime of `Next` become a `Choice` value checked by `Pending`. Aliasing between the cursor and the queue is not modelled.
- Queue.OutQueue.Write: the loop is a separate method, `PushFragments`, specified by `QueueSpec.WriteLoop`. Its body is the source's loop.
- Rtt.AsMicros: the source's unchecked `+=` could panic on overflow in a debug build. The model wraps, as a release build does.
- **Unused code.** `MAX_DATA_SIZE`, `MIN_PACKET_SIZE`, `MIN_DATA_SIZE` and the Nagle TODO add no behaviour, so they are not modelled.
- **`acked` flag.** Nothing ever sets it, so the invariant keeps it false.
- **Congestion window.** Nothing changes `max_window` after construction, so there is no congestion-window growth.
- **`num_sends` width.** The `u32` send count is an unbounded natural, which is harmless because the invariant keeps it at 0 or 1.
- **`State` struct.** The connection state is flattened into fields of the class.
- **`Packet` unused fields.** The version field, and every field the queue does not read or write, are not modelled.
