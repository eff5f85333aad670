# Tornet: a verified model

Tornet is a peer-to-peer overlay. This project models five of its components in Dafny and
proves what they are for.

* **The UDT stream** (`sequence_number`, `miss_list`, `udt_*`). A sliding-window protocol with
  acks, nacks, retransmission, an adaptive window and 16-bit sequence numbers. The handlers are
  written once, over an arithmetic that is either 16-bit circular or unbounded. Two ends and an
  unreliable network form a step relation; safety is proved for every run on unbounded numbers
  (`UdtSafety`), and every run on 16-bit numbers is shown to be the image of such a run
  (`UdtWrapAround`). `UdtTheorems` states the results on 16-bit numbers, `UdtReports` those about loss
  reports, retransmission and the window's size. `UdtChannels` holds the
  channel as an object whose methods are proved to compute those handlers.
* **The CAFS content store** (`cafs*`). Chunks of hashed slices, masked with a seeded keystream;
  files spread over chunks; small files and directories packed into shared chunks whose
  references are filled in after the fact. `CafsTree.Imported` says what it means for a directory
  listing to stand for a tree; `ImportDirectory` is proved to establish it for the whole tree.
* **The Kademlia search** (`kad*`). A work list over XOR distances with the n best results, under
  any interleaving of strands, and to its end for a single strand and for P of them.
* **The connection handshake** (`connection*`). Handlers that call each other when a packet does
  not decode; why that recursion ends, and when it would not; who gets into the table of peers
  (`ConnectionAuth`).
* **The RPC layer** (`rpc_*`). The recursive serializer with its dry run, and the linked list of
  pending promises.

Where the source updates objects in place the model has classes and loops (`UdtChannel`,
`MissList`, `Ordering`, `KadSearch`, `Cafs`, `Connection`, the three streams, `RawRpc`), each
proved against the functions that the theorems are about.

## Premises

* One writer and one reader per channel; each handler runs without interruption, as it does on
  the node thread. Receive windows lie between 1 and 2^15 - 2.
* `RunInReach`: a datagram is only handled while its numbers are less than 2^15 away from the
  numbers they are compared with first; and the numbers a retransmission works through, which
  come from acks and nacks handled before it, are less than 2^15 behind the sender's next number
  when it runs. It is a premise about how old a report may get, not about what the handlers
  compute; ack numbers on packets that wait to be repeated may be of any age.
* SHA-1, the id of a chunk header and the id of a public key are injective and never null; the
  generator is some word stream per seed; `is_random` accepts some later seed for all data.
  Ciphers, key agreement and signatures are uninterpreted; no valid signature comes with the
  all-zero public key.
* For the end of a search, by one strand or by P: a node that answers answers with the id it was
  queued under (`WrongIdsCanLoop` shows the search can run for ever otherwise), and the nodes
  reported are from a finite set.
* `rand()`, key generation and the arrival of packets are arbitrary values.

## Findings

Properties that fail as stated, with the exact condition proved instead:

* `miss_list::size()` subtracts the wrong way round: it counts correctly exactly when every range
  holds one number (`ReportedSizeIsCount`). An ack therefore asks for a retransmission exactly when
  the numbers it reports missing are not twice as many as its ranges (`AckReplacesList`); one that
  reports two lost packets in a row and nothing else asks for none (`TwoInARowAreNotAskedFor`).
* `miss_list::add` keeps only the last number of the added range if that overlaps one held range and
  ends right before the next (`AddExact`, `AddCanSwallow`). What was held before is always kept.
* `sequence::ordering::assign` of a number behind the current one can raise the total order by
  more than the distance; `AssignVersusMonotonic` says when.
* The retransmitter's `exit(1)` is reached exactly when its list names a number below the sender's
  oldest packet (`RetransmitterExitsIff`). That takes no reordering: the retransmission an ack asks
  for is deferred, and `InOrderRunCanExit` is a run over an order-keeping link in which data handled
  in between drops the packet the ack named.
* `import_file` keeps its position in 32 bits and never ends for files of 2^32 bytes or more
  (`ImportEndsIff`).
* A large file imported on its own gets a link whose packed header lacks the last byte
  (`ImportPath`).
* A reused entry keeps the kind its content was first filed under; `ListingReadsBack` says exactly
  when that is the child's own, and in `EmptyFileTakesOtherKind` an empty file is listed as a
  special file.
* The handshake recursion does not end for an undecodable packet if a record without a key is filed
  under the endpoint, or if the endpoint is the null endpoint (`RecursionEndsIff`,
  `KeylessRecordNeverEnds`, `NullEndpointNeverEnds`). No run files such a record (`PacketKeeps`):
  the handlers only store records with a key. `peer::store` would take one, since it only compares
  the hash of the key with the id (src/db/peer.cpp:222-225), so it has to come with the database
  file. A connection to the null endpoint is opened when a peer asks for one
  (src/connection.cpp:406-425), but no packet arrives from there.
* `pack_vec` of a value whose packed form has 2^32 bytes or more fails, or returns an empty buffer if
  the length is a multiple of 2^32; lengths of 2^31 or more pass the bounds checks of the streams
  whether they fit or not (`PackVec`, `Write`, `Read`).
* After 2^16 further calls a reply may complete an older call with the same id
  (`ReplyTakesItsCallIff`); an error reply removes the promise without completing it.

## Model

| member | source | states |
|---|---|---|
| `UdtTheorems.DeliveredIsPrefixOfWritten` | src/udt_channel.cpp:291-645 | For every run of two channels over a network that loses, duplicates and reorders, on 16-bit numbers: the bytes read so far at each end are a prefix of the bytes written at the other. |
| `UdtTheorems.EverythingDeliveredIff` | src/udt_channel.cpp:546-645 | In every such run all written bytes have been read exactly when the writer has nothing left to number and the reader's window starts, on 16-bit numbers, one past the last number given out. |
| `UdtTheorems.WindowsNeverOverrun` | src/udt_channel.cpp:303-317 | In every such run neither "should not happen" branch is taken, no receiver buffers more packets than its window, and every send window stays between 1 and the peer's window through growth and shrinkage. |
| `UdtTheorems.InFlightStaysInWindow` | src/udt_channel.cpp:186-190 | Every data packet in flight, however old, is the image of an unwrapped number between 1 and the end of the receiver's present window; the 16-bit comparison agrees whenever the two are less than 2^15 apart. |
| `UdtTheorems.NothingOutstandingIsForgotten` | src/udt_channel.cpp:427-442 | Every number sent that the receiver has not fully consumed is still in the send window, with its payload. |
| `UdtTheorems.CopiesAreIdentical` | src/udt_channel.cpp:222-238 | Every copy of a data packet in flight, retransmitted or not, equals the datagram that first carried its own unwrapped number, header included. |
| `UdtTheorems.WindowAndMissListPartition` | src/udt_channel.cpp:302-343 | In every arrival order a number between the ends of the receive window is buffered exactly when the 16-bit miss list does not contain it. |
| `UdtTheorems.RepeatedPacketChangesNothing` | src/udt_channel.cpp:326-337 | A packet already consumed, or already buffered (partly read or not), leaves the receiver unchanged and is not answered. |
| `UdtTheorems.DuplicatesChangeNothing` | src/udt_channel.cpp:326-337 | The same on 16-bit numbers at any point of any run: window, miss list and delivered bytes stay as they are. |
| `UdtTheorems.InOrderReportsAreHeld` | src/udt_channel.cpp:356-386 | Over a lossy link that keeps order, once an ack or nack is handled every number it reports missing is in the send window. |
| `UdtTheorems.RunsRepeat` | src/udt_channel.cpp:205-241 | Along every run the send window and everything in flight repeat the first transmissions, number by number. |
| `UdtWrapAround.WrapAroundIsInvisible` | include/tornet/sequence_number.hpp:145-166 | A run on 16-bit numbers is, step by step, the image of the same handlers run on numbers that never wrap, while no number met is half the sequence space away. |
| `UdtSafety.RunsAreGood` | src/udt_channel.cpp:186-645 | Every reachable state satisfies the channel invariant: sender log and window, receiver window and miss list, everything in flight genuine, no window start ahead of the receiver's. |
| `UdtSafety.NextKeeps` | src/udt_channel.cpp:270-287 | Each single step - write, pack, commit, read, ack timer, retransmit, receive, lose, duplicate - keeps that invariant. |
| `UdtSafety.AcceptKeepsReceiving` | src/udt_channel.cpp:302-343 | A data packet extends the receive window, fills a hole or changes nothing; the window stays strictly ascending and complementary to the miss list. |
| `UdtSafety.AdvanceKeepsSending` | src/udt_channel.cpp:427-442 | Dropping acknowledged packets keeps the end of the send window and every packet at or above the reported start. |
| `UdtSafety.FlowDeliversPrefix` | src/udt_channel.cpp:546-579 | Delivered bytes are a prefix of written bytes in every state that satisfies the invariant. |
| `UdtSafety.FlowStaysInWindow` | src/udt_channel.cpp:618-636 | The invariant bounds buffered packets, send window and every number in flight by the receiver's window. |
| `UdtSafety.FlowForgetsNothing` | src/udt_channel.cpp:444-448 | The invariant keeps every unconsumed number in the send window. |
| `UdtInOrder.InOrderRuns` | src/udt_channel.cpp:318-324 | On an order-keeping link the window starts carried by acks and nacks in flight never fall, and none is behind the sender's base. |
| `UdtInOrder.ReportedNumbersAreHeld` | src/udt_channel.cpp:444-467 | After the next ack or nack is handled, all numbers it names are in the send window. |
| `UdtInOrder.RetransmitExitsIff` | src/udt_channel.cpp:222-238 | The retransmitter reaches its exit exactly when some number in its list is not in the send window. |
| `UdtInOrder.RetransmitAfterAckSucceeds` | src/udt_channel.cpp:369-386 | On an order-keeping link a retransmission never reaches the exit if no other datagram is handled between the ack and it. |
| `UdtTheorems.RetransmitterExitsIff` | src/udt_channel.cpp:205-241 | At any point of any run, on 16-bit numbers, the retransmitter that was asked for ends the process exactly when its list names a number below the sender's oldest packet. |
| `UdtExitRun.InOrderRunCanExit` | src/udt_channel.cpp:211-237 | A concrete in-reach run over a link that keeps order, loses two datagrams and repeats none reaches the exit: the ack's retransmission is deferred, and data handled in between drops the packet it names. |
| `UdtChannels.UdtChannel.constructor` | src/udt_channel.cpp:94-165 | A new channel is the initial endpoint of the protocol model. |
| `UdtChannels.UdtChannel.OnReceive` | src/udt_channel.cpp:270-287 | A datagram of any kind is handled as the protocol model's step for it, answers included. |
| `UdtChannels.UdtChannel.HandleData` | src/udt_channel.cpp:291-348 | The in-place handler computes the model's transition on 16-bit numbers: sender advance, window and miss-list update, nack sent. |
| `UdtChannels.UdtChannel.AcceptPacket` | src/udt_channel.cpp:302-343 | In-sequence, ahead, old, duplicate and late packets each leave window, window end and miss list as the invariant proof needs them; only a gap is nacked. |
| `UdtChannels.UdtChannel.InsertPacket` | src/udt_channel.cpp:331-338 | The scan inserts a late packet at its place and reports a duplicate without touching the window. |
| `UdtChannels.UdtChannel.HandleAck` | src/udt_channel.cpp:350-422 | The miss list is replaced, the window grows up to the remote one, an older ack never replaces a newer one, acknowledged packets leave, and an ack2 goes out only if a packet could have been sent before. |
| `UdtChannels.UdtChannel.GrowWindow` | src/udt_channel.cpp:372-379 | The window grows by half plus one in start-up, by one later; in start-up, or if it was not above the remote window, it does not pass it. |
| `UdtSafety.NewerAckIsAhead` | src/udt_channel.cpp:381-382 | An ack that is not older than the one kept carries a window start that is not smaller, so replacing the kept ack never takes back room to send. |
| `UdtChannels.UdtChannel.Advance` | src/udt_channel.cpp:427-432 | The loop removes exactly the leading packets below the reported window start. |
| `UdtChannels.UdtChannel.HandleNack` | src/udt_channel.cpp:444-468 | Advance, one shrink per ack period with a floor of 1, the nacked range added to the list as it stands, and a retransmission asked for. |
| `UdtChannels.UdtChannel.Find` | src/udt_channel.cpp:225-227 | The scan returns the first packet with the number, or the end of the window. |
| `UdtChannels.UdtChannel.ResendPacket` | src/udt_channel.cpp:230-233 | A packet is resent only if it is due, and its resend mark is advanced. |
| `UdtChannels.UdtChannel.RunRetransmit` | src/udt_channel.cpp:218-240 | Every number popped is looked up and its packet resent if due, in order; the loop gives up at the first number that is not in the window. |
| `UdtChannels.UdtChannel.OnSyn` | src/udt_channel.cpp:505-517 | The ack timer sends one ack with the next ack number. |
| `UdtChannels.UdtChannel.ReadFront` | src/udt_channel.cpp:564-575 | One turn of the read loop copies from the front packet and frees its number only when it is used up. |
| `UdtChannels.UdtChannel.Read` | src/udt_channel.cpp:546-579 | The read loop takes bytes in order up to the length asked or the end of what is available. |
| `UdtChannels.UdtChannel.Write` | src/udt_channel.cpp:597-642 | The write loop cuts the buffer into packets of at most 1200 bytes and sends while the window allows. |
| `UdtChannels.ReadTakesAll` | src/udt_channel.cpp:554-576 | A read takes exactly what follows without a gap from the window start, up to the length asked. |
| `UdtChannels.WriteSendsAll` | src/udt_channel.cpp:597-642 | What a write has sent, the packet that waits and what is not packed yet together are what there was to send; it stops only when all is sent or the window has no room. |
| `UdtReports.NackIsRemembered` | src/udt_channel.cpp:444-467 | Over every run, on 16-bit numbers: after a nack the list holds exactly what it held before and the nacked range - only its last number in the one case of AddExact - and a retransmission is on its way. |
| `UdtReports.AckReplacesList` | src/udt_channel.cpp:350-369 | Over every run: after an ack the list is the ack's, and the ack has asked for a retransmission exactly when the numbers it reports missing are not twice as many as its ranges. |
| `UdtReports.TwoInARowAreNotAskedFor` | src/udt_channel.cpp:369-370 | An ack that reports two lost packets in a row and nothing else asks for no retransmission. |
| `UdtReports.ReportedIsResent` | src/udt_channel.cpp:205-240 | Over every run, on 16-bit numbers: a retransmission puts in flight exactly the frames of the listed numbers that are due, in list order, each once, up to the first number that is not in the window. |
| `UdtReports.RetransmitSendsDueFrames` | src/udt_channel.cpp:222-238 | The same for any sender state that satisfies the invariant. |
| `UdtReports.EveryDueNumberIsResent` | src/udt_channel.cpp:222-238 | Every listed number that is due goes out, unless the retransmitter ends the process. |
| `UdtReports.FirstReportIsDue` | src/udt_channel.cpp:603-603 | A packet is due at its first report. |
| `UdtReports.ResentIsDueAfterFour` | src/udt_channel.cpp:230-231 | After that exactly when the acks have moved on by four. |
| `UdtReports.GrowthRate` | src/udt_channel.cpp:372-379 | Growth by half and one, rounded down, in start-up, by one later, never past the remote window. |
| `UdtReports.AckGrowsWindow` | src/udt_channel.cpp:371-379 | An ack sets the remote window and grows the own one at that rate. |
| `UdtReports.ShrinkRate` | src/udt_channel.cpp:459-464 | A nack takes off a quarter in start-up and a tenth later, and leaves at least one. |
| `UdtReports.OneShrinkPerAck` | src/udt_channel.cpp:456-465 | Only the first nack after an ack shrinks the window, and ends start-up. |
| `UdtReports.NewestAckIsKept` | src/udt_channel.cpp:381-382 | Over every run the ack kept is the newer of the two, by unwrapped ack number, and its window start is the larger. |
| `UdtReports.GapIsNacked` | src/udt_channel.cpp:311-325 | A nack goes out exactly for a packet past a gap and names exactly the numbers newly missing. |
| `UdtReports.AckReportsWindow` | src/udt_channel.cpp:505-517 | Over every run, on 16-bit numbers: the ack timer puts one ack in flight, with the next ack number, the window as it is and the first 128 missing ranges. |
| `UdtReports.AckIsEchoed` | src/udt_channel.cpp:403-421 | Over every run: an ack is answered, exactly if there was room to send before it, with an ack2 that echoes its number and names the last number given out. |
| `UdtReports.PacketsAreFull` | src/udt_channel.cpp:597-608 | A packet takes the next 1200 bytes of a write, or all that is left, and the next number. |
| `UdtReports.RoomToSend` | src/udt_channel.cpp:186-190 | There is room exactly while the numbers from the reported start on are no more than the window, on 16-bit numbers too. |
| `UdtWire.MoveStartDrops` | src/buffer.cpp:54-78 | Moving the start of a view drops that many bytes, and a sub-view with the negative offset gives the view back. |
| `UdtWire.ViewsNeverGrow` | src/buffer.cpp:66-78 | Moving past the end leaves an empty view; a resize succeeds exactly when it does not grow the view, and cuts it. |
| `UdtWire.FillPacket` | src/udt_channel.cpp:598-614 | The packet buffer holds header and payload, and the payload view widened by 5 bytes is the whole packet again. |
| `UdtWire.NumbersRoundTrip` | include/tornet/sequence_number.hpp:97-106 | Sequence numbers written to the wire read back, leaving what follows. |
| `UdtWire.MissListRoundTrip` | include/tornet/miss_list.hpp:20-47 | A miss list reads back as its first 128 ranges. |
| `UdtWire.AckRoundTrip` | src/udt_channel.cpp:34-67 | An ack reads back as sent, its miss list cut to 128 ranges. |
| `UdtWire.WireRoundTrip` | src/udt_channel.cpp:270-287 | Every datagram decodes to itself (miss lists cut to 128 ranges). |
| `UdtWire.DataLayout` | src/udt_channel.cpp:598-614 | A data packet byte by byte: kind 0, window start and number with the low byte first, payload. |
| `UdtWire.NackLayout` | src/udt_channel.cpp:69-92 | A nack byte by byte. |
| `UdtWire.AckLayout` | src/udt_channel.cpp:34-67 | An ack and an ack2 byte by byte: kind, start, size, end and ack number, time, count of ranges and their ends. |
| `UdtWire.WriteMissList` | include/tornet/miss_list.hpp:20-32 | The serialization loop writes the length byte and the ranges. |
| `MissLists.RemoveRefinesDifference` | src/miss_list.cpp:52-74 | On sorted disjoint ranges inside half the sequence space, remove is set difference, range splitting included. |
| `MissLists.AppendRefinesUnion` | src/miss_list.cpp:8-30 | Adding a range past all held ones is exact union. |
| `MissLists.AddExact` | src/miss_list.cpp:8-30 | Adding to any list keeps every held number and adds the whole range, except that only its last number joins when it overlaps one range and ends right before the next. |
| `MissLists.AddCanSwallow` | src/miss_list.cpp:21-24 | An example: with 3..6 and 9 held, adding 5..8 forgets 7. |
| `MissLists.AppendSwallowsNothing` | src/miss_list.cpp:8-30 | A range past all held ones is never cut short. |
| `MissLists.RestRefinesLeast` | src/miss_list.cpp:41-50 | pop_front takes off the least held number and nothing else. |
| `MissLists.ContainsIsHeld` | src/miss_list.cpp:76-85 | contains is membership in the set the list stands for. |
| `MissLists.AddIntroducesNothing` | src/miss_list.cpp:8-30 | For any list whatever, add never introduces a number outside the held set and the added range. |
| `MissLists.ReportedSizeIsCount` | src/miss_list.cpp:32-40 | size() never exceeds the number of held numbers, and equals it exactly when every range is a single number. |
| `MissLists.RemoveExact` | src/miss_list.cpp:52-74 | Remove on unwrapped numbers: exactly one number leaves and the list stays sorted and disjoint. |
| `MissLists.AppendExact` | src/miss_list.cpp:8-30 | Append on unwrapped numbers: exactly the added range joins and the list stays sorted and disjoint. |
| `MissLists.RestExact` | src/miss_list.cpp:41-50 | Pop on unwrapped numbers: exactly the first number leaves. |
| `MissLists.MissList.AddRange` | src/miss_list.cpp:8-30 | The loop extends, appends or inserts in place: the Add of the set lemmas above. |
| `MissLists.MissList.CutRange` | src/miss_list.cpp:56-67 | One range is erased, trimmed or split in place. |
| `MissLists.MissList.RemoveNumber` | src/miss_list.cpp:52-74 | The loop erases, trims or splits in place: the Remove of the set lemmas above. |
| `MissLists.MissList.PopFront` | src/miss_list.cpp:41-50 | False exactly on the empty list; otherwise the first number, taken off. |
| `MissLists.MissList.ContainsNumber` | src/miss_list.cpp:76-85 | The scan decides membership. |
| `MissLists.MissList.Clear` | src/miss_list.cpp:6-6 | The list is empty afterwards. |
| `SequenceNumbers.CircularOrder` | include/tornet/sequence_number.hpp:145-166 | For integers less than 2^15 apart, distance and all comparisons on their 16-bit images agree with integer order (compare section 3.2 of RFC 1982). |
| `SequenceNumbers.HalfwayIsAmbiguous` | include/tornet/sequence_number.hpp:115-120 | The bound is sharp: 2^15 apart, each number claims to be greater than the other. |
| `SequenceNumbers.WrapPlus` | include/tornet/sequence_number.hpp:148-153 | Arithmetic on 16-bit numbers commutes with wrapping. |
| `SequenceNumbers.OrderIsNearest` | include/tornet/sequence_number.hpp:258-378 | order() is the one number nearest the total order with the given 16-bit image, and the monotonic order the first one not behind it. |
| `SequenceNumbers.TotalOrderNeverDecreases` | include/tornet/sequence_number.hpp:270-298 | Over every run of assign and ++ the total order never decreases and stays congruent to the number when started so. |
| `SequenceNumbers.ForwardAssignMovesByDistance` | include/tornet/sequence_number.hpp:258-289 | A number 0 to 2^15-1 ahead moves the total order by exactly its distance. |
| `SequenceNumbers.AssignVersusMonotonic` | include/tornet/sequence_number.hpp:270-289 | For a number behind, when assign agrees with the monotonic order and when it does not: exactly. |
| `SequenceNumbers.Ordering.Assign` | include/tornet/sequence_number.hpp:270-289 | The object's assignment is the model's and never lowers the total order. |
| `SequenceNumbers.Ordering.Increment` | include/tornet/sequence_number.hpp:293-298 | The increment raises the total order by exactly one. |
| `CafsKeystream.MaskTwice` | cafs/cafs.cpp:523-596 | Masking with one seed twice gives the data back. |
| `CafsKeystream.UnmaskPart` | cafs/cafs.cpp:577-596 | Unmasking a part at its own offset gives that part of the original, for every alignment to the 4-byte words. |
| `CafsKeystream.MaskPart` | cafs/cafs.cpp:577-596 | Masking a part at its offset is the part of the whole masked. |
| `CafsKeystream.MaskAt` | cafs/cafs.cpp:534-545 | Byte i is XORed with byte (offset + i) % 4 of word (offset + i) / 4 of the keystream. |
| `CafsKeystream.MaskZeros` | cafs/cafs.cpp:534-545 | Masking zeros shows the bare keystream. |
| `CafsKeystream.MaskDifference` | cafs/cafs.cpp:586-594 | Two masked data differ bit by bit exactly where the data do. |
| `CafsKeystream.Randomize` | cafs/cafs.cpp:523-550 | The retry loop returns the first accepted seed after the given one, and byte i of its result is byte i of the data XORed with byte i of that seed's keystream. |
| `CafsKeystream.MaskCopy` | cafs/cafs.cpp:526-546 | One attempt: whole words, then the shorter last step, is the byte-wise mask. |
| `CafsKeystream.Derandomize` | cafs/cafs.cpp:577-596 | The in-place word loop from any offset: byte i is XORed with the keystream byte at offset + i. |
| `CafsChunks.SlicesDetermineData` | cafs/cafs.cpp:97-108 | Two data with the same slice list are equal. |
| `CafsChunks.SliceChunk` | cafs/cafs.cpp:97-108 | The loop yields 64K slices with their hashes, the last one shorter. |
| `CafsChunks.IntactReads` | cafs/cafs.cpp:324-377 | Reading any range of an intact chunk gives exactly the bytes of that range that exist. |
| `CafsChunks.ReadsAreGenuine` | cafs/cafs.cpp:349-371 | Whatever happened to the stored bytes, a read that succeeds returns the bytes the header was made from. |
| `CafsChunks.ReadSucceedsIff` | cafs/cafs.cpp:349-371 | A read of a non-empty range succeeds exactly when every slice it touches is intact. |
| `CafsChunks.RandomAccess` | cafs/cafs.cpp:654-689 | Reading a range and unmasking it at its offset is the range of the whole chunk unmasked. |
| `CafsChunks.WholeRead` | cafs/cafs.cpp:336-338 | Without a size the whole chunk is read. |
| `CafsChunks.ReadSlices` | cafs/cafs.cpp:348-372 | The loop with its moving positions copies what the recursive definition says, error included. |
| `CafsChunks.ReadChunk` | cafs/cafs.cpp:324-382 | Missing chunk and bad slice fail; otherwise the length asked, zero filled past the end. |
| `CafsStore.ExportReturnsFile` | cafs/cafs.cpp:309-313 | Exporting the header of an imported file reproduces the file. |
| `CafsStore.ExportAssembles` | cafs/cafs.cpp:309-313 | Over an intact store the export succeeds exactly when all chunks are stored, with their concatenation. |
| `CafsStore.ImportEndsIff` | cafs/cafs.cpp:176-198 | import_file's 32-bit position reaches the end of the file exactly for files shorter than 2^32 bytes. |
| `CafsStore.ResourceOfHeld` | cafs/cafs.cpp:654-689 | A reference to bytes held in a chunk resolves to its kind byte followed by exactly those bytes. |
| `CafsStore.AssembledGrows` | cafs/cafs.cpp:214-232 | Storing more chunks changes no file already stored. |
| `CafsTree.ListingReadsBack` | cafs/cafs.cpp:420-484 | When everything that was packed is smaller than a chunk: entry i has child i's name and reads back as a kind byte and the bytes packed for child i, through rollovers and reused references, nested directories and large files recursively so. For a content not in the file index at its lookup the kind byte is 0 for a file of at most 1048576 bytes, 2 for a larger one, 1 for a directory whose name does not start with a dot and 3 otherwise; its kind is the child's own exactly then, or if it was filed under that kind. |
| `CafsTree.TreeReadsBack` | cafs/cafs.cpp:420-484 | When everything packed at every depth is smaller than a chunk, the whole tree reads back: names, kind bytes as literal values at every depth, bytes, listings in listings, and large files through export of their headers. |
| `CafsTree.ImportedShape` | cafs/cafs.cpp:464-473 | No child is missing exactly when no new content fills a whole chunk of 4194304 bytes. |
| `CafsTree.NewContentSaysKind` | cafs/cafs.cpp:438-452 | An entry for a content that was new reads back with the kind byte of its file, large file, directory or special file, as a literal value. |
| `CafsTree.LookedUpAtFirst` | cafs/cafs.cpp:456-456 | Without subdirectories every lookup sees the file index as it was before the import. |
| `CafsTree.EmptyFileTakesOtherKind` | cafs/cafs.cpp:458-462 | An empty file beside a special file, imported twice: the second time the file is listed under the special file's kind. |
| `CafsTree.ListedReadsBack` | cafs/cafs.cpp:654-689 | Non-empty items always resolve; an empty one resolves exactly when its reference was given a chunk. |
| `CafsTree.ImportedAt` | cafs/cafs.cpp:420-484 | In a listing as long as the directory, entry i stands for child i as packed and looked up. |
| `CafsTree.ImportedPatched` | cafs/cafs.cpp:404-415 | Saving the chunk being filled turns every reference still waiting into one that resolves, and touches no other. |
| `CafsTree.ImportedGrows` | cafs/cafs.cpp:214-232 | What a listing stands for survives every later growth of the store and the buffer. |
| `CafsTree.ImportedBacked` | cafs/cafs.cpp:480-482 | Every reference of a finished listing resolves, so it may be filed. |
| `CafsTree.KnownIsListed` | cafs/cafs.cpp:455-462 | A reference found in the file index serves for any node with that content, under the kind it was filed with. |
| `CafsImport.Cafs.StoreChunk` | cafs/cafs.cpp:214-232 | The chunk is filed under the id of its header; a chunk already there is left alone. |
| `CafsImport.Cafs.ImportFile` | cafs/cafs.cpp:176-198 | For every file shorter than 2^32 bytes the header's chunks spell the file, although the last chunk is masked at full length and then cut; all chunks but the last hold 4194304 bytes; nothing stored changes. |
| `CafsImport.Cafs.ImportPart` | cafs/cafs.cpp:186-192 | One turn: the stored part unmasks to the part read, leftovers in the buffer notwithstanding, with the first accepted seed after the one taken from the hash. |
| `CafsImport.Cafs.ExportFile` | cafs/cafs.cpp:309-313 | The loop over the header's chunks, failing at the first chunk that cannot be read. |
| `CafsImport.Cafs.GetResource` | cafs/cafs.cpp:654-689 | Range read, unmasked at its position, after the kind byte. |
| `CafsImport.Cafs.AddToChunk` | cafs/cafs.cpp:384-402 | The item is appended and listed exactly when strictly more room than its size remains. |
| `CafsImport.Cafs.SaveChunk` | cafs/cafs.cpp:404-415 | After saving, every entry packed so far resolves in the store. |
| `CafsImport.Cafs.PatchEntries` | cafs/cafs.cpp:409-414 | Exactly the entries without a chunk get the saved chunk and its seed. |
| `CafsImport.Cafs.AddItem` | cafs/cafs.cpp:455-473 | Reuse, pack, or roll over to a fresh chunk: the listing then stands for one child more; a child is left out only if its content is new and fills a whole chunk; a known content changes neither store nor buffer, a new one that leaves room goes behind what is in the buffer, and one that does not starts the next buffer. |
| `CafsImport.Cafs.MakeItem` | cafs/cafs.cpp:438-452 | The bytes to pack: a small file's own, a large file's packed header, a directory's packed listing, otherwise nothing. |
| `CafsImport.Cafs.ImportDirectory` | cafs/cafs.cpp:420-484 | The listing stands for the whole tree below, as the returned trace of packed bytes and lookups says; the file index afterwards is exactly that of the last lookup plus the listing's references; store and index only grow and stay sound. |
| `CafsImport.Cafs.RecordRefs` | cafs/cafs_file_db.cpp:69-101 | References are filed by content; the first one filed for a content stays. |
| `CafsImport.Cafs.ImportPath` | cafs/cafs.cpp:111-165 | The link leads to a chunk of kind byte (0, 1) and content for small files and directories; for a large file the packed header after kind byte 2 lacks its last byte; too large a record fails. |
| `CafsImport.Cafs.GetLinked` | cafs/cafs.cpp:690-699 | A link to a chunk that holds data reads back as that data. |
| `Kademlia.ResultsAreClosest` | net/kad.cpp:69-78 | Under any interleaving of P strands the results are the n closest of all nodes that answered and passed the filter. |
| `Kademlia.SearchOnlyImproves` | net/kad.cpp:57-123 | From start to any later point: once full, the worst result never gets farther, and a found target stays the first result. |
| `Kademlia.SearchSettlesEverything` | net/kad.cpp:57-123 | When a one-strand search ends, every node ever reported is a result, failed its last attempt, or is no closer than the worst of a full result set; it is done exactly if the target answered, and ends early only then. |
| `Kademlia.TargetEndsSearch` | net/kad.cpp:76-81 | The answer of the target ends the search in that turn: no reply is merged, no node is popped after it, and the target is the first result. |
| `Kademlia.PopTakesClosest` | net/kad.cpp:60-62 | A turn takes exactly one node out of the queue, the closest. |
| `KademliaStrands.TargetAnswerEnds` | net/kad.cpp:76-81 | The strand to which the target answers leaves with the search done. |
| `KademliaStrands.EndedStaysEnded` | net/kad.cpp:57-62 | Once done or canceled, whatever the other strands still do, no strand ever pops another node. |
| `KademliaStrands.MovesAreBounded` | net/kad.cpp:22-123 | However P strands interleave, fail and reply, a search makes no more moves than a bound in the number of nodes and strands. |
| `KademliaStrands.StrandsSettleEverything` | net/kad.cpp:57-123 | When all P strands have left an uncanceled search, the queue is empty and every node ever reported is a result, failed its last attempt, or is no closer than the worst of a full result set; or the target is the first result. If the target has answered the search is done or canceled. |
| `KademliaStrands.MoveNearer` | net/kad.cpp:59-122 | Every move brings the end nearer: a node found for the first time, or a reply fewer to hear, or less to do; concurrent attempts at one node included. |
| `KademliaStrands.SomeMoveIsLeft` | net/kad.cpp:59-122 | While a strand is left it has a move to make, so bounded moves mean that all strands leave. |
| `KademliaStrands.RunKeeps` | net/kad.cpp:57-123 | Every interleaving keeps each reported node settled or in the hands of a strand, and some strand present while there is work. |
| `Kademlia.TurnKeeps` | net/kad.cpp:59-122 | Every turn finds a node for the first time or shortens the queue, and keeps the invariant; found nodes are never queued again. |
| `Kademlia.WrongIdsCanLoop` | net/kad.cpp:65-74 | If an endpoint may answer with another node's id, a turn can lead back to the state it started from. |
| `Kademlia.RecordKeepsBest` | src/kad.cpp:98-101 | Inserting a node and erasing the last keeps the n closest. |
| `Kademlia.ClosestIsUnique` | net/kad.cpp:71-74 | There is only one set of n closest nodes. |
| `Kademlia.ClosestAfterInsert` | net/kad.cpp:71-74 | The n closest after one more node: insert it and drop the farthest if there are too many. |
| `Kademlia.WorstNeverGrows` | net/kad.cpp:71-74 | A full result set only gets closer as more nodes are found. |
| `Kademlia.FoundTargetIsFirst` | net/kad.cpp:71-78 | A found target is a result, and the first one. |
| `Kademlia.XorInverts` | net/kad.cpp:61-61 | XOR with the target undoes itself, so a queued distance names its node. |
| `Kademlia.DistanceIsInjective` | net/kad.cpp:71-71 | Two nodes at the same distance are the same node. |
| `Kademlia.KadSearch.Start` | net/kad.cpp:22-31 | Results cleared, queue filled with the local nodes near the target, status searching. |
| `Kademlia.KadSearch.RecordNode` | net/kad.cpp:71-78 | Insert, erase the last if too many, done if it is the target; TargetEndsSearch and StrandsSettleEverything say what follows from the last. |
| `Kademlia.KadSearch.MergeReply` | net/kad.cpp:101-117 | The loop queues exactly the reported nodes that are no results and closer than the worst of a full set. |
| `Kademlia.KadSearch.TakeTurn` | net/kad.cpp:59-122 | One turn of the loop with any outcome of connect, filter and reply. |
| `Kademlia.KadSearch.RunTurn` | net/kad.cpp:59-122 | One turn makes progress and leaves the end of the search the same. |
| `Kademlia.KadSearch.SearchThread` | net/kad.cpp:57-123 | The loop ends for every pattern of failures and replies, in the state the specification names. |
| `Connections.RecursionEnds` | src/connection.cpp:150-181 | handle_uninit and handle_connected stop calling each other for every packet, after at most one round per record filed under the endpoint and one more. |
| `Connections.RecursionEndsIff` | src/connection.cpp:243-265 | For a packet that none of the keys tried on it decodes, each on the bytes the one before left, the recursion ends exactly when the endpoint is a real one and all records under it have a key, or there are none. |
| `Connections.OddSizesAreUndecodable` | src/connection.cpp:246-246 | A packet that is not a whole number of 8-byte blocks is such a packet. |
| `Connections.KeylessRecordNeverEnds` | src/connection.cpp:250-259 | With one stored record without a key under the endpoint, a one-byte packet is passed back and forth for ever. |
| `Connections.NullEndpointNeverEnds` | src/connection.cpp:250-259 | So it is on a connection to the null endpoint, under which every given-up record is filed. |
| `Connections.RoundFails` | src/connection.cpp:243-265 | A round on an undecoded packet gives up exactly the record it took up and leaves the bytes decrypted once more. |
| `Connections.RoundClears` | src/connection.cpp:250-259 | Each failed round clears the record it took up, so one record fewer is filed under the endpoint; no other record changes. |
| `Connections.RoundAgain` | src/connection.cpp:243-265 | What a failed round does to the table in every case, records without a key included. |
| `Connections.UndecodedStartsOver` | src/connection.cpp:150-181 | After a packet that no record under the endpoint decodes: each of them has lost endpoint and key, all others are unchanged, the state is received_dh or generated_dh by the size of the packet, and the key exchange is a new one. |
| `Connections.HandleUninitIsRounds` | src/connection.cpp:150-181 | The recursive handler returns where the rounds settle. |
| `ConnectionRuns.PacketKeeps` | src/connection.cpp:132-142 | In every state every packet is handled to the end, cipher and key exchange exist in the states that use them, and no peer is lost. |
| `ConnectionRuns.KeysArePermanent` | src/db/peer.cpp:215-245 | Over every run of packets a filed public key never changes and never disappears. |
| `ConnectionRuns.Run` | src/connection.cpp:132-142 | The invariant holds after any sequence of packets. |
| `ConnectionRuns.ReceiveKeeps` | src/connection.cpp:444-475 | Every decoded message keeps the invariant; a handler can only trip over an auth message without a key exchange or a rank update from a peer that never authenticated. |
| `ConnectionRuns.ResetKeeps` | src/connection.cpp:304-315 | reset keeps the invariant and loses no record. |
| `ConnectionAuth.NewPeersAreGenuine` | src/connection.cpp:592-680 | Over every run of packets: an id that is new in the table is the id of a key for which some arrival, in the state it was handled in, decoded to an auth message with a valid signature. |
| `ConnectionAuth.ForgedIsRefused` | src/connection.cpp:612-616 | An auth message whose signature does not verify is refused and changes neither table nor connection. |
| `ConnectionAuth.GenuineIsFiled` | src/connection.cpp:635-665 | A genuine one files the peer under the id of its key, field by field: the agreed cipher key, this endpoint, the rank, connected; nobody else's record changes. |
| `ConnectionAuth.ConnectedOnlyBy` | src/connection.cpp:444-475 | Only a genuine signature or an accepting response makes a connection connected. |
| `ConnectionAuth.ResponseCounts` | src/connection.cpp:266-276 | An accepting response keeps the published rank and connects, a refusing one resets. |
| `ConnectionAuth.ResetMarks` | src/connection.cpp:298-315 | Closing, being refused, or data before its time: uninit, and an authenticated peer is filed as not connected with everything else kept. |
| `ConnectionAuth.RankOnlyRises` | src/connection.cpp:278-296 | A rank update only raises the rank, files it as it rises, and is refused when too short. |
| `ConnectionAuth.KeyIsAgreed` | src/connection.cpp:187-210 | In both states that wait for a public key, one makes the agreed key cipher and record key and leads to received_dh. |
| `ConnectionAuth.MalformedIsIgnored` | src/connection.cpp:187-240 | Any other packet in generated_dh, and a malformed one in received_dh or authenticated, changes nothing. |
| `ConnectionAuth.UnknownStartsExchange` | src/connection.cpp:166-180 | With nobody filed under the endpoint a key exchange starts from a fresh secret; a public key is answered at once. |
| `ConnectionAuth.RevivedFromRecord` | src/connection.cpp:151-160 | A known peer is revived with the record and the cipher key on file, and no other record changes. |
| `ConnectionAuth.PacketStartsOver` | src/connection.cpp:201-265 | In every state that tries packets, one that neither the key in use nor any key filed under the endpoint decodes clears every record under the endpoint, leaves all others, and starts a new key exchange. |
| `ConnectionObjects.OpenedIsWired` | src/connection.cpp:67-87 | What a new connection starts as, field by field, for a known and an unknown endpoint; it satisfies the invariant. |
| `ConnectionObjects.Connection.constructor` | src/connection.cpp:67-87 | A connection to a known endpoint starts connected with the stored key, any other uninitialised; over a table of keyed records it satisfies the invariant. |
| `ConnectionObjects.Connection.HandlePacket` | src/connection.cpp:132-142 | Terminates in every state and does what the specification says. |
| `ConnectionObjects.Connection.HandleUninit` | src/connection.cpp:150-181 | The mutually recursive handler ends, by the number of records under the endpoint. |
| `ConnectionObjects.Connection.HandleConnected` | src/connection.cpp:243-265 | Decode, or give the record up and start over. |
| `ConnectionObjects.Connection.HandleGeneratedDh` | src/connection.cpp:187-199 | A public key moves on to received_dh; anything else only resends ours. |
| `ConnectionObjects.Connection.HandleReceivedDh` | src/connection.cpp:201-223 | Key, decodable message, undecodable message (start over), malformed packet (ignored). |
| `ConnectionObjects.Connection.HandleAuthenticated` | src/connection.cpp:225-240 | As connected, but a reset instead of giving the record up. |
| `ConnectionObjects.Connection.DecodePacket` | src/connection.cpp:444-475 | Checksum and the message handlers, false sending the packet back to the start. |
| `ConnectionObjects.Connection.HandleAuthMsg` | src/connection.cpp:592-680 | A signature that does not verify is refused and changes nothing; a genuine one files the peer under the id of its key: this endpoint, the agreed cipher key, the rank, connected. |
| `ConnectionObjects.Connection.Reset` | src/connection.cpp:304-315 | A valid record is stored as not connected; the state is uninit. |
| `ConnectionObjects.Connection.ProcessDh` | src/connection.cpp:792-806 | The shared key becomes the cipher key and the record's key. |
| `ConnectionObjects.Connection.StorePeer` | src/db/peer.cpp:215-245 | A record is stored only under the id of its public key. |
| `RpcValues.RoundTrip` | rpc/raw.hpp:72-384 | For every nested value and every suffix, unpacking the packed value gives the value back and leaves the suffix. |
| `RpcValues.VarintRoundTrip` | rpc/raw.hpp:72-138 | Every 32-bit varint reads back, from any group on. |
| `RpcValues.FixedRoundTrip` | rpc/raw.hpp:232-243 | Fixed-width integers read back. |
| `RpcValues.InsertAscending` | rpc/raw.hpp:295-315 | Inserting the elements of a set in its own order rebuilds the set. |
| `RpcValues.AssignAscending` | rpc/raw.hpp:355-375 | Assigning the entries of a map in key order rebuilds the map. |
| `RpcValues.ManyRoundTrip` | rpc/raw.hpp:317-339 | A run of elements reads back element by element. |
| `RpcValues.TruncatedNeverReads` | rpc/raw.hpp:72-384 | No packed value reads as a value when its end is missing, at any cut and for any nested type. |
| `RpcValues.PackedFormsAreApart` | rpc/raw.hpp:72-384 | No packed value is a prefix of another of the same type, so two values never share a packed form. |
| `RpcValues.UnpackExtends` | rpc/raw.hpp:130-384 | Whatever reads as a value reads as the same value when more bytes follow, and leaves those. |
| `RpcValues.LengthDecides` | rpc/raw.hpp:144-149 | Of a length and the bytes there are: enough are taken; too few throw below 2^31 and are undefined from there on. |
| `RpcValues.AnyFlagCounts` | rpc/raw.hpp:139-159 | Any byte but zero is true, or says that an optional value follows. |
| `RpcValues.VarintMeaning` | rpc/raw.hpp:72-80 | A varint is its groups of seven bits, lowest first, with the top bit on all bytes but the last, and no idle last group. |
| `RpcValues.FixedByteAt` | rpc/raw.hpp:232-243 | Byte i of a fixed-width integer is its i-th lowest. |
| `RpcValues.PackedExample` | rpc/raw.hpp:72-384 | The bytes of a small map and of a pair, spelled out. |
| `RpcValues.InsertedIsSet` | rpc/raw.hpp:295-315 | Whatever the order and repetitions of the input, a set unpacks to its distinct elements in order. |
| `RpcValues.AssignedIsMap` | rpc/raw.hpp:355-375 | Whatever the order and repetitions of the input, a map unpacks to one entry per key, in order, the last assignment to a key counting. |
| `RpcStreams.SizeStream.PackValue` | rpc/datastream.hpp:90-117 | The dry run counts exactly the bytes of the packed form, in 32 bits. |
| `RpcStreams.OutStream.PackValue` | rpc/raw.hpp:72-384 | Writing into a buffer succeeds exactly when the packed form fits and then appends exactly that; otherwise an exception, or undefined behaviour only for 2^31 bytes or more. |
| `RpcStreams.OutStream.Put` | rpc/datastream.hpp:57-65 | One byte more, or failure with nothing written. |
| `RpcStreams.OutStream.Write` | rpc/datastream.hpp:47-55 | Bytes that fit are appended and nothing behind them changes; fewer than 2^31 that do not fit throw and write nothing; 2^31 or more that do not fit pass the signed comparison. |
| `RpcStreams.OutStream.PutVarint` | rpc/raw.hpp:72-80 | The loop appends the varint. |
| `RpcStreams.InStream.Get` | rpc/datastream.hpp:67-77 | The next byte, or failure at the end. |
| `RpcStreams.InStream.Read` | rpc/datastream.hpp:37-45 | The next bytes; an exception when fewer are left, unless the length is 2^31 or more, which passes the signed comparison. |
| `RpcStreams.InStream.GetVarint` | rpc/raw.hpp:130-138 | The group loop returns the varint at the front; the end of the buffer throws, a sixth group is shifted past the word. |
| `RpcValues.VarintBound` | rpc/raw.hpp:130-138 | A varint that reads at all fits in 32 bits. |
| `RpcStreams.InStream.UnpackValue` | rpc/raw.hpp:130-384 | Returns the value and leaves the rest, throws, or is undefined, each exactly when the specification says. |
| `RpcStreams.InStream.UnpackItems` | rpc/raw.hpp:328-339 | Length, then that many elements. |
| `RpcStreams.PackVec` | rpc/raw.hpp:390-399 | For every packed form shorter than 2^32 bytes the dry run sizes the buffer and the second pass fills it to the last byte; from 2^32 on the size has wrapped and the second pass cannot succeed, unless the size has become 0 and the result is silently empty. |
| `RpcStreams.UnpackVec` | rpc/raw.hpp:401-407 | An empty buffer leaves the target as it was; any other is unpacked. |
| `RpcStreams.VecRoundTrip` | rpc/raw.hpp:390-407 | What pack_vec writes, unpack reads back, using all of it. |
| `RpcPending.RunsBalance` | src/raw_rpc.cpp:26-124 | Over every run of invoke, result, error and teardown: pending calls stand in call order with the ids they were given, and every call issued is pending once or gone once, never both, never twice. |
| `RpcPending.FatesAreExplained` | src/raw_rpc.cpp:26-124 | Over every run a call is answered, refused or canceled only by a result or an error with its own id, or by the teardown. |
| `RpcPending.ReplyTakesOldest` | src/raw_rpc.cpp:26-46 | A reply with a pending id removes exactly one call, the oldest with that id. |
| `RpcPending.ReplyTakesItsCallIff` | include/tornet/raw_rpc.hpp:90-102 | A reply takes the call it answers exactly when no older pending call was issued a multiple of 2^16 calls before it. |
| `RpcPending.RecentRepliesMatch` | include/tornet/raw_rpc.hpp:90-102 | While no pending call is 2^16 calls old, every reply takes its own call. |
| `RpcPending.Oldest` | src/raw_rpc.cpp:29-30 | The first pending call with the id, or none. |
| `RpcPendingLists.ChainHasNoLoop` | src/raw_rpc.cpp:26-46 | A chain whose last promise has no successor meets no promise twice. |
| `RpcPendingLists.RawRpc.constructor` | src/raw_rpc.cpp:67-72 | Both ends null, nothing pending. |
| `RpcPendingLists.RawRpc.Invoke` | include/tornet/raw_rpc.hpp:90-102 | The next 16-bit id and a new promise at the end of the list. |
| `RpcPendingLists.RawRpc.Enqueue` | src/raw_rpc.cpp:74-84 | The promise is linked behind the tail; head, tail and links spell the longer list. |
| `RpcPendingLists.RawRpc.Search` | src/raw_rpc.cpp:27-42 | The walk stops at the first promise with the id, remembering the one before it. |
| `RpcPendingLists.RawRpc.Unlink` | src/raw_rpc.cpp:31-39 | The promise is out of the list, its own link cleared, head and tail corrected. |
| `RpcPendingLists.RawRpc.PopPromise` | src/raw_rpc.cpp:26-46 | The oldest promise with the id leaves the list; the others stay in order. |
| `RpcPendingLists.RawRpc.HandleResult` | src/raw_rpc.cpp:113-119 | The promise found gets the value and is pending no longer. |
| `RpcPendingLists.RawRpc.HandleError` | src/raw_rpc.cpp:120-124 | The promise found leaves the list without an outcome. |
| `RpcPendingLists.RawRpc.Drain` | src/raw_rpc.cpp:59-64 | Every promise still pending is canceled. |

## Left out

- Liveness of the UDT stream: recovery of a lost last packet is not implemented in the source.
- Close packets, timers, the write timeout and `utc_time` on UDT channels: they end a run or are not read back.
- `tx_ack2_pack.missed_seq`: it is written and never read.
- The fields of a UDT channel are kept in two records, its sending and its receiving half; packet buffers in the windows are values, and sharing of their storage is modelled in `UdtWire` only.
- Overflow of the 64-bit total order of `sequence::ordering`.
- `is_random` and `pochisq`: an uninterpreted test.
- CafsKeystream.Randomize: ends by the premise that some later seed is accepted.
- The packed bytes of file headers, listings and chunk headers are uninterpreted functions; directory paths of chunk files are left out.
- CafsImport.Cafs.ImportFile: stated for files shorter than 2^32 bytes, the files for which the loop ends.
- Reading past the end of a damaged chunk file is modelled as zero bytes; a read error of the file system is left out.
- Kademlia lookups on the network, `find_nodes_near` and `filter`: arbitrary outcomes. The queue rule of src/kad.cpp:146, which compares a distance with an id, is not modelled.
- KadSearch cancel: a move of the interleaving model, not a method of the class.
- The connection's channels, route lookups, credits, ranks of one's own node and distance index; the constructor that starts connected without a cipher.
- Berkeley DB tables: maps. Which of several records under one endpoint the index returns first is an arbitrary choice of one of them.
- `signed_int`, JSON values and reflected structures in the serializer.
- What happens after undefined behaviour (a copy past the end of a buffer, a shift past the word): it is one outcome of the streams, and nothing is said about the state it leaves.
- UDT channels keep their miss lists as values and update them with the functions Add, Remove and Rest; class MissList performs the same updates in place, for src/miss_list.cpp on its own.
- Reference counts and completion callbacks of promises.
- The user interface, HTTP, SOCKS5, the name service, chunk search, threads and the files under net/ that duplicate src/.
