# A verified model of ENet

ENet carries sequenced packets, reliable or not, over UDP. This project models its two hard parts and the parts they
stand on, and proves what each is for.

**The range coder** (`src/compress.c`). An adaptive order-2 model of the bytes seen so far drives a carryless 32-bit
range coder. Encoder and decoder each keep a table of at most 4096 symbols, in which every context is a binary tree with
sums; they build their tables in different orders, and no end of stream is written.

- `Carryless` is the interval coder over natural numbers, `CoderWords` its macros in 32-bit words.
- `FrequencyModel` and `Ppm` are what the tables stand for: counts per context, contexts per history, and the theorem
  `Ppm.RoundTrip` about `Compressed` and `Decompressed`.
- `Statistics` says what that model gathers in the numbers of the source: counts, escapes, totals, halving, the context, and
  one whole stream.
- `SymbolTree` and `SymbolTable` relate the trees and links of a table to that model; the encoder's and the decoder's
  searches are proved to do the same to it.
- `Compression` has the class `RangeCoder` with the two main loops over its array of symbols, proved against `Compressed`
  and `Decompressed`, and `RoundTripOf`, which runs one coder after the other.

**The transport** (`src/peer.c`, `src/protocol.c`). Sequence numbers are unbounded in the specifications. The receiver's
classes, the counters of the sender (`Queueing.Numbering`) and the window bitmask (`SendWindow.Windows16`) keep what the code
keeps, 16 bits; the sender's class `Sending.Peer` keeps unbounded numbers in its commands and compares their 16 bits.

- `Windows` relates the two: what the code's comparison of windows means for the number a 16-bit number stands for.
- `Fragmentation` cuts a packet and puts it together.
- `Receiving` is the receiver of one channel as a function (`Arrive`, `Dispatch`), `Delivery` a sender, a receiver and a
  network that loses, repeats and reorders, as steps (`Step`, `Run`), with the theorems over all runs.
- `ReceiveChannel` is the receiver's class over 16 bits, proved to do what `Arrive` says; `EndToEnd` connects that class
  with the steps of `Delivery`. `Acceptance` says what each copy of a fragment leads to: what is stored, refused and
  acknowledged, and that the next packet is dispatched once its fragments are there.
- `SendWindow` is the window bitmask of a channel, a class on its own: its test equals the window discipline that the
  sender's class states on the set of numbers in flight. `Commands` are the kinds of commands, `SendQueues` says what the sender's lists always satisfy (`Ok`), and
  what each change does to them; `Matching`, `Timeouts`, `Queueing` and `Packing` are about acknowledgements, expiry,
  numbers and what fits a datagram, `Holding` about what windows and throttle hold back.
- `Turns` is the order in which the walk over the two outgoing lists takes their commands, `Retries` what becomes of the
  commands that are overdue and of those that wait.
- `Sending` is the class `Peer`, which queues, transmits, acknowledges, retransmits and fills datagrams; `SendLoop` is the
  host's loop of passes over its peers. `Moves` says what a peer does to its own queues, step by step, and `Ledgers` keeps
  the account of it: what was sent, dropped and left is what there was.
- `Sender` is the whole sender with the receivers of its channels, as events (`Step`, `Run`). Each channel of a run is a
  run of `Delivery`. `PeerRuns` proves that the methods of `Peer`, and the host's loop, go through such runs, one after the
  other in any order, and `Conversation` follows a first packet through them to the other end and back.
- `ChannelOrder` is the order of reliable and unreliable packets on a channel, `ChannelRuns` that order over whole runs,
  `Unsequenced` the duplicate filter of
  unsequenced packets, `Datagram` and `Framing` the bytes of a datagram, `Packets` the reference counts of packets.

**The host.** `Bandwidth` is the periodic division of bandwidth (`src/host.c`), `Lifecycle` the states of the peers with
their counters and the events the application is given, `List` the lists of `src/list.c`.

Assumptions of the theorems over runs, all stated in `Delivery`: no copy arrives when its packet starts more than nine
windows of 4096 numbers behind the receiver, and an acknowledgement is less than 2^16 numbers behind the sender. Packets may
have any number of fragments. Nine windows are what the code can tell apart (`Delivery.StaleExactly`); the sender itself
is never more than seven windows ahead of the receiver, which is proved (`Delivery.SenderStaysNear`).

Several properties one might expect fail; for each there is an input and the exact condition:

- A throttled packet is dropped with the commands behind it that carry the same numbers, all of them taken to hold
  packets. The 65536th command of no channel carries the number of an unsequenced packet, and if it is queued right behind
  one it is dropped with it, without a packet: `Sender.PingJoinsRun` is a run to that state. Queueing a command keeps the
  runs sound if and only if it does not join one: `Packing.QueuedSendable`.
- Nor is it one packet only that is dropped. Two unsequenced packets in a row, or the first unreliable packets of two
  channels, carry the same numbers, and both go: `Sender.TwoPacketsDropped`. It stays one packet if and only if no unreliable
  packet is queued right behind one with its numbers: `Packing.QueuedApart` and `Packing.DropsOnePacket`.
- The passes of the host do not send all that windows and throttle permit. One reliable command that they hold back stops
  every command behind it, on all channels: in `Sender.PermittedWaits` a packet of 200 bytes keeps one of 50 bytes on another
  channel waiting. A command is left in the list if and only if it or one in front of it is held back when the walk gets
  there (`Holding.LeftExactly`), and at the end something permitted is left if and only if it stands behind a command held
  back (`SendLoop.Host.SendOutgoingCommands`).
- A dispatch of unreliable commands does not free only what was overtaken. Of three incomplete commands at the current
  number the first is freed though nothing was handed over (`ChannelOrder.ThreeWaiting`, and `ChannelRuns.FreedWaiting` as a
  run); `ChannelOrder.FreedExactly` says which commands a dispatch frees, and `ChannelOrder.FreesOnlyOvertakenExactly` when
  they are only the overtaken ones.
- An unreliable packet is handed over too early if it was queued while 2^16 or more reliable numbers of its channel were
  given that the receiver has not dispatched: `ChannelRuns.HandedOverEarly`. It is taken for what it is if and only if its
  number is less than 2^16 ahead: `ChannelRuns.TakenExactly`.
- A copy of an unsequenced packet may be queued again: `Unsequenced.QueuedTwice` is such a run. A copy of a group already
  queued, less than 2^16 groups behind the base, is queued again if and only if it is more than 32768 groups behind and the
  group it is taken for was not queued: `Unsequenced.CopyQueuedExactly`.
- A rate over some time is not the product of the two once that passes 32 bits: `Bandwidth.RateExactly`.

In the search for an unreliable command's place (`src/peer.c:809`) the code looks at the type of the command that
arrives where the type of the queued command seems meant. It makes no difference, because unsequenced commands never wait
in the list: that is part of the invariant `Sound` of `ChannelOrder`.

## Model

| member | source | states |
|---|---|---|
| `Carryless.ExclusiveOrComparesTopBytes` | src/compress.c:126-127 | The exclusive-or test on 32 bits asks whether the leading bytes of two words differ. |
| `Carryless.ShiftKeepsInterval` | src/compress.c:126-136 | An unsettled interval shifts into a valid one inside it: low + range stays within 2^32, the forced range is positive and clears the low half, and the loop comes to an end. |
| `Carryless.Narrow` | src/compress.c:122-125 | With the range wide enough for any total, the interval of a slot is not empty and lies inside the interval it is cut from. |
| `Carryless.Encode` | src/compress.c:122-138 | After a slot the range is again at least 2^16, so that the next division gives at least 1. |
| `Carryless.NormalizeNests` | src/compress.c:126-137 | A point named after normalisation is, behind the bytes shipped, a point of the interval before. |
| `Carryless.NormalizeFollows` | src/compress.c:359-372 | The decoder's normalisation shifts exactly as often as the encoder's and keeps its code inside the interval. |
| `Carryless.StreamNames` | src/compress.c:122-145 | Whatever slots are still to be coded, the bytes still to be written, flush included, name a point of the current interval. |
| `Carryless.ReadsSlot` | src/compress.c:355-355 | A code inside a slot's interval is read as a part of that slot. |
| `Carryless.DecodeFollows` | src/compress.c:355-373 | The decoder reads a part of the slot the encoder wrote and stays in step with the encoder over it. |
| `Carryless.EndedStays` | src/compress.c:139-145 | At the end of the flushed stream every slot that starts at 0 is read, so that every context escapes, again and again. |
| `CoderWords.EncodeSlot` | src/compress.c:115-138 | The 32-bit loop writes the bytes and leaves the state of the coder over natural numbers; it fails exactly when the bytes do not fit. |
| `CoderWords.ShiftInWords` | src/compress.c:126-136 | The 32-bit shift and negation lose nothing of an unsettled interval. |
| `CoderWords.FlushLow` | src/compress.c:139-145 | The flush writes the trailing bytes of low without its zero tail, or fails if they do not fit. |
| `CoderWords.DecodeSlot` | src/compress.c:357-373 | The 32-bit decoding loop leaves the state of the decoder over natural numbers, reading zeros past the end. |
| `FrequencyModel.ObserveOk` | src/compress.c:108-113 | Learning a byte keeps counts within 8 bits and totals within 16, before and after the halving, and gives every byte seen a positive count. |
| `FrequencyModel.SlotOfOk` | src/compress.c:294-296 | A byte that may be coded in a context has a non-empty slot there, clear of the escapes. |
| `FrequencyModel.ValueAtSlot` | src/compress.c:375-414 | The slots of different bytes do not overlap: a part of a byte's slot is looked up as that byte. |
| `FrequencyModel.ValueAtFinds` | src/compress.c:375-414 | Every part past the escapes and short of the total lies in the slot of the byte found for it. |
| `Ppm.EncodeFrom` | src/compress.c:280-327 | Coding a byte from a context of length n takes at most n + 1 new symbols, and every slot it writes is valid. |
| `Ppm.LocateFollows` | src/compress.c:545-652 | From the slots the encoder wrote for a byte, and whatever follows them, the decoder finds that byte and learns the same model. |
| `Ppm.PatchFollows` | src/compress.c:654-669 | Learning the byte in the escaped contexts afterwards gives what the encoder learned on the way down. |
| `Ppm.EndIsFound` | src/compress.c:610-616 | At the flushed end every context escapes down to the root, which ends the stream. |
| `Ppm.RoundTrip` | src/compress.c:233-341 | For every byte sequence, decompressing what compression writes gives the sequence back, given room for it, with the end found from the zero-padded flush alone. |
| `Ppm.InStep` | src/compress.c:512-682 | After every byte the decoder of a compressed stream has decoded what was encoded and has the encoder's model: the same counts, the same context, as many symbols taken, afresh at the same bytes. |
| `Ppm.LostExactly` | src/compress.c:610-650 | A stream leads past the last slot of the root if and only if every longer context escapes and the part read at the root is not below its total. |
| `Statistics.CountsExactly` | src/compress.c:157-193 | Before any halving a context counts each byte twice for every time it learned it and has five escapes for each different byte, the root three times and one escape; the total is their sum, at the root with one part for every byte value. |
| `Statistics.SlotExactly` | src/compress.c:294-296 | The slot of a byte begins behind the escapes and the parts of the smaller bytes, in the same numbers. |
| `Statistics.HalvedExactly` | src/compress.c:300-307 | In any context a byte adds 2 to its count, and 5 escapes if it is new, at the root 3; everything is then halved, rounding up, exactly if the count before was above 251, at the root above 250 with the minimum, or the total is above 65280. |
| `Statistics.EncodedExactly` | src/compress.c:280-327 | A byte is coded in the longest context that knows it, or at the root, behind the escapes of the longer contexts; it is learned in those contexts and that one, and in no other. |
| `Statistics.HistoryExactly` | src/compress.c:329-335 | After any bytes the context for the next is the last two, or as many as there are since the table was last started; it is started afresh exactly when 4094 symbols are taken. |
| `Statistics.SymbolsExactly` | src/compress.c:67-79 | After any bytes one symbol is taken for each byte that each context knows, and one for the root. |
| `Statistics.CompressedAab` | src/compress.c:233-341 | The bytes 97, 97, 98 are compressed to 97, 255, 157, 144. |
| `SymbolTree.BeforeIsBelow` | src/compress.c:157-193 | The sums kept in an ordered tree are the cumulative counts of its context. |
| `SymbolTree.EncodeWalkInserts` | src/compress.c:157-193 | The encoder's search adds to one byte's count, keeps search order and sums, creates the symbol if it is missing, touches nothing else, and returns the old count and cumulative count. |
| `SymbolTree.DecodeWalkAgrees` | src/compress.c:375-414 | For any part of a byte's slot, known or not yet in the tree, the decoder's search ends with the same table, symbol and counts as the encoder's search for that byte. |
| `SymbolTree.DecodeWalkMisses` | src/compress.c:416-431 | In a context without a minimum, a part past every slot is a miss: the search runs off the right end of the tree. |
| `SymbolTree.RescaleHalves` | src/compress.c:89-106 | Recursive rescaling halves every count, rounding up, recomputes every sum, and returns the new weight. |
| `SymbolTable.LearnTable` | src/compress.c:157-193 | The steps made in the table for a byte turn a table that represents a model into one that represents the model with the byte learned, one parent link still open at most. |
| `SymbolTable.LearnsTable` | src/compress.c:280-327 | Search, parent link and settling keep the table a representation of the model and report the model's counts. |
| `SymbolTable.SettleObserves` | src/compress.c:303-307 | Raising the totals and rescaling a context that got too large is what the model does on learning a byte. |
| `SymbolTable.DecodeInAgrees` | src/compress.c:375-461 | In a table, the decoder's search for a part does exactly what the encoder's search does for the byte whose slot the part lies in. |
| `SymbolTable.CloseTable` | src/compress.c:313-315 | Setting the last waiting parent link completes the table. |
| `SymbolTable.TableFits` | src/compress.c:10-23 | In every table reached, counts fit 8 bits, and sums, totals, escapes and links fit the 16-bit fields. |
| `SymbolTable.TablesIsomorphic` | src/compress.c:654-678 | Two tables of one model hold the same paths with equal counts and totals and corresponding parents, wherever the symbols are stored. |
| `Compression.RangeCoder.Rescale` | src/compress.c:89-106 | The in-place recursion does to the array what the specification of rescaling says. |
| `Compression.RangeCoder.ContextEncode` | src/compress.c:157-193 | The search loop over the array is the specified search. |
| `Compression.RangeCoder.ContextDecode` | src/compress.c:375-461 | Both decoding searches over the array, with and without a minimum, are the specified search. |
| `Compression.RangeCoder.CompressByte` | src/compress.c:280-327 | One byte writes the slots the model prescribes, or fails for lack of room, and leaves a table of the model that learned it. |
| `Compression.RangeCoder.Proceed` | src/compress.c:329-335 | Moving to the next context and starting a full table afresh is what the model does; encoder and decoder share it. |
| `Compression.NextByte` | src/compress.c:269-278 | The head of the main loop takes the next byte of the concatenated buffers, and ends exactly when none is left. |
| `Compression.RangeCoder.Compress` | src/compress.c:233-341 | Returns the length of the specified stream and the stream itself if it fits the output, otherwise 0. Of the specified stream `Ppm` proves the round trip and `Statistics` the numbers. |
| `Compression.SeedCode` | src/compress.c:343-354 | The first code is the leading 32 bits of the zero-padded input. |
| `Compression.RangeCoder.LocateByte` | src/compress.c:545-652 | Descending through the contexts finds the byte, the end of the stream or a failure as specified. |
| `Compression.RangeCoder.PatchByte` | src/compress.c:654-669 | The patching loop makes the escaped contexts learn the byte and completes the parent links. |
| `Compression.RangeCoder.Decompress` | src/compress.c:512-682 | Writes the bytes the specification decodes and returns their number, or 0 when the stream fails or the output is too short. |
| `Compression.TablesInStep` | src/compress.c:329-335 | After every byte of a stream the encoder's and the decoder's tables have the same nextSymbol, corresponding predicted contexts of the same order, and are isomorphic. |
| `Compression.RoundTripOf` | src/compress.c:233-682 | If compression of the buffers returns a positive length, decompressing those bytes into enough room returns the bytes of all buffers. |
| `Windows.AheadResolves` | src/peer.c:751-763 | The comparison of 16-bit numbers used on arrival is the distance in windows from the current number to the number they are taken for. |
| `Windows.ResolveRecognises` | src/peer.c:755-762 | A number at or ahead of the current one by less than 2^16 is recognised; one behind it is taken for one 16 windows later. |
| `Windows.WireInjective` | src/protocol.c:1506-1530 | Numbers less than 2^16 apart differ in their 16 bits. |
| `Windows.WireOrder` | src/protocol.c:625-636 | The search's two-step comparison, side of the wrap first, is the order of the numbers meant. |
| `Fragmentation.CountBounds` | src/peer.c:73-73 | The fragment count is the number of piece-sized steps that start inside the packet. |
| `Fragmentation.Cut` | src/peer.c:94-121 | The loop makes exactly ceil(dataLength / fragmentLength) fragments that tile the packet in order. |
| `Fragmentation.PutFills` | src/protocol.c:663-676 | Copying a fragment into the buffer puts its bytes in place and leaves the fragments that arrived before as they are. |
| `Fragmentation.FilledIsWhole` | src/protocol.c:678-680 | When no fragment is missing, the buffer is the packet. |
| `Receiving.PlaceSorts` | src/peer.c:765-793 | Inserting an unused number keeps the queue sorted and adds just that command. |
| `Receiving.Find` | src/protocol.c:620-648 | Finds the queued command of a number if there is one. |
| `Delivery.FirstGrows` | src/peer.c:522-527 | Packets take consecutive numbers, one for each fragment: those of a later packet begin behind those of an earlier one. |
| `Delivery.DispatchTracks` | src/peer.c:683-726 | Dispatching hands over whole packets, the next ones in order, and goes on until nothing more can go. |
| `Delivery.MarkedMatches` | src/protocol.c:663-676 | Marking a fragment keeps the number of fragments missing equal to the fragments not marked, with every marked fragment's bytes in place. |
| `Delivery.TransmitStaysNear` | src/protocol.c:1516-1530 | A window is not opened while the one before it is entirely in flight, so that the sender stays within seven windows of the receiver. |
| `Delivery.StaleIsIgnored` | src/peer.c:751-793 | A copy of a command that was dispatched before changes nothing at the receiver, as long as its packet starts at most nine windows behind, however many fragments it has. |
| `Delivery.StaleExactly` | src/peer.c:751-793 | A single command dispatched less than 2^16 numbers ago is dropped if it is at most nine windows behind, and otherwise stored as a new one. |
| `Delivery.EntryIsNarrow` | src/protocol.c:1512-1524 | A window opened only when it and the nine after it are free keeps what is in flight within seven windows. |
| `Delivery.OpensExactly` | src/protocol.c:1512-1530 | The first number of a window may be sent exactly if not all of the window before it is in flight and nothing from seven windows before is; any other number always may. |
| `Delivery.AcknowledgesOne` | src/protocol.c:218-260 | The 16 bits of an acknowledgement take their own number out of flight and no other. |
| `Delivery.RunKeeps` | src/peer.c:683-726 | Every state reached by queueing, sending, delivering and acknowledging in any order satisfies the invariant. |
| `Delivery.DeliveredInOrder` | src/peer.c:683-726 | In every run the packets dispatched are a prefix of those queued: whole, once each, in order, across the wrap of 16 bits. |
| `Delivery.NothingIsLost` | src/protocol.c:1416-1469 | When everything queued was sent and nothing is left in flight, everything was dispatched. |
| `Delivery.AcknowledgementsAreSound` | src/peer.c:474-507 | In every run an acknowledgement is queued only for a fragment the receiver holds or has dispatched. |
| `Delivery.SenderStaysNear` | src/protocol.c:1506-1530 | In every run the sender is at most seven windows ahead of the receiver, however long the packets are. |
| `Delivery.InFlightIsNarrow` | src/protocol.c:1506-1530 | In every run the numbers in flight lie in seven consecutive windows, so that 16 bits tell them apart. |
| `Acceptance.TakenExactly` | src/protocol.c:573-684 | In every state of a run, a copy of a packet or fragment not dispatched yet, starting less than seven windows ahead, is stored and, outside the two silent windows, acknowledged, exactly if the packet is within the limits and there is room or its first part is queued; otherwise nothing changes. |
| `Acceptance.TooEarly` | src/protocol.c:599-607 | One that starts seven windows ahead changes nothing and is not acknowledged. |
| `Acceptance.RepeatedIsAcknowledged` | src/peer.c:474-507 | A copy of something dispatched changes no queue and is acknowledged again, except eight or nine windows behind. |
| `Acceptance.InFlightIsAcknowledged` | src/protocol.c:573-684 | A fragment still in flight at the sender, less than seven windows ahead of the receiver, is held and acknowledged once a copy arrives, whether it is new or a repetition. |
| `Acceptance.CompleteIsDispatched` | src/protocol.c:678-680 | In every run, when every fragment of the next packet is held, the packet has been dispatched. |
| `Acceptance.NextIsDispatched` | src/protocol.c:573-684 | Once the next packet has been sent, copies of all its fragments, in any order and with any repetitions, make the receiver dispatch it. |
| `ReceiveChannel.Search` | src/protocol.c:620-648 | The backwards search on 16 bits finds the command of a number, or the place behind the last command with a smaller number. |
| `ReceiveChannel.Channel.DispatchIncomingReliable` | src/peer.c:683-726 | The loop moves the run of complete commands that follow on to the dispatched ones, as specified. |
| `ReceiveChannel.Channel.QueueIncomingCommand` | src/peer.c:728-900 | A reliable command is queued in its place and dispatched if it is next; it is discarded if too far ahead, just dispatched or queued already, and refused when too much data waits. |
| `ReceiveChannel.Channel.HandleSendReliable` | src/protocol.c:451-483 | The handler does what the specification says of an arrival, and its return code says whether the datagram goes on. |
| `ReceiveChannel.Channel.HandleSendFragment` | src/protocol.c:573-684 | The handler checks, finds or starts the packet, marks and copies the fragment and dispatches a packet that is complete, as the specification says; what that specification takes, `Acceptance.TakenExactly` says. |
| `ReceiveChannel.Channel.MarkFragment` | src/protocol.c:663-681 | A fragment seen for the first time is counted and copied, a repeated one changes nothing, and the last one lets the queue be dispatched. |
| `ReceiveChannel.Channel.QueueAcknowledgement` | src/peer.c:474-507 | An acknowledgement is queued except in the two windows that lie too far ahead to be stored. |
| `EndToEnd.QueueIsOrderly` | src/peer.c:765-793 | In every state of a run the queued commands lie ahead of the receiver by less than 2^16 and do not overlap. |
| `Acceptance.DispatchIsNear` | src/peer.c:683-726 | A dispatch moves the receiver on by at most seven windows. |
| `EndToEnd.HandleCommand` | src/protocol.c:1266-1292 | Given a command the network of the model can deliver, the 16-bit receiver takes the model's step and queues an acknowledgement exactly when the model does; it stores, refuses and acknowledges exactly what `Acceptance` says. |
| `SendWindow.TenExact` | src/protocol.c:1516-1524 | The rotated mask meets no used bit exactly when the ten windows from the given one on, modulo 16, are free. |
| `SendWindow.Windows16.Blocked` | src/protocol.c:1512-1530 | The test on mask and counter holds a command back exactly when it would be sent for the first time and the window discipline forbids it. |
| `SendWindow.Windows16.FirstSent` | src/protocol.c:1557-1561 | A first transmission is counted in its window; the used bit is set exactly for windows with a positive count. |
| `SendWindow.Windows16.Acknowledge` | src/protocol.c:253-261 | An acknowledgement takes its number out of its window and clears the bit of a window that becomes empty. |
| `SendQueues.FreshOk` | src/host.c:237-249 | The queues of a new peer satisfy the invariant. |
| `SendQueues.QueuedOk` | src/peer.c:565-570 | A command queued with the next number keeps the invariant and is the only one added to those that wait for acknowledgement. |
| `SendQueues.SentOk` | src/protocol.c:1557-1581 | Sending the head of a list keeps the numbers of each channel in order and its windows narrow; a first transmission carries the number after the last one transmitted. |
| `SendQueues.RemovedOk` | src/protocol.c:218-293 | An acknowledgement takes out one command that waited exactly once, with its window count and data in transit, and leaves all others. |
| `SendQueues.ReturnedOk` | src/protocol.c:1448-1458 | A timeout moves a command back and changes neither what waits nor what is in flight. |
| `Sending.Peer.SetupOutgoingCommand` | src/peer.c:509-571 | A command gets the next number of its channel, of the peer, or none, and the next queue time, joins the list it belongs to, and is counted as outgoing data; every unsequenced packet gets a group of its own; the lists stay fit to be sent exactly if it joins no run. |
| `Queueing.Numbering.Number` | src/peer.c:515-543 | The 16-bit counters follow the numbers given; a reliable command restarts the unreliable numbers, the first fragment of an unreliable packet takes the next one. |
| `Queueing.GivenAhead` | src/peer.c:515-543 | A sequenced packet gets numbers behind all those given on its channel before, and no other channel's change. |
| `Packing.QueuedSendable` | src/protocol.c:1587-1614 | Queueing a command leaves throttled runs made of packets only, unless it holds no packet and follows an unreliable packet with the same 16-bit numbers. |
| `Packing.QueuedApart` | src/protocol.c:1602-1608 | Queueing a command keeps every run one packet, unless the command starts an unreliable packet with the numbers of the one in front of it. |
| `Packing.DropsOnePacket` | src/protocol.c:1587-1614 | While every run is one packet, what is dropped with a throttled packet is the rest of that packet. |
| `Sending.Peer.Send` | src/peer.c:54-157 | A packet is refused exactly if the peer is not connected, the channel is not there, the packet is longer than allowed, or it would have more than 2^20 fragments; otherwise it is queued whole or cut into fragments that tile it, with the kind its flags call for, the start number, count, index and total length of each fragment, consecutive numbers or, if unreliable, one number, and the counters left accordingly. |
| `Sending.Peer.SendFragments` | src/peer.c:94-136 | All fragments are cut first and queued in order, each with its own part, header fields and number. |
| `Matching.FindSent` | src/protocol.c:192-216 | Finds a transmitted command with the number and channel acknowledged, or there is none in the list. |
| `Matching.BreakMissesNothing` | src/protocol.c:201-207 | Stopping at the first command never sent misses no match. |
| `Matching.MatchIsUnique` | src/protocol.c:226-247 | On a channel, the 16 bits of an acknowledgement match one command in flight. |
| `Sending.Peer.RemoveSentReliable` | src/protocol.c:218-293 | The acknowledged command, and nothing else, leaves the queues and the next timeout is that of the new head; without a match nothing changes. |
| `Sending.Peer.CheckTimeouts` | src/protocol.c:1416-1469 | The expired commands wait again at the heads of their lists, in order and with the timeout doubled, the others stay; the walk stops at exactly the first command that is one too many, counted from the earliest unanswered one; lost commands are counted. |
| `Sending.Peer.MoveToSent` | src/protocol.c:1557-1581 | A reliable command goes to the sent list with one attempt more, the time, and the timeout it had, or roundTripTime + 4 * roundTripTimeVariance if it had none; it enters its window on its first transmission, and counts as data in transit. |
| `Retries.OverdueExactly` | src/protocol.c:1433-1435 | A command counts as expired exactly if the 32-bit distance between now and the time it was sent is at least its timeout. |
| `Retries.GivesUpExactly` | src/protocol.c:1437-1446 | A peer is given up over an expired command exactly if the earliest one is as old as the maximum, or as old as the minimum and the command was sent more than k times, 2^k being the limit; the limit 32 is 2^5. |
| `Retries.EarliestIsFirst` | src/protocol.c:1437-1439 | earliestTimeout is the time of the expired command that was sent first, and 0 if none has expired. |
| `Retries.TimedOutIsOnward` | src/protocol.c:1424-1468 | The walk over the sent commands puts back each command that is overdue, with its timeout doubled, and no other. |
| `Retries.WalkIsOnward` | src/protocol.c:1485-1645 | A walk over the outgoing lists takes a command that asks for an acknowledgement into the datagram and the sent list, with one attempt more, or leaves it where it is. |
| `Retries.OnwardChains` | src/protocol.c:1669-1822 | So it is with any number of walks and passes one after the other. |
| `Turns.TakenInOrder` | src/protocol.c:1485-1502 | With both lists in the order of their queue times, no command of outgoingCommands goes before a reliable one queued earlier unless that list is held back by then, and no reliable one before one of outgoingCommands queued no later. |
| `Turns.HandledInOrder` | src/protocol.c:1485-1502 | Until the reliable list is held back the walk handles the commands of both lists, sent or dropped, in the order they were queued. |
| `Turns.PackedInOrder` | src/protocol.c:1485-1502 | If it is never held back, the datagram holds its commands in that order. |
| `Sending.Peer.HeldBackExactly` | src/protocol.c:1512-1540 | The head of the reliable list is held back exactly if it is the first number of a window, never sent, and the window before is entirely in flight or something from seven windows before is; or if what would be in transit exceeds both the mtu and packetThrottle * windowSize / 32. |
| `Sending.Peer.FullExactly` | src/protocol.c:1545-1554 | There is no room for a command exactly if the datagram holds 32 commands or would exceed the mtu. |
| `Sending.Peer.DropRun` | src/protocol.c:1587-1614 | A throttled packet is dropped with the longest run of commands behind it that carry its numbers, and nothing that waits for acknowledgement. |
| `Holding.LeftExactly` | src/protocol.c:1509-1540 | A walk with room for everything leaves a reliable command in the list if and only if the command or one in front of it is held back when the walk gets there. |
| `Holding.PermittedLeft` | src/protocol.c:1512-1540 | With the first command held back, a permitted command is left in the list if and only if it stands behind one that is held back. |
| `Sending.Peer.CheckOutgoingCommands` | src/protocol.c:1471-1657 | The walk ends only at a command with no room left, which asks for another pass, or with outgoingCommands empty and the head of the reliable list, if any, held back by windows or throttle; then exactly those reliable commands have left that are not held back and behind none that is. The lists lose commands from their heads; those sent and those the throttle dropped are together what left, the sent ones are what was added to the datagram, those to be acknowledged among them what was added to the sent list, each with one attempt more. Of the two heads each step took the one queued first by the 32-bit comparison, until the reliable list was held back. A ping may follow exactly if no reliable command was reached. |
| `Sending.Peer.SendAcknowledgements` | src/protocol.c:1363-1414 | The oldest acknowledgements go into the datagram in order until it holds 32 commands or has less than 8 bytes left; those left ask for another pass. |
| `Sending.Peer.FillAndPing` | src/protocol.c:1698-1706 | A ping is queued exactly if the peer is connected, nothing sent is unanswered, the first walk reached no reliable command that it could have sent, the last packet received is pingInterval or more ago, and four bytes are left. |
| `Sending.Peer.SendPass` | src/protocol.c:1670-1714 | One pass for a peer, ping included: acknowledgements first, then expired commands back in their lists, then the walk, and the ping and a second walk if nothing sent is unanswered; the account of all of it balances, and a pass that asks for no other leaves the peer drained. Unless the peer is given up, each sent command that is overdue is sent again or waits with its timeout doubled, if the first one is due; otherwise no sent command is touched. |
| `Ledgers.PassProgresses` | src/protocol.c:1669-1822 | A pass that sends something leaves less to do, although it may queue a ping: a ping needs that nothing sent is alive, and then either a command becomes alive or the acknowledgements and unreliable commands left become fewer. |
| `Ledgers.BalanceKept` | src/protocol.c:1669-1822 | Over any number of passes the acknowledgements go out oldest first, each unreliable command is sent, dropped or still there, once, and each reliable command sent is newly alive in the sent list. |
| `SendLoop.TurnDescends` | src/protocol.c:1669-1822 | A peer's turn lowers the measure of all peers if the peer asks for another pass, and never raises it. |
| `SendLoop.Host.Pass` | src/protocol.c:1670-1822 | A pass visits the active peers, after the first pass those that asked for it; it asks for another only if there is less to do. |
| `SendLoop.Host.SendOutgoingCommands` | src/protocol.c:1659-1823 | The passes over all peers come to an end. Then every peer that still sends has no acknowledgements and an empty outgoingCommands left, and a reliable list whose first command is held back; a command that windows and throttle permit is among the rest if and only if it stands behind one they hold back. Every datagram keeps its limits, and for each peer the datagrams, the dropped commands and what is left are what there was to send. Of a peer whose first sent command was due when timeouts are checked, no overdue command is left as it was: each is in the datagrams, sent once more, or waits with its timeout doubled; every other command is kept. |
| `Moves.TimedOutLeads` | src/protocol.c:1416-1469 | What the timeout walk leaves is what moving the expired commands back one by one leads to. |
| `Sender.TakesItsNumber` | src/protocol.c:218-293 | Taking out the command found by the 16 bits of an acknowledgement is the acknowledgement of that number in the protocol of the channel. |
| `Sender.StepKeeps` | src/protocol.c:1471-1657 | Queueing, transmitting, dropping, timing out and acknowledging, in any order and on all channels at once, keep the invariant of the queues and counters; each is a step of the protocol of each channel or leaves it alone. |
| `Sender.RunProjects` | src/protocol.c:1659-1823 | In every run of a peer with all its queues, each channel goes through a run of the protocol of one channel. |
| `Sender.DeliveredInOrder` | src/peer.c:683-726 | In every run, on every channel the packets dispatched are the first ones given to the peer for it, whole, once each and in order. |
| `Sender.NothingForgotten` | src/protocol.c:1416-1469 | In every run a fragment that its receiver does not hold still waits in the queues of the sender. |
| `Sender.EverythingArrives` | src/protocol.c:1416-1469 | When no command of a channel waits any more, every packet given to the channel has been dispatched. |
| `Sender.TransmittedIsPart` | src/peer.c:94-136 | In every run each reliable command in the queues is the part of the packet that its number stands for, with its place, length and header fields. |
| `Sender.RunIsSendable` | src/protocol.c:1587-1614 | While no command joins a throttled run, everything that waits can be sent, after any events. |
| `Sender.PingJoinsRun` | src/protocol.c:1587-1614 | A run in which a command without a packet joins the run of an unsequenced packet. |
| `Sender.TwoPacketsDropped` | src/protocol.c:1602-1608 | A run after which throttling one unsequenced packet drops two. |
| `Sender.PermittedWaits` | src/protocol.c:1531-1540 | A run after which a packet that windows and throttle permit waits behind one of another channel that they hold back, and a walk sends neither. |
| `PeerRuns.Submit` | src/peer.c:54-157 | A packet given to the peer with any flags is refused, or is the event of the model that submits it if it goes out reliably, or the events that queue its commands; the peer stays ready for the passes except when an unsequenced packet is queued just before the next number of no channel is a multiple of 2^16. |
| `PeerRuns.Enqueue` | src/peer.c:364-378 | A ping or another command of no channel is the event that queues it, and keeps the peer ready. |
| `PeerRuns.Transmit` | src/protocol.c:1557-1581 | Moving a head to the sent list is the event that transmits it, and keeps the peer ready. |
| `PeerRuns.Acknowledge` | src/protocol.c:218-293 | Taking an acknowledgement is the event of the model that acknowledges the fragment, and keeps the peer ready. |
| `PeerRuns.AcknowledgePeer` | src/protocol.c:218-293 | So is taking the acknowledgement of a command of no channel. |
| `PeerRuns.SendOutgoingCommands` | src/protocol.c:1659-1823 | Whatever the host's loop does, each peer that still sends ends where a run of its own moves leads, ready for the next call. |
| `PeerRuns.PeerDelivers` | src/peer.c:683-726 | For every peer reached by these methods, its receivers have dispatched the first packets submitted, in order, and what they lack still waits. |
| `Conversation.FirstIsSent` | src/protocol.c:1659-1823 | When the host's loop has ended, the first packet given to a new peer has been transmitted. |
| `Conversation.FirstPacket` | src/protocol.c:1659-1823 | A new peer, a packet sent reliably, the host's loop, the acknowledgement and the loop again: unless the network fails or the peer is given up, the packet is dispatched at the other end and the peer is ready as before. |
| `ChannelOrder.SeenAs` | src/peer.c:616-650 | For commands near the current number, the tests on 16 bits tell whether a command is due or waits for a later reliable number. |
| `ChannelOrder.Channel.DispatchIncomingUnreliable` | src/peer.c:596-681 | One walk hands over the ready commands in order, raises the unreliable number, and leaves what still waits. |
| `ChannelOrder.Channel.QueueIncoming` | src/peer.c:795-899 | An unreliable command is stored, in order, exactly when it is near enough, not yet handed over and not queued; if it is ready it alone is handed over. |
| `ChannelOrder.Channel.CompleteFragment` | src/protocol.c:793-804 | The last fragment of an unreliable packet lets it be handed over, and nothing else. |
| `ChannelOrder.Channel.DispatchReliable` | src/peer.c:683-726 | The run of complete packets at the head of the reliable list is handed over, and the unreliable commands sent under the last of their numbers follow. |
| `ChannelOrder.FindRun` | src/peer.c:683-705 | The loop over the reliable commands takes exactly the run that is dispatched and leaves the counter at its end. |
| `ChannelOrder.NumbersGrow` | src/peer.c:683-705 | The numbers of the packets dispatched increase, from the current number on. |
| `ChannelOrder.Channel.Search` | src/peer.c:795-837 | The backwards search finds a duplicate exactly if there is one, and otherwise the only place that keeps the list in order. |
| `ChannelOrder.ReadyInOrder` | src/peer.c:596-681 | What is handed over continues the strictly increasing order of reliable and unreliable numbers. |
| `ChannelOrder.DispatchIsSound` | src/peer.c:596-681 | A dispatch keeps the whole invariant: everything handed over in increasing order, and only commands that wait left. |
| `ChannelOrder.OneFateEach` | src/peer.c:210-242 | Each queued command is handed over, kept or freed, and the numbers of the three add up. |
| `ChannelOrder.NothingSurvivesBehind` | src/peer.c:655-680 | Nothing but the command just queued survives in front of one that was handed over. |
| `ChannelOrder.FreedExactly` | src/peer.c:655-680 | A command that cannot go is freed if and only if it was not just queued and it is not incomplete among the last two before those that wait for a later number, with nothing ready right behind it. |
| `ChannelOrder.FreesOnlyOvertakenExactly` | src/peer.c:655-680 | A dispatch frees incomplete commands of the current number only if something behind them was handed over, if and only if none but the last two and the one just queued stand behind all that was handed over. |
| `ChannelOrder.ThreeWaiting` | src/peer.c:655-680 | Of three incomplete commands at the current number the first is freed though nothing was handed over. |
| `ChannelRuns.RunKeeps` | src/peer.c:596-681 | Sending, arrivals late, repeated and out of order, fragments and the handing over of reliable packets keep the order and the origin of all a channel holds and has handed over. |
| `ChannelRuns.HandedOverInOrder` | src/peer.c:596-681 | In every run, of two packets handed over in sequence the first was sent before the second, reliable or not: what is handed over is a part of what was sent, in its order and once each. |
| `ChannelRuns.HandedOverWasSent` | src/peer.c:596-681 | In every run, whatever is handed over was sent, and what was sent is in order itself. |
| `ChannelRuns.ArrivesExactly` | src/peer.c:751-900 | In every state of a run, a copy of an unreliable packet is taken exactly if there is room, it is not behind, less than seven windows ahead, and not queued; complete and under the current number it is handed over at once, otherwise it waits, and nothing else is handed over. |
| `ChannelRuns.LooseArrives` | src/peer.c:834-900 | An unsequenced packet is handed over at once if there is room. |
| `ChannelRuns.FragmentExactly` | src/protocol.c:786-806 | Exactly the last missing fragment of a packet under the current number lets it be handed over. |
| `ChannelRuns.HandsOverExactly` | src/peer.c:683-726 | With reliable packets exactly those queued unreliable ones follow that are complete and were sent under the last number; those for later numbers stay. |
| `ChannelRuns.TakenExactly` | src/peer.c:751-763 | An unreliable packet ahead of the receiver is taken for what it is if and only if its number is less than 2^16 ahead. |
| `ChannelRuns.HandedOverEarly` | src/peer.c:751-763 | One that is further ahead is handed over before the reliable packets it was sent behind. |
| `ChannelRuns.FreedWaiting` | src/peer.c:655-680 | A run in which an incomplete packet is freed that nothing has overtaken. |
| `Unsequenced.QueuedAtMostOnce` | src/protocol.c:505-541 | Over any arrivals from 32768 groups behind the base to less than 65536 ahead of it no group is queued twice, whatever is repeated, reordered or delayed, across window changes and the wrap. |
| `Unsequenced.QueuedExactly` | src/protocol.c:505-541 | Over such arrivals a group is queued exactly if there is room, it is ahead of the window by less than 32768, and it has not been queued before. |
| `Unsequenced.BaseExactly` | src/protocol.c:508-524 | Such a group moves the window to the 1024 groups it belongs to, and no other does. |
| `Unsequenced.DroppedExactly` | src/protocol.c:508-515 | A group behind the base, by less than 2^16, is dropped if and only if it is at most 32768 groups behind. |
| `Unsequenced.CopyQueuedExactly` | src/protocol.c:505-541 | A late copy of a queued group is queued again if and only if it is more than 32768 groups behind and the group it is taken for was not queued. |
| `Unsequenced.QueuedTwice` | src/protocol.c:505-541 | A run of four arrivals in which a group is queued twice. |
| `Unsequenced.Peer.Handle` | src/protocol.c:505-541 | The handler on 16 bits and its bitmap does what the specification of an arrival says. |
| `Datagram.ReadsWhatWasEncoded` | src/protocol.c:1157-1177 | An encoded command is read back, payload included, whatever follows it. |
| `Datagram.ParseInvertsPack` | src/protocol.c:1157-1298 | Of packed commands exactly those before the first refused one are taken up, unchanged and in order. |
| `Datagram.TakenUpExactly` | src/protocol.c:1155-1298 | From a known peer all commands are taken up that the handlers accept, if none is CONNECT; from no peer a datagram that begins with CONNECT is, and any other is not looked at. |
| `Datagram.SizesExactly` | src/protocol.c:12-26 | The sizes of the commands are those of the header and the fields of their structures. |
| `Datagram.ReadCommand` | src/protocol.c:1157-1180 | The tests and pointer steps of a round read the command at the current place, or stop when there is none. |
| `Datagram.ParseCommands` | src/protocol.c:1155-1298 | The loop takes up the commands the specification takes up. |
| `Datagram.HeaderReads` | src/protocol.c:1085-1088 | Peer, session and flags are read back from the header word, the session only for a peer that has a number. |
| `Datagram.UnpackInvertsPack` | src/protocol.c:1749-1788 | A packed datagram gives back its peer, session, time and commands, up to the first command refused. |
| `Framing.FrameIsWellFormed` | src/protocol.c:1624-1640 | Every entry the sending loop can pack has a command on the wire, of its kind and size, with the numbers, lengths and fields of its header. |
| `Framing.EntryLaidOut` | include/enet/protocol.h:67-180 | Every command is laid out as its structure says: number and flags, channel, sequence number, then each field in its place in network order, then the payload. |
| `Framing.DatagramLaidOut` | src/protocol.c:1735-1788 | A datagram is the word of peer, session and flag, the time if a command asks for an acknowledgement, and then the commands one after the other, each so laid out. |
| `Framing.DatagramTravels` | src/protocol.c:1735-1788 | Whatever the sending loop packs has bytes: they fit the mtu, the header names a time exactly when some command asks for an acknowledgement, and parsing gives the same commands back, up to the first one refused. |
| `Framing.PartTravels` | src/protocol.c:573-684 | The bytes of a reliable command, read as its handler reads them, are the message that the protocol of its channel delivers. |
| `Packets.PacketQueues.Create` | src/packet.c:9-40 | A new packet has no holder and no count. |
| `Packets.PacketQueues.Insert` | src/peer.c:573-594 | Queueing a command adds one holder to its packet and one to its count, and destroys nothing. |
| `Packets.PacketQueues.Drop` | src/protocol.c:266-280 | A command freed takes one holder from its packet, which is destroyed exactly if that was the last one. |
| `Packets.PacketQueues.Empty` | src/peer.c:190-208 | Emptying a queue destroys just the packets whose last holder was in it. |
| `Packets.PacketQueues.RemoveIncoming` | src/peer.c:210-242 | A run is removed except for one command, and just the packets without a holder left are destroyed. |
| `Packets.PacketQueues.DropThrottled` | src/protocol.c:1587-1614 | The longest run with the first command's numbers is freed; counts stay the numbers of holders. |
| `Packets.PacketQueues.Move` | src/list.c:43-58 | A run moved between queues changes no packet's holders. |
| `Packets.PacketQueues.Receive` | src/peer.c:159-188 | The oldest packet goes to the application, one holder fewer and not destroyed. |
| `Packets.PacketQueues.Send` | src/peer.c:128-136 | All fragments are counted before the first is queued, and in the end the count is the number of holders. |
| `Packets.PacketQueues.Broadcast` | src/host.c:271-287 | After sending to every connected peer the packet is destroyed exactly if nobody holds it. |
| `Packets.PacketQueues.Reset` | src/peer.c:250-281 | All queues of a peer are emptied, other queues stay, and just the packets without a holder left are destroyed. |
| `Bandwidth.SharesFit` | src/host.c:359-363 | At the common throttle the rounded shares of the open peers stay within the bandwidth left. |
| `Bandwidth.RateExactly` | src/host.c:345-345 | A rate times a duration, cut to 32 bits, is what it seems to be if and only if the product fits. |
| `Bandwidth.FixedKeepsLevel` | src/host.c:368-396 | Fixing a peer to its own bandwidth takes less than its share, underflows nothing, and keeps what is left sufficient for the rest. |
| `Bandwidth.Host.FixPass` | src/host.c:357-397 | A pass fixes every peer that would get more than its own bandwidth, and if it asks for another there are fewer peers left. |
| `Bandwidth.RoundEnds` | src/host.c:356-422 | At the end every connected peer is limited by its own bandwidth or by the common throttle within it, and together they stay within the budget, not counting limits raised to 1. |
| `Bandwidth.RoundIsBest` | src/host.c:359-409 | The common throttle is the largest that fits: 32 if all data fit the host's rate, and otherwise the largest t for which t/32 of all data, without what is promised to the peers limited by their own rates, fits that rate without the same. |
| `Bandwidth.LimitsAreBest` | src/host.c:371-420 | A peer limited by its own rate gets the largest throttle that keeps it within, but at least 1; every other gets the common one and stays within its own rate; totals start anew and throttles are cut to the limits. |
| `Bandwidth.Host.ThrottleOutgoing` | src/host.c:343-422 | The 32-bit loops end and leave the peers settled, with the host's outgoing budget kept and no throttle lower than it must be, as the two members above say. |
| `Bandwidth.FillRises` | src/host.c:434-436 | The common incoming limit only rises from pass to pass. |
| `Bandwidth.LimitIsLargest` | src/host.c:434-456 | The common limit is the largest that fits: what slower peers send and the limit for each of the others is within the host's incoming bandwidth, and a limit of one more would not be. |
| `Bandwidth.Host.GrantIncoming` | src/host.c:424-473 | Each peer is told the smaller of its own rate and the largest common limit that fits, and together they stay within the host's incoming bandwidth; a host without a limit tells everybody 0. |
| `Bandwidth.Host.BandwidthThrottle` | src/host.c:323-475 | Once an interval, and only with connected peers, both halves are done as stated, the interval starts anew and the request to recalculate is taken back; otherwise the peers are left alone. |
| `Lifecycle.EventsFollowConnect` | src/protocol.c:58-115 | In an orderly log every RECEIVE, and every DISCONNECT of an accepted peer, follows a CONNECT with nothing but received packets in between. |
| `Lifecycle.CountsChange` | src/peer.c:283-305 | Changing one peer changes the two counts by that peer's part. |
| `Lifecycle.Host.constructor` | src/host.c:125-147 | A new host has all peers free, and its counters and its empty log agree with that. |
| `Lifecycle.Host.ChangeState` | src/protocol.c:34-44 | Every change of state keeps connectedPeers and bandwidthLimitedPeers equal to the peers they count. |
| `Lifecycle.Host.Reset` | src/peer.c:307-362 | A reset frees the peer and keeps counters and log in agreement. |
| `Lifecycle.Host.NotifyConnect` | src/protocol.c:117-136 | Gives a CONNECT event now or leaves the peer to be announced later. |
| `Lifecycle.Host.NotifyDisconnect` | src/protocol.c:138-158 | A connection never announced and not asked for ends silently; any other ends with a DISCONNECT event, now or later. |
| `Lifecycle.Host.HostConnect` | src/host.c:191-262 | A free peer starts to connect at the application's request. |
| `Lifecycle.Host.HandleConnect` | src/protocol.c:295-449 | A free peer is taken for a remote request and waits for its acknowledgement. |
| `Lifecycle.Host.HandleVerifyConnect` | src/protocol.c:1001-1066 | An answer that agrees completes the application's own attempt; one that does not turns the peer into a zombie. |
| `Lifecycle.Host.HandleAcknowledge` | src/protocol.c:971-997 | An acknowledgement moves the peer on only if it is for the command its state waits for. |
| `Lifecycle.Host.PeerDisconnect` | src/peer.c:417-449 | A connected peer is asked to disconnect, one not yet connected is reset, one already ending is left alone. |
| `Lifecycle.Host.PeerDisconnectNow` | src/peer.c:393-415 | The peer is free at once, and no event is given. |
| `Lifecycle.Host.PeerDisconnectLater` | src/peer.c:462-472 | A connected peer with something to send disconnects later, any other as usual. |
| `Lifecycle.Host.HandleDisconnect` | src/protocol.c:872-902 | A remote disconnect leads to acknowledging, to a zombie or to a reset, by state. |
| `Lifecycle.Host.AcknowledgeDisconnect` | src/protocol.c:1401-1405 | Once the acknowledgement of a remote disconnect goes out, the peer is a zombie to be reported. |
| `Lifecycle.Host.HandleBandwidthLimit` | src/protocol.c:821-856 | A new rate of a connected peer keeps bandwidthLimitedPeers right. |
| `Lifecycle.Host.DispatchPeer` | src/protocol.c:58-115 | A peer taken from the dispatch queue gives the CONNECT, RECEIVE or DISCONNECT event its state calls for, and none otherwise. |
| `List.Insert` | src/list.c:20-32 | Inserting before a position puts the node there and keeps the ring linked both ways. |
| `List.Remove` | src/list.c:34-41 | Removing a node closes the ring over it. |
| `List.Move` | src/list.c:43-58 | A run moves from one ring to a place in another, and both are rings. |
| `List.Size` | src/list.c:60-71 | The walk counts the elements without the sentinel. |

## Left out

- Compression.RangeCoder.Decompress: only for streams that never lead past the last slot of the root, as no compressed stream does; `Ppm.LostExactly` is the exact condition. Other malformed streams, which fail inside the loop, are covered.
- Compression.RangeCoder.LocateByte: the same; for streams that lead past the root's slots neither bounds nor termination are stated.
- Compression.RangeCoder.Compress: buffers after the first must not be empty, because the loop reads a byte after moving on by one buffer; the lengths handed in must not exceed the output buffer.
- ReceiveChannel.Channel.QueueIncomingCommand: the numbers of a packet must not overlap those of other queued packets, which `EndToEnd.DeliveryIsClear` proves of every honest sender.
- ReceiveChannel.Channel.HandleSendFragment: the same, and the buffer of a new packet starts with fixed contents where the code leaves it unset.
- EndToEnd.HandleCommand: for a CONNECTED peer; a peer in DISCONNECT_LATER acknowledges data it discards, and totalWaitingData is only an upper bound of what waits.
- ChannelOrder.Channel.QueueIncoming: sequenced unreliable numbers are positive, as the sender makes them; the wrap of unreliable numbers does not arise, because the sender turns to reliable commands before it.
- ChannelOrder.Channel.CompleteFragment: counts fragments only; the checks of the unreliable fragment handler, its bits for repeated fragments and the copy of the bytes are those of the reliable one and are not repeated.
- ChannelRuns.HandedOverInOrder: copies arrive at most nine windows behind and less than 2^16 numbers ahead; unsequenced packets are in no order, and `Unsequenced` is about their copies.
- ChannelOrder.Channel.DispatchReliable: a dispatch moves the channel on by at most nine windows; `Acceptance.DispatchIsNear` proves seven of every run.
- SendLoop.Host.SendOutgoingCommands: without the statistics of lost packets; a peer that is given up stops sending, and the emptying of its queues is in `Lifecycle` and `Packets`. A peer in DISCONNECT_LATER queues one DISCONNECT when it has drained, once, and a peer whose DISCONNECT is acknowledged becomes a zombie: both are in `Lifecycle` instead.
- Sending.Peer.SendPass: needs that the next ping would not join a throttled run, the failed property above.
- Sending.Peer.CheckTimeouts: giving up leaves the queues as they are at that moment; powers of two are unbounded where the code shifts a 32-bit 1, so more than 32 attempts are not modelled as the code has them.
- Sending.Peer.DropRun: requires that the run carries packets; `Packing.QueuedSendable` gives the exact condition.
- Packets.PacketQueues.DropThrottled: requires that every command of the run carries a packet, for the same reason.
- Sender.DeliveredInOrder: pings and other commands of no channel are queued, sent and acknowledged, but what the receiver does with them is not modelled.
- SymbolTree.DecodeWalkMisses: says nothing about the table, which the decoder does not use again after a miss.
- Bandwidth.Host.BandwidthThrottle: rates are cut to 32 bits as in the code, but the data totals must add up within 32 bits and each must leave room for the factor 32 of the throttle; no epoch may equal the current time beforehand.
- Bandwidth.Host.ThrottleOutgoing: the same.
- Lifecycle.Host.DispatchPeer: any peer may be taken; membership in the dispatch queue and its flag are not modelled, and the code lets them differ when a peer still queued is reset.
- Lifecycle.Host.HandleConnect: starts when a free peer has been found; the checks before, and the negotiated channels, mtu and window, are not modelled.
- Lifecycle.Host.HandleVerifyConnect: whether the answer agrees with the request is a parameter.
- Datagram.UnpackInvertsPack: without compression and checksum; the handlers are a parameter that says which commands are accepted.
- Unsequenced.QueuedAtMostOnce: assumes arrivals at most 32768 groups behind the base and less than 65536 ahead; `Unsequenced.CopyQueuedExactly` says what happens behind.
- Range coder options that are compiled out (`ENET_CONTEXT_EXCLUSION`), and the setup of the coder as a host's compressor.
- Round-trip time estimation, the packet throttle's adjustment and throttle configuration: local arithmetic.
- `SendWindow.Windows16` is used by no other class: `Sending.Peer` tests the set of numbers in flight, which `SendWindow.Windows16.Blocked` proves to be the test on the bitmask.
- The lists are sequences in every class; `List` proves the linked rings on their own and is used by no queue.
- Sockets, clocks, randomness, CRC-32, byte order, callbacks and failing allocation: the network is a set of steps, times are parameters, allocation succeeds.
- Reading the 64 window words of the unsequenced bitmap as words: it is an array of 1024 bits.
