# gRPC, verified in parts

A Dafny model of the parts of gRPC whose correctness rests on an argument over many steps, and the
proofs of what those parts promise. `dafny verify dfyconfig.toml` checks everything.

| file | what it models |
|---|---|
| `ProducerConsumerQueue.dfy` | the bounded queue over a mutex and two condition variables, as interleaved statements of any number of threads |
| `AtomicFetchAdd.dfy` | fetch-and-add by compare-and-swap, as interleaved loads and swaps |
| `CallOps.dfy` | the op slots of the C++ layer, how a set of them becomes a batch, and who frees which buffer |
| `ServerHandlers.dfy` | the synchronous server streams and the five method handlers |
| `AsyncStreams.dfy` | the asynchronous streams of both sides, and the synchronous client: when initial metadata are issued |
| `AsyncGreeter.dfy` | the self-reproducing call objects of the asynchronous example server |
| `HpackTable.dfy` | the dynamic table of HPACK and the decoder's ring buffer |
| `HpackBinary.dfy`, `HpackBinaryCoders.dfy` | the base64 and Huffman coding of binary header values, and their coders |
| `HpackCompressor.dfy` | the HPACK encoder against that decoder, over whole connections |
| `JobScheduler.dfy` | the test job scheduler and its result cache |
| `PortServer.dfy` | the test port allocator |
| `RouteGuideDb.dfy` | the parser of the route guide example |
| `CodegenStrings.dfy`, `IncludeGuards.dfy` | string helpers of the code generators |
| `MergeJson.dfy` | merging of build files |
| `Common.dfy` | types that several of these share |

Threads, processes, clocks, the network, user callbacks, hash functions and the C core are arbitrary:
they are inputs, nondeterministic choices, or steps that may come in any order. Code that changes
objects in place is a class with methods proved against functions on values. Concurrent code is a
state machine, and its results hold in every state of every run.

## Where the code and its promises part

- A protobuf message that fails to serialize leaves a non-null buffer behind, contrary to the comment
  at include/grpc++/impl/proto_utils.h:46-48, because the buffer is created before it is filled. The
  reply then carries a message under an error status (`ServerHandlers.ReplyMessageIffOk` says exactly
  when, `MessageUnderErrorStatus` is the instance).
- A synchronous `Read` answers with the status from before `FinalizeResult`, so it returns true for a
  message that did not parse. `ServerHandlers.ReadAgreesIff` is the exact condition, `ReadOfGarbage` the
  instance.
- A synchronous `Write` whose message does not serialize returns with the buffer still in its local set,
  which nobody finalizes: the buffer leaks, and only then (`CallOps.WriteReleasesIff`).
- A slot that is armed again before its batch went out loses the block it owned. An op set whose batches are
  left alone in flight releases every block exactly once if and only if that does not happen
  (`CallOps.RoundsReleaseExactlyOnce`).
- A set that is armed again while its batch is in flight can lose one buffer and free another that is still being
  sent (`CallOps.OverlappingWritesMixBuffers`); a second fill sends the message again without its flags
  (`CallOps.RefillingSendsAgain`).
- An asynchronous server that issues a write before the previous one has completed sends the initial
  metadata twice. `AsyncStreams.AtMostOnceIffNoRepeat` is the exact condition, on the calls alone.
- The core asks every client for one `RECV_INITIAL_METADATA`. A synchronous client issues it if and
  only if it reads a message or waits for the metadata.
- The client-streaming handler aborts if and only if the application sends the initial metadata itself.
- The HPACK encoder writes the value of a "-bin" header in base64 and Huffman form, but says so in the
  length byte only when the key is spelled out. When the key goes by its index the decoder takes the
  Huffman bytes for base64. `HpackBinary.MisreadIff` shows that it then never reads the value that was
  sent, unless that is empty: some values are an error (0x00), others come out changed (0xdd as 0x82,
  `MisreadExamples`). `HpackCompressor.MisflaggedIff` says exactly when the flag is wrong,
  `ArrivesIffNoKeyByIndex` that every header arrives if and only if no such key with a non-empty value
  goes by its index, `OnceMeansClean` that this does not happen if no such key is used twice, and
  `SecondValueIsMisread` that for every such key and any two values the second arrives only if it is empty.
- When a failure stops a run of jobs, the scheduler collects the last job it killed and not the one
  that failed. The counters still come out right.
- The route guide parser also takes a last entry that ends in `},`, or in any character and `]`, and
  treats a text of at most one visible character as an empty list.

## Model

| member | source | states |
|---|---|---|
| `ProducerConsumerQueue.Ring.constructor` | include/grpc/support/sync.h:228-234 | a new queue is empty |
| `ProducerConsumerQueue.Ring.Put` | include/grpc/support/sync.h:260-261 | the contents grow by x at the end, whatever the position of head |
| `ProducerConsumerQueue.Ring.Take` | include/grpc/support/sync.h:302-304 | returns and removes the oldest element |
| `ProducerConsumerQueue.WindowShrinks` | include/grpc/support/sync.h:302-304 | moving head by one modulo the capacity drops exactly the first element |
| `ProducerConsumerQueue.ReplayConserves` | include/grpc/support/sync.h:209-210 | the reference queue: what went in is what came out followed by what is still there, and never more than the capacity |
| `ProducerConsumerQueue.OutsideStep` | include/grpc/support/sync.h:244-308 | a thread without the mutex changes neither the queue nor what the holder knows |
| `ProducerConsumerQueue.NextKeepsInv` | include/grpc/support/sync.h:244-308 | every statement of every thread keeps the invariant |
| `ProducerConsumerQueue.BoundedFifo` | include/grpc/support/sync.h:244-308 | every interleaving is a legal history of an atomic bounded FIFO: appended values are the removed ones followed by the ring contents, in order |
| `ProducerConsumerQueue.NoLostWakeup` | include/grpc/support/sync.h:252-304 | a thread asleep and not notified waits for something that is really missing, although broadcasts happen only at the edges |
| `ProducerConsumerQueue.ResultsAreTruthful` | include/grpc/support/sync.h:265-308 | what a call returns is what it did to the queue, for success, a full queue and an expired deadline |
| `ProducerConsumerQueue.NoDeadlock` | include/grpc/support/sync.h:244-308 | unless every thread is idle or rightly asleep some thread can move without a new call, a deadline or a spurious wake, and appenders and removers never sleep at the same time |
| `AtomicFetchAdd.WordAbsorbs` | include/grpc/support/atm_win32.h:103 | wrapping each sum gives the same word as wrapping once at the end |
| `AtomicFetchAdd.AtomicSum` | include/grpc/support/atm_win32.h:97-105 | the reference, an atomic fetch-and-add, holds the sum of the deltas modulo the word |
| `AtomicFetchAdd.NextKeepsInv` | include/grpc/support/atm_win32.h:97-123 | every load, swap and failed swap keeps the log an atomic execution |
| `AtomicFetchAdd.CellIsSumOfDeltas` | include/grpc/support/atm_win32.h:97-123 | in every interleaving the calls in the order of their swaps are an atomic execution, and the cell is the start value plus all completed deltas |
| `AtomicFetchAdd.ReturnsValueReplaced` | include/grpc/support/atm_win32.h:97-123 | each call returns the cell value that its swap replaced |
| `AtomicFetchAdd.RetryMeansProgress` | include/grpc/support/atm_win32.h:101-103 | a call goes back to its load only if another call succeeded in between |
| `CallOps.CallOpSet.FillOps` | include/grpc++/impl/call.h:511-518 | the batch holds the op of each armed slot, in template order |
| `CallOps.CallOpSet.FinalizeResult` | include/grpc++/impl/call.h:520-529 | each slot finishes in turn and passes the status on |
| `CallOps.Call.PerformOps` | src/cpp/common/call.cc:85-90 | one more batch is started |
| `CallOps.Call.Pluck` | src/cpp/common/completion_queue.cc:74-83 | the set is finalized with what the core delivered, which decides the blocks freed and handed over, and the answer is the status of the core |
| `CallOps.FinishOpBalances` | include/grpc++/impl/call.h:147-480 | finishing a slot disarms it and frees or hands over each block it owns and each that arrived for it, and no other block, unless the slot was finished or armed since its batch went out; and what happens to blocks then |
| `CallOps.ArmTakes` | include/grpc++/impl/call.h:147-224 | a setter makes its slot responsible for exactly the blocks it brings |
| `CallOps.FinalizeBalances` | include/grpc++/impl/call.h:520-529 | the same for a whole set, as multisets of blocks |
| `CallOps.ApplyKeepsBalance` | include/grpc++/impl/call.h:499-535 | arming, filling and completing, in any order and with batches overlapping, keep: acquired + released again = freed + handed over + still owned + lost; after a completion nothing is owned |
| `CallOps.RoundsReleaseExactlyOnce` | include/grpc++/impl/call.h:147-535 | that balance over any history at all; after a completion every slot is disarmed and the next batch would be empty; and if no batch is touched in flight, every block is released exactly as often as it was acquired, lent buffers never, if and only if no arming overwrote a slot that owned a block and none is owned now |
| `CallOps.TidyPlay` | include/grpc++/impl/call.h:499-535 | in a history that leaves batches in flight alone nothing is released twice, only a second arming loses a block, and what a batch in flight uses is still owned |
| `CallOps.OverlappingWritesMixBuffers` | include/grpc++/support/async_stream.h:423-432 | two overlapping writes: the first buffer is lost, and the second is freed while the batch that sends it is in flight |
| `CallOps.FlagsArePerMessage` | include/grpc++/impl/call.h:183-202 | in any history that leaves batches in flight alone, and with their flags, the messages sent, waiting and replaced before they went out are exactly the messages armed, counted |
| `CallOps.RefillingSendsAgain` | include/grpc++/impl/call.h:193-202 | otherwise a message is sent twice, the second time without its flags |
| `CallOps.MessagesInOrder` | include/grpc++/impl/call.h:183-202 | for a set with one send slot: the set behaves as a box that holds the last message armed, so what is not replaced goes out in the order of arming, once and with its own flags |
| `CallOps.RearmingLeaks` | include/grpc++/impl/call.h:214-219 | the smallest history that loses a buffer |
| `CallOps.WriteReleasesIff` | include/grpc++/support/sync_stream.h:395-406 | a synchronous write releases every block if and only if its message serializes |
| `CallOps.FinalStatus` | include/grpc++/impl/call.h:245-262 | success if and only if the core succeeded and each awaited message came and parsed; got_message if and only if a buffer came while all was well |
| `ServerHandlers.ServerStream.SendInitialMetadata` | include/grpc++/support/sync_stream.h:377-385 | aborts if and only if the metadata are sent; else exactly they go out |
| `ServerHandlers.ServerStream.ReadMessage` | include/grpc++/support/sync_stream.h:387-392 | for every completion of the batch: true if and only if the core succeeded with a buffer, whether it parses or not |
| `ServerHandlers.ReadAgreesIff` | include/grpc++/impl/call.h:245-262 | the answer of Read agrees with the final status of its batch if and only if a buffer that arrived parses |
| `ServerHandlers.ReadOfGarbage` | src/cpp/common/completion_queue.cc:74-83 | a buffer that does not parse: Read says true, the final status is false |
| `ServerHandlers.ServerStream.WriteMessage` | include/grpc++/support/sync_stream.h:395-406 | nothing is sent if the message does not serialize, and its buffer stays behind; else one batch, with the metadata if they are due, and the answer of the core |
| `ServerHandlers.ServerStream.Perform` | include/grpc++/support/sync_stream.h:377-406 | what any one call of the application sends |
| `ServerHandlers.ServerStream.Run` | include/grpc++/support/sync_stream.h:309-411 | any script of calls: when it aborts, and that it sends the metadata once, first, then its messages in order |
| `ServerHandlers.SendReply` | include/grpc++/impl/rpc_service_method.h:93-101 | one batch with metadata, possibly a message, and a status |
| `ServerHandlers.SendStatus` | include/grpc++/impl/rpc_service_method.h:165-171 | the last batch holds the status, and the metadata if nobody sent them |
| `ServerHandlers.FinishStream` | include/grpc++/impl/rpc_service_method.h:165-171 | what the last batch adds to everything sent before |
| `ServerHandlers.RunUnary` | include/grpc++/impl/rpc_service_method.h:83-102 | a single batch, for a request that does not parse as well |
| `ServerHandlers.RunClientStreaming` | include/grpc++/impl/rpc_service_method.h:122-137 | aborts if and only if the application sends the metadata; else all that is sent is one reply in the last batch |
| `ServerHandlers.RunServerStreaming` | include/grpc++/impl/rpc_service_method.h:155-172 | metadata once, the messages in order, the status once and in the last batch, for every script that does not abort |
| `ServerHandlers.RunBidiStreaming` | include/grpc++/impl/rpc_service_method.h:191-203 | the same for bidirectional streams |
| `ServerHandlers.RunUnknown` | include/grpc++/impl/rpc_service_method.h:215-229 | metadata and UNIMPLEMENTED, nothing else |
| `ServerHandlers.StreamsFollowProtocol` | README.md:103 | a stream so described speaks the abstract protocol |
| `ServerHandlers.RepliesFollowProtocol` | README.md:103 | a reply speaks the abstract protocol, whatever its status |
| `ServerHandlers.ReplyMessageIffOk` | include/grpc++/impl/rpc_service_method.h:96-99 | a reply has a message if and only if the application succeeded, and that agrees with the status sent if and only if the message serialized |
| `ServerHandlers.MessageUnderErrorStatus` | src/cpp/proto/proto_utils.cc:49-54 | the disagreement, as a concrete batch |
| `AsyncStreams.AsyncStream.Perform` | include/grpc++/support/async_stream.h:97-455 | any call on a stream object is a step of the state machine, and aborts exactly when that does |
| `AsyncStreams.AsyncStream.Complete` | include/grpc++/impl/call.h:520-529 | so is a completion |
| `AsyncStreams.ServerAborts` | include/grpc++/support/async_stream.h:292-455 | a server stream aborts on a second request for the metadata and on a write whose message does not serialize, and on no finish |
| `AsyncStreams.LoadedMetadata` | include/grpc++/support/async_stream.h:114-140 | a set goes out with metadata if and only if this call asked while they were due, or the slot was still armed |
| `AsyncStreams.StepKeeps` | include/grpc++/support/async_stream.h:97-455 | each step adds the metadata ops it should, sets the flag when it should, and leaves the other sets alone |
| `AsyncStreams.MetadataCount` | include/grpc++/support/async_stream.h:97-455 | the exact number of metadata ops of any run: one if any call asked, plus one for each time the set of the first such call was issued again before its completion |
| `AsyncStreams.DisciplineMeansNoRepeat` | include/grpc++/support/async_stream.h:97-455 | a caller that waits for a set before using it again never does that |
| `AsyncStreams.MetadataAtMostOnce` | include/grpc/grpc.h:267-292 | so such a caller sees the metadata exactly once if it asked and never otherwise |
| `AsyncStreams.AtMostOnceIffNoRepeat` | include/grpc/grpc.h:267-292 | in any run, at most once if and only if the set of the first call that asked is not issued again before its completion |
| `AsyncStreams.OverlappingWritesSendMetadataTwice` | include/grpc++/support/async_stream.h:423-432 | the smallest run that breaks the promise |
| `AsyncStreams.ServerMetadataFirst` | include/grpc++/support/async_stream.h:292-455 | whatever is called in whatever order, a server sends nothing before its initial metadata |
| `AsyncStreams.AsyncFinishReceivesMetadataOnce` | include/grpc++/support/async_unary_call.h:80-88 | an asynchronous client that finishes has asked for the metadata exactly once |
| `AsyncStreams.SyncClientReceivesMetadataIff` | include/grpc++/support/sync_stream.h:116-307 | a synchronous client asks for them if and only if it read or waited |
| `AsyncGreeter.ServerImpl.constructor` | examples/cpp/helloworld/greeter_async_server.cc:168-170 | nothing exists before the loop starts |
| `AsyncGreeter.ServerImpl.Spawn` | examples/cpp/helloworld/greeter_async_server.cc:89-105 | a new object asks for a call and is the only one that does |
| `AsyncGreeter.ServerImpl.TakeTag` | examples/cpp/helloworld/greeter_async_server.cc:162 | the tag of an event belongs to a live object |
| `AsyncGreeter.ServerImpl.Reply` | examples/cpp/helloworld/greeter_async_server.cc:112-120 | the object answers the name it was asked with and has one outstanding tag again |
| `AsyncGreeter.ServerImpl.Proceed` | examples/cpp/helloworld/greeter_async_server.cc:95-126 | an event does to the objects what the reference does: for the waiting one a successor and an answer, for any other a deletion; each live object keeps exactly one outstanding tag |
| `AsyncGreeter.ServerImpl.HandleRpcs` | examples/cpp/helloworld/greeter_async_server.cc:153-166 | for every sequence of events: aborts if and only if one is not ok, and otherwise handles all of them; up to then one object waits, all others finish, the requests that arrived are answered once and in order, and no event reached a deleted object |
| `AsyncGreeter.EventsBalance` | examples/cpp/helloworld/greeter_async_server.cc:106-125 | each event is answered and adds an object, or removes one |
| `HpackTable.EvictedIsLongestSuffix` | src/core/transport/chttp2/hpack_table.c:187-190 | eviction keeps the newest entries, as many as fit |
| `HpackTable.AddedFits` | src/core/transport/chttp2/hpack_table.c:164-200 | no table is larger than its limit |
| `HpackTable.Table.constructor` | src/core/transport/chttp2/hpack_table.c:110-120 | a new table has the static entries only |
| `HpackTable.Table.Find` | src/core/transport/chttp2/hpack_table.c:133-148 | an index finds in the ring what it means in the reference: static entries, then dynamic ones from the newest |
| `HpackTable.Table.Evict1` | src/core/transport/chttp2/hpack_table.c:151-162 | the oldest entry goes |
| `HpackTable.Table.EvictAll` | src/core/transport/chttp2/hpack_table.c:181-184 | an oversized entry empties the table |
| `HpackTable.Table.MakeRoom` | src/core/transport/chttp2/hpack_table.c:187-190 | evicts just enough |
| `HpackTable.Table.Append` | src/core/transport/chttp2/hpack_table.c:192-199 | the ring has a free cell, and the entry becomes the newest |
| `HpackTable.Table.Add` | src/core/transport/chttp2/hpack_table.c:164-200 | the ring does what the reference does, for entries of every size |
| `HpackBinary.JoinedIff` | src/core/transport/chttp2/hpack_parser.c:1174-1212 | six-bit groups are read as a value if and only if they are the groups of that value: no other spelling is accepted |
| `HpackBinary.Base64RoundTrip` | src/core/transport/chttp2/bin_encoder.c:65-105 | a value spelled in base64 is read as it was |
| `HpackBinary.NotItself` | src/core/transport/chttp2/bin_encoder.c:49-60 | a byte that starts with the Huffman code of a letter is not that letter |
| `HpackBinary.PlusIsIllegal` | src/core/transport/chttp2/bin_encoder.c:49-60 | the one code of more than eight bits puts a byte into the output that is not in base64 |
| `HpackBinary.MisreadIff` | src/core/transport/chttp2/hpack_parser.c:1097-1212 | for every value: its Huffman bytes read as base64 give the value back if and only if it is empty |
| `HpackBinary.MisreadExamples` | src/core/transport/chttp2/hpack_parser.c:600-619 | one value that is refused and one that comes out as another |
| `HpackBinary.OwnerOfCode` | src/core/transport/chttp2/bin_encoder.c:49-60 | the codes can be told apart by the bits they start with |
| `HpackBinary.LetterwiseStream` | src/core/transport/chttp2/hpack_parser.c:1215-1239 | the codes of any letters, filled up with ones, are read as those letters |
| `HpackBinary.CompressedRoundTrip` | src/core/transport/chttp2/bin_encoder.c:174-225 | a value that is flagged as Huffman coded is read as it was |
| `HpackBinaryCoders.HuffOut.FlushSome` | src/core/transport/chttp2/bin_encoder.c:151-156 | the word gives up whole bytes and keeps the bits that are left, whatever has been shifted out at its top |
| `HpackBinaryCoders.HuffOut.Add1` | src/core/transport/chttp2/bin_encoder.c:167-172 | the output grows by the code of the letter |
| `HpackBinaryCoders.HuffOut.Add2` | src/core/transport/chttp2/bin_encoder.c:158-165 | the output grows by two codes, and 32 bits are enough for them |
| `HpackBinaryCoders.HuffOut.Finished` | src/core/transport/chttp2/bin_encoder.c:215-222 | the last bits are filled up with ones |
| `HpackBinaryCoders.EncodeAndCompress` | src/core/transport/chttp2/bin_encoder.c:174-225 | the loop and its tail write the codes of the base64 letters of the input |
| `HpackBinaryCoders.OutputFits` | src/core/transport/chttp2/bin_encoder.c:174-181 | the output fits into the space reserved for it, so the assert holds |
| `HpackBinaryCoders.Base64Parser.Take` | src/core/transport/chttp2/hpack_parser.c:1106-1166 | each character goes into the buffer or completes three bytes |
| `HpackBinaryCoders.Base64Parser.AppendString` | src/core/transport/chttp2/hpack_parser.c:1097-1171 | a piece is refused if and only if it has an illegal character; padding is skipped anywhere |
| `HpackBinaryCoders.Base64Parser.FinishStr` | src/core/transport/chttp2/hpack_parser.c:1174-1212 | accepts if and only if the characters so far are a whole value without bits to spare |
| `HpackBinaryCoders.ParseBinary` | src/core/transport/chttp2/hpack_parser.c:1251-1284 | a value is read the same in whatever pieces it arrives |
| `HpackCompressor.Decoder.Parse` | src/core/transport/chttp2/hpack_parser.c:711-810 | the header an instruction stands for, by the table as it is |
| `HpackCompressor.Decoder.Receive` | src/core/transport/chttp2/hpack_parser.c:622-629 | the table after the header, and that an error jams the parser |
| `HpackCompressor.ValueArrivesIff` | src/core/transport/chttp2/hpack_parser.c:1241-1330 | a value arrives if and only if it is flagged as it is coded or is empty |
| `HpackCompressor.PointsStore` | src/core/transport/chttp2/stream_encoder.c:219-272 | whatever place an entry takes, every entry that looks new still points at itself in the decoder's table, even when the 32-bit index wraps |
| `HpackCompressor.HitIsRight` | src/core/transport/chttp2/stream_encoder.c:391-444 | a hit newer than the tail is in the decoder's table, at that place |
| `HpackCompressor.CountedOk` | src/core/transport/chttp2/stream_encoder.c:149-162 | the counts of the popularity filter never overflow a byte, and the sum stays theirs |
| `HpackCompressor.DynIdxPoints` | src/core/transport/chttp2/stream_encoder.c:366-369 | the wire index of an element in the table points at it, in 32-bit arithmetic |
| `HpackCompressor.PlanSays` | src/core/transport/chttp2/stream_encoder.c:372-456 | the instruction chosen for a header stands for it, given the decoder's table |
| `HpackCompressor.MisflaggedIff` | src/core/transport/chttp2/stream_encoder.c:294-326 | its value is misflagged if and only if the key is binary, the header is not in the table and its key is |
| `HpackCompressor.NextOk` | src/core/transport/chttp2/stream_encoder.c:185-275 | every step keeps the picture of the decoder's table: it changes as the decoder changes it |
| `HpackCompressor.NoAbort` | src/core/transport/chttp2/stream_encoder.c:200-206 | no connection aborts before it has sent 2^32 - 1 headers |
| `HpackCompressor.ReadsWhatItSays` | src/core/transport/chttp2/hpack_parser.c:1293-1330 | the decoder reads what an instruction stands for if and only if its value is not misflagged or is empty |
| `HpackCompressor.ArrivesIff` | src/core/transport/chttp2/stream_encoder.c:185-456 | for every sequence of headers and every choice the hashes make: every header arrives if and only if no value that is not empty is misflagged, and then the two tables stay equal |
| `HpackCompressor.ArrivesIffNoKeyByIndex` | src/core/transport/chttp2/stream_encoder.c:416-444 | the exact condition: every header arrives if and only if no binary key with a non-empty value is sent by its index |
| `HpackCompressor.IndexedKeyWasSent` | src/core/transport/chttp2/stream_encoder.c:416-444 | a key sent by index was sent before |
| `HpackCompressor.OnceMeansClean` | src/core/transport/chttp2/stream_encoder.c:416-444 | nothing is misflagged if no binary key is used twice |
| `HpackCompressor.SecondValueIsMisread` | src/core/transport/chttp2/stream_encoder.c:294-326 | for every binary key and any two values: the second is misflagged, and it arrives if and only if it is empty |
| `HpackCompressor.Compressor.constructor` | src/core/transport/chttp2/stream_encoder.c:480-485 | a new encoder is that of the model |
| `HpackCompressor.Compressor.IncFilter` | src/core/transport/chttp2/stream_encoder.c:149-162 | counts one more header, and halves all counts with their sum when one is full |
| `HpackCompressor.Compressor.Drop1` | src/core/transport/chttp2/stream_encoder.c:201-211 | drops the element the decoder evicts; aborts exactly when the tail overflows, and the other asserts hold |
| `HpackCompressor.Compressor.MakeRoom` | src/core/transport/chttp2/stream_encoder.c:200-212 | drops just what the decoder evicts |
| `HpackCompressor.Compressor.Append` | src/core/transport/chttp2/stream_encoder.c:213-217 | the assert on the element count holds, and the ring of sizes stays that of the table |
| `HpackCompressor.Compressor.AddElem` | src/core/transport/chttp2/stream_encoder.c:185-275 | does what the model does, and aborts when that does |
| `HpackCompressor.Compressor.Encode` | src/core/transport/chttp2/stream_encoder.c:372-456 | sends the instruction of the model and takes its step |
| `HpackCompressor.Transfer` | src/core/transport/chttp2/stream_encoder.c:575-624 | both ends as objects send and receive what the model says, for every sequence of headers |
| `JobScheduler.ParseOfDump` | tools/run_tests/run_tests.py:539-544 | parsing a dump gives the cache back, in whatever order it was written |
| `JobScheduler.TestCache.ShouldRun` | tools/run_tests/run_tests.py:525-532 | false if and only if results are used and the last success had this hash |
| `JobScheduler.TestCache.Finished` | tools/run_tests/run_tests.py:534-537 | a success is recorded, and every entry in memory and on file stays one of a job that passed |
| `JobScheduler.TestCache.Dump` | tools/run_tests/run_tests.py:539-541 | each entry once |
| `JobScheduler.TestCache.Parse` | tools/run_tests/run_tests.py:543-544 | later entries win |
| `JobScheduler.TestCache.Save` | tools/run_tests/run_tests.py:546-549 | the file is a dump of the cache |
| `JobScheduler.TestCache.MaybeLoad` | tools/run_tests/run_tests.py:551-554 | loading keeps the cache sound, and a saved cache comes back |
| `JobScheduler.Job.State` | tools/run_tests/jobset.py:190-226 | the next state by the exit code that the process reports at this poll and by the clock then, one reading for the poll, and the cache learns of a success with its hash |
| `JobScheduler.Jobset.constructor` | tools/run_tests/jobset.py:237-251 | an empty set of jobs satisfies the invariant |
| `JobScheduler.Jobset.KillAll` | tools/run_tests/jobset.py:293-294 | every running job is killed, and the loop variable ends on one of them |
| `JobScheduler.Jobset.Cancelled` | tools/run_tests/jobset.py:313-320 | the answer of the check counts, cancellation is final, and then no job is left running |
| `JobScheduler.Jobset.Ended` | tools/run_tests/jobset.py:289-296 | a failure is counted once even though the job collected is another; with stop_on_failure it cancels |
| `JobScheduler.Jobset.PollUntilEnded` | tools/run_tests/jobset.py:286-288 | polls up to the first job that ended and leaves the others unasked |
| `JobScheduler.Jobset.FindEnded` | tools/run_tests/jobset.py:286-288 | every job is in the state its process reported, and if none has ended all were polled |
| `JobScheduler.Jobset.FindDead` | tools/run_tests/jobset.py:286-296 | one polling pass: the job to collect, or proof that all run and have time left |
| `JobScheduler.Jobset.AwaitDead` | tools/run_tests/jobset.py:284-311 | the waiting loop ends, for every behaviour of the processes |
| `JobScheduler.Jobset.AwaitAny` | tools/run_tests/jobset.py:284-311 | however long it waits, every started job stays accounted for: its state, its process, its polls, the cause of a cancellation; and every reading of the clock |
| `JobScheduler.Jobset.Collect` | tools/run_tests/jobset.py:297-299 | counters, states, passes and cache entries stay those of the jobs |
| `JobScheduler.Jobset.Reap` | tools/run_tests/jobset.py:282-311 | exactly one job is collected, never a running one |
| `JobScheduler.Jobset.AwaitSlot` | tools/run_tests/jobset.py:255-258 | a free slot, or a cancellation |
| `JobScheduler.Jobset.BinHash` | tools/run_tests/jobset.py:259-268 | the remembered hash is the hash of the files |
| `JobScheduler.Jobset.ShouldRun` | tools/run_tests/jobset.py:259-272 | skipped if and only if the cache holds this identity with this hash |
| `JobScheduler.Jobset.Spawn` | tools/run_tests/jobset.py:273-279 | one more job runs, within the limit, with a process of its own and from the time that the clock shows |
| `JobScheduler.Jobset.Launch` | tools/run_tests/jobset.py:259-280 | a job is started once, or skipped because one with its identity passed with the same files |
| `JobScheduler.Jobset.Start` | tools/run_tests/jobset.py:253-280 | started, skipped if and only if the cache holds it then, or refused because of a cancellation; fewer than the limit of earlier jobs are not collected |
| `JobScheduler.Jobset.Finish` | tools/run_tests/jobset.py:322-326 | terminates with every started job collected; true if and only if nothing was cancelled and none failed |
| `JobScheduler.StartAll` | tools/run_tests/jobset.py:357-359 | every spec is accounted for, unless cancelled, and skipped if and only if the cache held it |
| `JobScheduler.TracedRecord` | tools/run_tests/run_tests.py:534-537 | the entries of the cache stay those it had at first and those of the jobs that succeeded |
| `JobScheduler.SkipsNext` | tools/run_tests/jobset.py:259-272 | so a spec is skipped if and only if its entry was there at first or an earlier job with its identity had succeeded |
| `JobScheduler.Run` | tools/run_tests/jobset.py:342-360 | each spec was started once, in order, or skipped, unless cancelled; skipped if and only if the cache had it at first or an earlier job with its identity had succeeded; cancelled if and only if a check said yes or, with stop_on_failure, a job did not succeed, and otherwise a check was made at every spec and at the end; true if and only if not cancelled and every process reported exit code 0; every job started by the clock, was polled between all waits, and was killed only by a cancellation or because its time was up at its last poll; the clock was read for nothing else |
| `PortServer.AllocationKeeps` | tools/run_tests/port_server.py:73-81 | one request keeps the pool sorted, free of ports in use and within 101, what is in use up to date, and grants spaced |
| `PortServer.GrantsAreSpaced` | tools/run_tests/port_server.py:54-81 | in every run, for every clock that does not go back and whatever can be bound: no port is granted twice within ten minutes |
| `PortServer.RefillFinds` | tools/run_tests/port_server.py:54-70 | a refill offers the lowest free ports that can be bound, 101 of them or all, and forgets only grants that are old enough |
| `PortServer.FailsIff` | tools/run_tests/port_server.py:76-78 | a request fails if and only if the pool is empty and every port that can be bound was granted less than ten minutes before the reading of the clock that the scan makes for it |
| `PortServer.FailsIffInUse` | tools/run_tests/port_server.py:54-78 | the same by the state after the refill: every port that can be bound is still in use |
| `PortServer.Allocator.constructor` | tools/run_tests/port_server.py:47-48 | nothing is granted |
| `PortServer.Allocator.ScanPort` | tools/run_tests/port_server.py:58-70 | one port: in use, forgotten, offered or not bindable |
| `PortServer.Allocator.RefillPool` | tools/run_tests/port_server.py:54-70 | the loop is the scan of the model, with its early end |
| `PortServer.Allocator.AllocatePort` | tools/run_tests/port_server.py:73-81 | takes the step of the model |
| `PortServer.Serve` | tools/run_tests/port_server.py:87-99 | the server answers every sequence of requests as the model does, and goes on after a failure |
| `RouteGuideDb.Parser.constructor` | examples/cpp/route_guide/helper.cc:76-84 | white space is gone, and the opening bracket decides about failure |
| `RouteGuideDb.Parser.Match` | examples/cpp/route_guide/helper.cc:131-135 | true if and only if the text goes on with the prefix; the cursor moves in any case |
| `RouteGuideDb.Parser.ReadLong` | examples/cpp/route_guide/helper.cc:137-144 | reads to the next comma or brace and no further |
| `RouteGuideDb.Parser.MatchAll` | examples/cpp/route_guide/helper.cc:94 | matching prefixes in a row is matching their concatenation |
| `RouteGuideDb.Parser.TryParseOne` | examples/cpp/route_guide/helper.cc:90-122 | one entry by the grammar, and the cursor stays in the text while nothing failed |
| `RouteGuideDb.Parser.ReadLatitude` | examples/cpp/route_guide/helper.cc:97-102 | the latitude and what follows it |
| `RouteGuideDb.Parser.ReadLongitude` | examples/cpp/route_guide/helper.cc:103-107 | the longitude and what follows it |
| `RouteGuideDb.Parser.ReadName` | examples/cpp/route_guide/helper.cc:108-121 | the name up to the next quote, and how an entry may end |
| `RouteGuideDb.ParseDb` | examples/cpp/route_guide/helper.cc:155-174 | terminates on every text without reading past its end, with the outcome of the grammar |
| `RouteGuideDb.EntryParses` | examples/cpp/route_guide/helper.cc:90-122 | every well-formed entry is read as it was written |
| `RouteGuideDb.ParsedEntry` | examples/cpp/route_guide/helper.cc:90-122 | whatever is accepted is a well-formed entry |
| `RouteGuideDb.BodyParses` | examples/cpp/route_guide/helper.cc:164-171 | every well-formed list is read |
| `RouteGuideDb.ParsedBody` | examples/cpp/route_guide/helper.cc:164-171 | whatever is accepted is a well-formed list |
| `RouteGuideDb.AcceptedLanguage` | examples/cpp/route_guide/helper.cc:155-174 | a list comes out if and only if the text is a document of the grammar, and then it is the list of its entries |
| `RouteGuideDb.NumberReadsBack` | examples/cpp/route_guide/helper.cc:143 | every 32-bit number survives printing and reading |
| `RouteGuideDb.RoundTrip` | examples/cpp/route_guide/helper.cc:71-73 | any non-empty list of features, printed with white space added or removed anywhere, is read back, with white space deleted from names |
| `CodegenStrings.StringReplace` | src/compiler/generator_helpers.h:62-76 | terminates for every non-empty pattern and replaces from the left, never inside inserted text; or only the first occurrence |
| `CodegenStrings.ReplaceAll` | src/compiler/ruby_generator_string-inl.h:78-86 | the same outcome as StringReplace |
| `CodegenStrings.Round` | src/compiler/generator_helpers.h:66-73 | a round of either loop leaves the final outcome as it was |
| `CodegenStrings.ReplacedSwapsTheGlue` | src/compiler/generator_helpers.h:62-76 | the text is stretches glued by the pattern, the result the same stretches glued by the replacement, and no stretch contains the pattern |
| `CodegenStrings.ReplacedConcat` | src/compiler/generator_helpers.h:62-76 | one character can be replaced in the parts of a text separately |
| `CodegenStrings.Tokenize` | src/compiler/generator_helpers.h:83-101 | terminates with the text cut at every delimiter |
| `CodegenStrings.TokensRebuild` | src/compiler/generator_helpers.h:83-101 | tokens joined by the delimiter give the text back, and none contains it |
| `CodegenStrings.ChunksAreTokens` | src/compiler/generator_helpers.h:62-101 | for one character the stretches between occurrences are the tokens |
| `CodegenStrings.Split` | src/compiler/ruby_generator_string-inl.h:49-57 | the tokens without an empty last one |
| `CodegenStrings.FullNameSplits` | src/compiler/cpp_generator_helpers.h:58-59 | a full name is that of the outermost message followed by the nesting path |
| `CodegenStrings.NameParts` | src/compiler/cpp_generator_helpers.h:61-65 | package and top-level name joined by colons, then the nested names |
| `CodegenStrings.ClassName` | src/compiler/cpp_generator_helpers.h:51-66 | for every depth of nesting: namespaces, the outermost name, and an underscore and name for each level |
| `IncludeGuards.FilenameIdentifier` | src/compiler/cpp_generator.cc:69-83 | every byte stands for itself or as underscore and two hex digits |
| `IncludeGuards.IdentifierReadsBack` | src/compiler/cpp_generator.cc:69-83 | it has a left inverse |
| `IncludeGuards.IdentifierAlphabet` | src/compiler/cpp_generator.cc:69-83 | only letters, digits and underscores come out |
| `IncludeGuards.GuardsAreDistinct` | src/compiler/cpp_generator.cc:103-104 | two files share an include guard if and only if they have the same name |
| `MergeJson.MergeFields` | tools/buildgen/bunch.py:57-63 | objects merge field by field, and fail exactly when a field does |
| `MergeJson.Associative` | tools/buildgen/bunch.py:56-67 | both groupings of three documents fail together or give the same document |
| `MergeJson.MergeInto` | tools/buildgen/bunch.py:56-67 | in whatever order the keys come it fails exactly when the merge does, leaves the merge on success, and on failure a document each part of which is untouched, merged or half merged |
| `MergeJson.FirstCommentStays` | tools/buildgen/bunch.py:60 | every "#" comment of the first document stays, at the end of every path |

## Left out

- `CallOps.FlagsArePerMessage`: histories that leave a batch in flight alone; `CallOps.RefillingSendsAgain` shows why.
- `CallOps.MessagesInOrder`: the same.
- `HpackCompressor.OnceMeansClean`: one way only, because a repeated key is harmless once its first use was evicted or never added; `ArrivesIffNoKeyByIndex` is the exact condition.
- `HpackCompressor.Decoder.Parse`: an index that is not in the table is an error here, where the source follows a null pointer; the encoder never sends one (`PlanSays`).
- `HpackCompressor.Compressor.Encode`: does not model reference counts, or the check that reserved headers come first.
- `MergeJson.MergeInto`: returns the changed document; that `dst` may share parts with `add` is not captured.
- `AsyncGreeter.ServerImpl.HandleRpcs`: one server thread.
- `JobScheduler.Run`: the number of slots is at least one (with none the scheduler waits for ever), and files do not change while it runs.
- `HpackBinary.LetterwiseStream`: reads by the code itself, where the parser has tables for it, and knows the codes of the base64 letters only; no other letter is sent in Huffman form.
- Bytes of HPACK instructions other than values, HTTP/2 framing and flow control.
- Memory order of the atomics: loads and swaps are sequentially consistent.
- Messages printed by the scheduler, XML reports, temporary files and signals.
- `JobSpec.__cmp__`, and the set and sort behaviour built on it.
- `StripSuffix`, `StripProto` and the one-shot `Replace` of the generators: single branches.
- The templates of the code generators, the protobuf printer and descriptors beyond their names.
- Distances, route summaries and the client examples.
- Locales other than C for `isspace` and `isalnum`.
