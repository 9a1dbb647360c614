# Verified models of the robot's protocols

Dafny models of the four parts of this repository in which bytes, bits or tokens travel from one end to another, and
proofs that they arrive:

- **MAVLink** (`inc/mavlink`): the X.25 checksum, message finalisation, the byte-at-a-time parser, and the manager that
  splits protobuf messages into fragments and puts them together again. The parser and the message are classes that
  refine a step function; the theorems are about that function on every byte stream.
- **Infrared** (`arduino/ir/IRrecvDemo`): six senders, the line between, the timer interrupt that records run lengths,
  and the decoders in the order in which `decode` tries them. The main theorem goes from the sender's data word to the
  decoder's result.
- **libconfig** (`chicken/utils/libconfig`): the LALR automaton with the generated tables themselves, the semantic
  actions on a memory of settings with parent pointers, the printer, lookup by path, and the mutators. The main theorems
  are that the parser follows no null pointer on any input, and that a configuration that was written is read back.
- **libwebsockets** (`chicken/utils/libwebsockets`): the frame writer that masks in place, partial sends, the receiving
  state machine on both sides, the poll table with its hash lookup, and base64.

Modules begin with `Mavlink`, `Crc` or `Fragment`, with `Ir`, with `Config`, or with `Ws`, after the part they model.
Code that updates state is modelled by classes and in-place methods; each is proved against a function on values, and
the lemmas about whole runs are about those functions. Bytes and words are integers with their width made explicit
(`Bits`), and exclusive or is defined on them bit by bit.

What comes from outside is a parameter: the samples of the infrared line, what the socket takes of a send, the masking
key, the handle of a new event, and the contents of memory that the C code does not initialise (`junk`).

## Model

| member | source | states |
|---|---|---|
| CrcPolynomial.AccumulateIsBitSerial | inc/mavlink/checksum.h:28-38 | the shift-and-xor step equals eight bit-serial divisions by the reflected CCITT polynomial of the checksum xored with the byte |
| CrcStep.AccumulateInjective | inc/mavlink/checksum.h:28-38 | for a fixed byte, different checksums stay different |
| CrcStep.PairDetected | inc/mavlink/checksum.h:28-38 | two different pairs of adjacent bytes never lead from one checksum to one checksum |
| Crc.BurstDetected | inc/mavlink/checksum.h:28-84 | for buffers of any length, a change confined to one byte or two adjacent bytes always changes the checksum |
| Crc.CrcCalculate | inc/mavlink/checksum.h:58-66 | the loop folds the step over the buffer from the initial value |
| Crc.CrcAccumulateBuffer | inc/mavlink/checksum.h:78-84 | the loop folds the step over the buffer from a given checksum, so that a checksum may be continued |
| MavlinkMessages.FinalizedWellFormed | inc/mavlink/mavlink_helpers.h:68-92 | a finalised message has the marker, the given header, its payload unchanged, and check bytes that match it and the CRC_EXTRA byte; nothing else of its buffer changes |
| MavlinkMessages.MavlinkMessage.Finalize | inc/mavlink/mavlink_helpers.h:68-92 | the method writes exactly the finalised message and advances the channel's sequence number modulo 256 |
| MavlinkMessages.MavlinkMessage.ToSendBuffer | inc/mavlink/mavlink_helpers.h:174-184 | the copy is the wire form of the message; the rest of the target stays as it was |
| MavlinkMessages.WireDetermines | inc/mavlink/mavlink_helpers.h:174-184 | two messages with the same wire form agree in header, checksum and payload |
| MavlinkParser.StepSound | inc/mavlink/mavlink_helpers.h:247-437 | every call keeps the parser's invariant; the bytes pending grow by one, restart at a marker, or are delivered as the wire form of a well-formed message |
| MavlinkParser.StepFirstCheck | inc/mavlink/mavlink_helpers.h:369-390 | the first check byte is kept when it matches; otherwise the parser rests, or starts again when that byte is a start marker |
| MavlinkParser.StepSecondCheck | inc/mavlink/mavlink_helpers.h:392-417 | a message is received exactly when the second check byte matches, and then it is well formed and its wire form is what was pending with that byte |
| MavlinkChannel.ParserChannel.ParseChar | inc/mavlink/mavlink_helpers.h:247-437 | the in-place parser refines the step function; the message is copied out exactly on reception, and a drop is reported exactly when a check byte fails without starting a new frame |
| MavlinkStream.StreamSoundness | inc/mavlink/mavlink_helpers.h:247-437 | on any byte stream from rest, when a message is delivered it is well formed and the bytes just consumed end with its wire form |
| MavlinkStream.DeliveriesDisjoint | inc/mavlink/mavlink_helpers.h:247-437 | the bytes of a delivered message lie wholly after those of every earlier delivery |
| MavlinkStream.FrameDelivery | inc/mavlink/mavlink_helpers.h:247-437 | for bytes of the shape of a frame, exactly one message is delivered if the last two are the checksum of the rest, and none otherwise |
| MavlinkStream.RoundTrip | inc/mavlink/mavlink_helpers.h:174-437 | from rest, any sequence of well-formed messages is delivered one per frame, with the same contents, whatever bytes the payloads contain |
| MavlinkStream.Resynchronises | inc/mavlink/mavlink_helpers.h:247-437 | from every state, 262 bytes without a start marker bring the parser to rest after at most one delivery, and all messages after them arrive |
| MavlinkStream.CorruptionRejected | inc/mavlink/mavlink_helpers.h:247-437 | under X.25, a frame whose body is changed in one byte or two adjacent ones, other than marker, length and id, delivers nothing |
| Fragments.HeaderRoundTrip | inc/mavlink/mavlink_protobuf_manager.hpp:113-119 | the extended header is read back from any buffer that begins with its little-endian encoding |
| Fragments.FragmentMessage | inc/mavlink/mavlink_protobuf_manager.hpp:73-140 | there are as many fragments as the data needs, each with its offset, slice, sequence number and finalised base message |
| Fragments.FragmentsPartition | inc/mavlink/mavlink_protobuf_manager.hpp:73-140 | the payloads of the first i fragments join to exactly the bytes before the next one: nothing is lost, repeated or reordered |
| Reassembly.ProtobufManager.CacheFragment | inc/mavlink/mavlink_protobuf_manager.hpp:142-280 | the method refines the queue function, and reports exactly whether the fragment passed the checks |
| Reassembly.QueuesStayChains | inc/mavlink/mavlink_protobuf_manager.hpp:142-280 | whatever fragments arrive in whatever order, each queue is empty or contiguous from offset 0 without a final fragment |
| Reassembly.ChainOffsets | inc/mavlink/mavlink_protobuf_manager.hpp:208-245 | the offset expected next in a queue is the number of bytes it holds, in 32-bit arithmetic |
| Reassembly.StoreCompletesChain | inc/mavlink/mavlink_protobuf_manager.hpp:142-280 | a message changes only when a final fragment closes a chain of its type, and then to the joined payloads |
| Reassembly.NextInOrder | inc/mavlink/mavlink_protobuf_manager.hpp:142-280 | the next fragment of a stream extends its queue, and the last one empties it and completes the message |
| Reassembly.Reassembles | inc/mavlink/mavlink_protobuf_manager.hpp:142-280 | when the fragments of a message arrive in order, however interleaved with other streams, exactly the original bytes become available |
| Reassembly.ProtobufManager.GetMessage | inc/mavlink/mavlink_protobuf_manager.hpp:282-297 | the available message of the lowest type code is handed out, and only its flag is cleared |
| FragmentAcceptance.EmittedAccepted | inc/mavlink/mavlink_protobuf_manager.hpp:307-331 | fragments sent with extra byte 0 pass the validity check if and only if CRC_EXTRA of message 255 is 0 or 0x91 |
| FragmentAcceptance.EmittedAcceptable | inc/mavlink/mavlink_protobuf_manager.hpp:307-331 | with CRC_EXTRA 0, as in the table, everything a sender splits meets what Reassembles asks |
| IrProtocol.RegisterIsProduct | arduino/ir/IRrecvDemo/IRremote.cpp:93-106 | repeated left shifts of a register are multiplication by a power of two modulo its width |
| IrProtocol.NextBit | arduino/ir/IRrecvDemo/IRremote.cpp:93-106 | testing the top bit and shifting left meets the binary digits of the word from the first to the last |
| IrProtocol.DigitsValue | arduino/ir/IRrecvDemo/IRremote.cpp:488-500 | reading the last n digits back gives the word modulo 2^n |
| IrProtocol.OwnWindow | arduino/ir/IRrecvDemo/IRremoteInt.h:97-182 | the 25 percent tolerance covers an error of one whole tick for every width from 200 microseconds on |
| IrSend.IRsend.SendNEC | arduino/ir/IRrecvDemo/IRremote.cpp:71-90 | the pulses sent are header, the bits of the word and the stop mark, appended to what was sent before |
| IrSend.IRsend.SendSony | arduino/ir/IRrecvDemo/IRremote.cpp:91-107 | the same for the last nbits digits in Sony's pulses |
| IrSend.IRsend.SendRC5 | arduino/ir/IRrecvDemo/IRremote.cpp:124-144 | the same for RC5's start bits and half bits |
| IrSend.IRsend.SendRC6 | arduino/ir/IRrecvDemo/IRremote.cpp:146-175 | the same for RC6, whose bit at index 3 is twice as wide |
| IrSend.IRsend.SendPanasonic | arduino/ir/IRrecvDemo/IRremote.cpp:176-202 | the 16 address bits, tested at 0x8000, are followed by the 32 data bits |
| IrSend.IRsend.SendJVC | arduino/ir/IRrecvDemo/IRremote.cpp:203-224 | the header is left out exactly for a repeat |
| IrReceive.IRparams.Tick | arduino/ir/IRrecvDemo/IRremote.cpp:312-377 | the interrupt handler refines the step function, and never writes outside the raw buffer |
| IrReceive.RunLengthCode | arduino/ir/IRrecvDemo/IRremote.cpp:312-377 | for every sequence of samples on which the timer does not overflow while recording, the recorded widths and the timer expand to exactly what was heard; after the end, to a beginning of it |
| IrReceive.ExactIfTimerKept | arduino/ir/IRrecvDemo/IRremote.cpp:312-377 | from the first mark on, the code is exact after every sample if and only if the timer does not overflow while recording: an overflow is never made good |
| IrReceive.TimerKeptIfMarksShort | arduino/ir/IRrecvDemo/IRremote.cpp:312-377 | the timer does not overflow if and only if no mark of 65536 samples is heard while recording |
| IrReceive.ShortMarksKeepTimer | arduino/ir/IRrecvDemo/IRremote.cpp:312-377 | in particular it does not on any samples, however many, without such a mark |
| IrReceive.OverflowReached | arduino/ir/IRrecvDemo/IRremote.cpp:312-377 | 65535 further samples of a first mark bring the timer to its limit, and whatever is heard next, the code is wrong |
| IrReceive.FrameRecorded | arduino/ir/IRrecvDemo/IRremote.cpp:312-377 | a frame between two silences ends in STOP with the gap and the width of every run in the buffer |
| IrReceive.StopKeeps | arduino/ir/IRrecvDemo/IRremote.cpp:312-381 | what was recorded stays, whatever is heard, until the receiver is resumed |
| IrBiphase.BodyUnitRuns | arduino/ir/IRrecvDemo/IRremote.cpp:124-175 | whatever the bits, the merged runs of a bi-phase frame are one to three units long, and every bit brings at least one |
| IrBiphase.BodyLevels | arduino/ir/IRrecvDemo/IRremote.cpp:124-175 | merging loses nothing: sampled once per unit the merged runs are the half bits in order |
| IrBiphase.ReadLevel | arduino/ir/IRrecvDemo/IRremote.cpp:694-731 | reading levels from measured runs gives the levels heard one by one, and space after them |
| IrBiphase.MoreToCome | arduino/ir/IRrecvDemo/IRremote.cpp:733-817 | the decoders' loop goes on exactly as long as a mark is to come |
| IrRecv.IRrecv.GetRClevel | arduino/ir/IRrecvDemo/IRremote.cpp:694-731 | the method with its two cursors refines the level reader |
| IrRecv.IRrecv.Decode | arduino/ir/IRrecvDemo/IRremote.cpp:389-455 | the decoders are tried in their order on a finished recording; the first result is reported, and a recording that none knows is thrown away |
| IrPulseTrip.NecDecoded | arduino/ir/IRrecvDemo/IRremote.cpp:458-504 | every measured NEC frame decodes to its 32 bits |
| IrPulseTrip.SonyDecoded | arduino/ir/IRrecvDemo/IRremote.cpp:506-557 | every measured Sony frame decodes to its bits, and is not taken for NEC |
| IrBiphaseTrip.Rc5Decoded | arduino/ir/IRrecvDemo/IRremote.cpp:733-766 | every measured RC5 frame of ten bits or more decodes to its bits, and no decoder before takes it |
| IrBiphaseTrip.Rc6Decoded | arduino/ir/IRrecvDemo/IRremote.cpp:768-816 | every measured RC6 frame decodes to its bits, although its header mark is in the windows of other protocols |
| IrPulseTrip.PanasonicDecoded | arduino/ir/IRrecvDemo/IRremote.cpp:818-849 | every measured Panasonic frame decodes to address and data |
| IrPulseTrip.JvcDecoded | arduino/ir/IRrecvDemo/IRremote.cpp:851-898 | every measured JVC frame decodes to its 16 bits |
| IrPulseTrip.JvcRepeatDecoded | arduino/ir/IRrecvDemo/IRremote.cpp:851-898 | a JVC repeat is reported as a repeat, whatever its bits |
| IrEndToEnd.EveryMessageArrives | arduino/ir/IRrecvDemo/IRremote.cpp:71-898 | every message of every sender, measured to within one tick per run with marks 100 microseconds long and spaces short, is decoded to exactly that message |
| IrEndToEnd.RepeatArrives | arduino/ir/IRrecvDemo/IRremote.cpp:203-898 | a JVC message sent as a repeat, heard under the same conditions, is reported as a repeat whatever its data |
| IrEndToEnd.MessagesUnambiguous | arduino/ir/IRrecvDemo/IRremote.cpp:71-898 | what is heard determines the message up to bits its protocol does not send |
| ConfigAutomaton.DecideIsNext | chicken/utils/libconfig/grammar.c:527-612 | the packed tables decide in every state and for every token class as the automaton written out does |
| ConfigAutomaton.NoRecovery | chicken/utils/libconfig/grammar.c:527-612 | no table entry is for the error token, so the loop's error recovery never resumes a parse |
| ConfigAutomaton.ReductionsLower | chicken/utils/libconfig/grammar.c:527-612 | every reduction leads to a state of lower rank, so the parser terminates |
| ConfigParser.StepSound | chicken/utils/libconfig/grammar.c:1270-1435 | every turn of the loop keeps the stack a path of the automaton, and shifts a token or lowers the rank |
| ConfigGrammar.AcceptedIsSentence | chicken/utils/libconfig/grammar.c:1270-1773 | every token sequence the parser accepts is a sentence of the grammar |
| ConfigBuilder.ActFollows | chicken/utils/libconfig/grammar.c:1439-1745 | a semantic action that comes where it is expected follows no null or dangling pointer and keeps the memory a tree |
| ConfigSafety.NoNullPointer | chicken/utils/libconfig/grammar.c:1270-1773 | on no token sequence at all does the parser follow a null pointer; the parent pointer is as deep below the root as brackets are open, and at the root on acceptance |
| ConfigPrintParse.PrintedIsParsed | chicken/utils/libconfig/grammar.c:1270-1773 | what the printer writes is accepted, with the actions that build it, if and only if the stack stays below YYMAXDEPTH; otherwise memory is reported exhausted |
| ConfigRebuild.Rebuilt | chicken/utils/libconfig/grammar.c:1439-1745 | those actions on an empty configuration build exactly the tree that was printed |
| ConfigRoundTrip.PrintsExactly | chicken/utils/libconfig/libconfig.c:131-355 | a configuration prints exactly if and only if it has no floating-point setting and none without a type |
| ConfigRoundTrip.WrittenIsReadBack | chicken/utils/libconfig/libconfig.c:514-628 | the configuration read back has the same names, order, types, formats and values, if and only if the parser's stack is high enough for its nesting |
| ConfigRoundTrip.DeepIsNotReadBack | chicken/utils/libconfig/libconfig.c:514-628 | lists nested YYMAXDEPTH deep or deeper in a configuration are written, and not read back |
| ConfigRoundTrip.WrittenDiffers | chicken/utils/libconfig/libconfig.c:594-628 | different configurations are written differently |
| ConfigWriter.WriteValue | chicken/utils/libconfig/libconfig.c:131-355 | the recursive printer over memory writes the tokens of the tree that the setting stands for |
| ConfigWriter.WriteSetting | chicken/utils/libconfig/libconfig.c:594-616 | a setting is its name, the value and a semicolon, and the root only its members |
| ConfigApi.Config.Read | chicken/utils/libconfig/libconfig.c:514-575 | reading replaces the configuration by what the token sequence builds; it succeeds exactly if the parser accepts and no action aborts, and leaves a valid configuration either way |
| ConfigApi.ParseContext.Perform | chicken/utils/libconfig/grammar.c:1439-1745 | the in-place action refines the action on values, and changes nothing when it aborts |
| ConfigApi.Config.Write | chicken/utils/libconfig/libconfig.c:620-628 | the tokens written are those of the configuration's members |
| ConfigApi.NameCompare | chicken/utils/libconfig/libconfig.c:91-113 | the result is zero exactly if the names agree up to their first path separators, and its sign orders them there |
| ConfigApi.ValidateName | chicken/utils/libconfig/libconfig.c:493-510 | accepts exactly the names that begin with a letter or star and go on with letters, digits, stars, underscores and hyphens |
| ConfigApi.Config.ListSearch | chicken/utils/libconfig/libconfig.c:374-399 | finds the first child whose name agrees |
| ConfigApi.Config.Add | chicken/utils/libconfig/libconfig.c:1484-1506 | adds a setting as the last child exactly under the checks on the parent and the name, or changes nothing; called whenever it does not follow a null name |
| ConfigInvariant.AddInvariant | chicken/utils/libconfig/libconfig.c:1484-1506 | adding keeps the memory a well-typed tree if and only if a child added to an array is a scalar of the type of its elements, and one added to a group has a name, which is not checked |
| ConfigInvariant.NullNameFollowed | chicken/utils/libconfig/libconfig.c:374-399 | a null name is followed exactly when the group it is added to has children |
| ConfigInvariant.ArrayTakesGroup | chicken/utils/libconfig/libconfig.c:1484-1506 | one configuration in which an array is given a group |
| ConfigInvariant.SetElemInvariant | chicken/utils/libconfig/libconfig.c:1219-1414 | setting or appending an element keeps the memory a well-typed tree |
| ConfigApi.Config.SetElem | chicken/utils/libconfig/libconfig.c:1219-1414 | a negative index appends, if the type fits, and another sets in place; otherwise nothing changes |
| ConfigApi.Config.SetValue | chicken/utils/libconfig/libconfig.c:937-1077 | a scalar is stored in a setting of its type, of no type yet, or with conversion when that is on, rounded to single precision where the code does; otherwise nothing changes |
| ConfigSettings.ConversionExact | chicken/utils/libconfig/libconfig.c:937-998 | conversion of an integer to floating point keeps it if and only if it has at most 24 significant bits |
| ConfigApi.Config.SetFormat | chicken/utils/libconfig/libconfig.c:1080-1090 | exactly integer settings take the two formats, and nothing else of the setting changes |
| ConfigInvariant.RemoveInvariant | chicken/utils/libconfig/libconfig.c:1510-1555 | removal takes out a whole subtree and leaves a tree without dangling pointers |
| ConfigApi.Config.Remove | chicken/utils/libconfig/libconfig.c:1510-1529 | removes by name exactly the first agreeing child and all below it, or changes nothing |
| ConfigApi.Config.RemoveElem | chicken/utils/libconfig/libconfig.c:1532-1555 | the same by index |
| ConfigApi.Config.DestroySetting | chicken/utils/libconfig/libconfig.c:422-465 | the recursive destructor frees each setting of the subtree once, and no other |
| ConfigApi.Config.Index | chicken/utils/libconfig/libconfig.c:1558-1576 | the position found is that at which the parent holds the setting; -1 for the root only |
| ConfigLookup.LookupFrom | chicken/utils/libconfig/libconfig.c:1102-1131 | the loop over the path string ends on every string and gives what its specification gives |
| ConfigLookup.LookupWalks | chicken/utils/libconfig/libconfig.c:1102-1131 | the result is where the steps of the path lead, except for a dangling bracket at the end |
| ConfigLookup.BracketGivesRoot | chicken/utils/libconfig/libconfig.c:1102-1131 | a bracket alone gives the root of an empty configuration, although it has no element |
| ConfigLookup.PathLeadsTo | chicken/utils/libconfig/libconfig.c:1102-1131 | the path put together from names and indices leads from each setting above to the setting itself |
| ConfigStrings.WriteString | chicken/utils/libconfig/libconfig.c:209-254 | a string is written between quotes with its special characters escaped |
| ConfigStrings.ScanString | chicken/utils/libconfig/scanner.c:967-1030 | the scanner's rules inside quotes refine the scanning function |
| ConfigStrings.LiteralIsScanned | chicken/utils/libconfig/scanner.c:967-1030 | scanning what was printed gives the string back, whatever bytes it has and whatever follows |
| ConfigStrings.StringBuffer.Append | chicken/utils/libconfig/strbuf.c:19-34 | text is appended in place; the block grows only when the terminator no longer fits, by less than one unit more than needed |
| ConfigList.List.Add | chicken/utils/libconfig/libconfig.c:359-370 | an element is appended to the chunked array, which is reallocated exactly when a chunk is full |
| ConfigList.List.RemoveAt | chicken/utils/libconfig/libconfig.c:403-418 | the gap is closed in order |
| WsWriter.PutFrame | chicken/utils/libwebsockets/output.c:296-407 | the payload in the buffer becomes the frame around it, header in front and masked in place; no other byte changes |
| WsRaw.Sender.IssueRaw | chicken/utils/libwebsockets/output.c:72-195 | every byte accepted is on the wire or pending, in order and once, whatever the socket takes; the result counts what was accepted, or for pending bytes what was sent, all of them when they are gone, or -1 |
| WsRaw.Sender.KeepRest | chicken/utils/libwebsockets/output.c:163-194 | what was not taken is kept in the connection's buffer, which grows only when it is too small |
| WsWriter.DisplacedIsWrong | chicken/utils/libwebsockets/output.c:298-330 | what a client makes of a close frame with a status is never the frame with that status |
| WsSend.Connection.WrittenAsIntended | chicken/utils/libwebsockets/output.c:296-407 | the frame put into the buffer is the one intended if and only if it is not a client's close frame with a status |
| WsSend.Connection.Write | chicken/utils/libwebsockets/output.c:227-491 | exactly the first k bytes of the frame, or of its rest, are accepted and the others still stand in the buffer; the stream stays whole if and only if the frame is taken whole, or it is a data frame and the socket did not fail |
| WsSend.Connection.WriteMore | chicken/utils/libwebsockets/output.c:380-491 | the rest of a frame goes out without header or masking, and the stream stays whole if and only if it is the part that is owed |
| WsSend.Connection.Flush | chicken/utils/libwebsockets/service.c:43-57 | what is pending goes first, and accepts nothing new; the connection is to be closed exactly when the socket fails, or nothing is left and it was being flushed for closing |
| WsReceiver.Receiver.RxByte | chicken/utils/libwebsockets/parsers.c:551-999 | the receiver that fills its buffer in place refines the step function of both sides |
| WsHeader.HeaderRun | chicken/utils/libwebsockets/client-parser.c:3-192 | all three forms of a header, with or without a key, leave the receiver with exactly the frame's fields |
| WsStream.FrameReceived | chicken/utils/libwebsockets/parsers.c:551-999 | after a frame the receiver is at rest again, and has delivered, answered or closed as the frame asks |
| WsStream.StreamReceived | chicken/utils/libwebsockets/client-parser.c:3-406 | any sequence of frames is received frame by frame |
| WsStream.ChunksJoin | chicken/utils/libwebsockets/parsers.c:794-973 | the chunks handed up join to the payload; each fits the buffer, and only the last reports nothing remaining |
| WsStream.EmptyLengthSwallows | chicken/utils/libwebsockets/parsers.c:684-830 | after a data frame without key whose 16-bit or 64-bit length is zero, a server takes exactly the next 2^64 bytes for its payload |
| WsConversation.Delivered | chicken/utils/libwebsockets/output.c:227-491 | whatever partial sends a whole stream went through, once all is on the wire the other end receives its frames one by one |
| WsConversation.PayloadDelivered | chicken/utils/libwebsockets/parsers.c:794-973 | the data handed up for a frame is the data that was written |
| WsConversation.TornControl | chicken/utils/libwebsockets/output.c:409-450 | after a control frame of which the socket took a part, the receiver is not at rest: it waits for bytes that are never sent |
| WsPollModel.LookupFinds | chicken/utils/libwebsockets/lws-plat-win.c:39-49 | lookup by hash finds a live connection of the socket, and nothing else, unless it is lost |
| WsPollModel.InsertedConsistent | chicken/utils/libwebsockets/lws-plat-win.c:52-64 | appending to the chain of its hash keeps table and lookup in step, and loses no connection |
| WsPollModel.LostConnection | chicken/utils/libwebsockets/lws-plat-win.c:52-64 | a connection that its chain has no room for is lost to the lookup |
| WsPollModel.RemovedConsistent | chicken/utils/libwebsockets/pollfd.c:52-104 | moving the last entry into the gap and dropping the socket from its chain keeps them in step; none is lost afterwards if and only if no other was before |
| WsPoll.Bucket.Delete | chicken/utils/libwebsockets/lws-plat-win.c:67-86 | the first entry of the socket is taken out and those behind move down |
| WsPoll.PollTable.FromFd | chicken/utils/libwebsockets/lws-plat-win.c:39-49 | the result is the live connection of the socket; it is null if and only if none of that socket is in its chain |
| WsPoll.PollTable.InsertSocket | chicken/utils/libwebsockets/pollfd.c:3-49 | the connection gets the next entry and an event of its own; it can be looked up if and only if its chain had room |
| WsPoll.PollTable.RemoveSocket | chicken/utils/libwebsockets/pollfd.c:51-104 | the last entry and its event take the place, and the event is closed; a socket above max_fds is refused after the count was lowered; a null pointer is followed if and only if the last connection is lost |
| WsPoll.RefusedRemoval | chicken/utils/libwebsockets/pollfd.c:51-66 | a table with one live connection that is refused, and no longer polled |
| WsPoll.FullChain | chicken/utils/libwebsockets/pollfd.c:3-49 | a table for two in which the second of two sockets of one hash is lost |
| WsPoll.LostCrashes | chicken/utils/libwebsockets/pollfd.c:51-104 | there, taking out the first connection follows a null pointer |
| Base64.EncodeString | chicken/utils/libwebsockets/base64-decode.c:11-49 | the output is the standard encoding with a terminator, or -1 exactly if the buffer is not two characters longer; nothing is written past the size |
| Base64.Shifts | chicken/utils/libwebsockets/base64-decode.c:11-49 | the shifts and masks give the four base-64 digits of three bytes |
| Base64.EncodingLength | chicken/utils/libwebsockets/base64-decode.c:11-49 | four characters for every three bytes begun |
| Base64.DecodeString | chicken/utils/libwebsockets/base64-decode.c:57-106 | the loop writes what the decoding function gives, with a terminator, and nothing past the size |
| Base64.DecodesExactly | chicken/utils/libwebsockets/base64-decode.c:57-106 | decoding inverts encoding if and only if the length is 0 or 2 modulo 3, and what it returns otherwise |

## Where the code falls short

Properties that one would expect and that do not hold of the code, each with its exact condition.

- `ConfigInvariant.AddInvariant`: `config_setting_add` does not check what is added to an array. The configuration stays
  well typed if and only if the parent is no array, or the child is a scalar of the type of the first element.
  `ArrayTakesGroup` gives an array that receives a group.
- `ConfigInvariant.AddInvariant`, `NullNameFollowed`: with a null name for a child of a group, `config_setting_add`
  follows the null pointer if and only if the group has children; otherwise it makes a child without a name.
- `ConfigSettings.ConversionExact`: automatic conversion of an integer to floating point goes through single precision. It
  keeps the number if and only if it has at most 24 significant bits.
- `ConfigLookup.LookupWalks`: a path that ends in an opening bracket alone gives the setting before it when the element
  is missing, instead of nothing; `BracketGivesRoot` gives such a path.
- `ConfigRoundTrip.WrittenIsReadBack`: a configuration can be written that cannot be read: nested so deeply that the
  parser needs YYMAXDEPTH stack entries or more, as `DeepIsNotReadBack` shows.
- `FragmentAcceptance.EmittedAccepted`: the validity check of fragments rejects only if both check bytes differ. So it
  accepts what was finalised with extra byte 0 for a table entry of 0x91 as well as for 0.
- `IrReceive.ExactIfTimerKept`, `TimerKeptIfMarksShort`: the recorded widths expand to what was heard, at all times, if and
  only if the 16-bit timer does not overflow, which it does not if and only if no mark lasts 65536 samples while it is
  recorded. `OverflowReached` gives such a mark; if it ends there, its width is recorded as zero.
- `WsSend.Connection.WrittenAsIntended`, `WsWriter.DisplacedIsWrong`: a client's close frame with a status is wrong. The
  places for key and payload are fixed before the status goes in front of the payload; so half of the key takes the place
  of the status, and masking runs two bytes beyond the payload. It is right if and only if there is no status, or a server
  writes it.
- `WsSend.Connection.Write`, `WsConversation.TornControl`: when the socket takes part of a control frame, its rest is
  neither buffered nor continued. The stream is broken if and only if the part is neither empty nor all, and the other
  end then takes the next frame for the missing bytes. An empty control frame inside a data frame sends nothing and does
  no harm.
- `WsPoll.PollTable.InsertSocket`: a hash chain of max_fds - 1 entries is full; the connection is polled but not found by
  its socket, because the result of the insertion is ignored. It cannot happen while fewer than max_fds - 1 sockets are
  open. `FullChain` gives such a table.
- `WsPoll.PollTable.RemoveSocket`: in a table that has lost a connection so, removal follows a null pointer if and only if
  the lost one is the last entry; `LostCrashes` gives one.
- `WsStream.EmptyLengthSwallows`: a server does not end an unmasked frame whose extended length is zero; the count wraps,
  and the next 2^64 bytes are taken for its payload, the frames that follow included.
- `WsPoll.PollTable.RemoveSocket`: a socket number above max_fds is refused after the count was lowered, so the last
  entry is no longer polled; insertion accepts such a socket. `RefusedRemoval` gives one.
- `Base64.DecodesExactly`: the decoder does not look at the last character. For 1 modulo 3 bytes it adds a zero byte, and
  for a positive multiple of 3 it loses the last one.
- `Base64.EncodeString`: an output buffer that holds the encoding and its terminator exactly is refused; one more
  character is needed.

## Left out

MAVLink:

- the branch of the length state that counts buffer overruns: it needs a message just received, which no call leaves set, or a MAVLINK_MAX_PAYLOAD_LEN below 255
- MAVLINK_CHECK_MESSAGE_LENGTH, which is off
- bit-fields (put_bitfield_n_by_index) and the generated pack and unpack functions of the messages
- protobuf serialisation: a message is its bytes and its type code, which the receiver knows or not
- CorruptionRejected: says nothing of changes to the marker, the length or the id, which change where a frame ends or what its checksum should be

Infrared:

- the hardware: timers, PWM, pins and the blinking LED; the 50 microsecond tick is one step
- an interrupt between the decoder's accesses: the handler does not write the buffer in state STOP, which StopKeeps proves
- sendRaw, sendSharp and sendDISH; the debugging output
- DecodeHash: is proved against its fold, but no property of the hash is claimed
- Decode: Panasonic and JVC are read without a check of the recording's length; the entries beyond it are those of the buffer, as in the code
- the comparison of decodeHash in floating point (times 0.8) is in integers (4 * new < 5 * old and so on)

libconfig:

- characters to tokens other than strings: white space, comments, numbers and names (the flex tables); booleans and names are tokens, so a setting called "true" is not excluded by lexing
- PrintsExactly: floating-point settings are excluded from the round trip, because printing rounds them
- include directives, source positions, locale, file input and output, indentation; failing allocation
- SetValue: a floating-point number that is converted to an integer is taken to be in its range, beyond which C leaves the result undefined; numbers in double precision are real numbers
- LookupFrom: numbers in brackets beyond the range of int, where atoi is undefined, are as if unbounded
- PathLeadsTo: indices up to the largest int, for the same reason
- List: stands alone. The children in Config are a sequence that Create and RemoveAt change as Add and RemoveAt of the list do
- the getters with conversion, hooks and destructors
- the growth of the parser's stack from YYINITDEPTH, which only copies it

libwebsockets:

- HTTP, the handshake, HTTP/2, SSL, extensions, timeouts and the event loop itself
- Write: the obsolete draft versions of the protocol; opcodes other than text, binary, continuation, ping, pong and close
- Write: when the socket takes less than the header of a data frame, the code gives the caller a negative count, as the contract states; what a caller makes of it is not modelled
- Write: a client's payload is shorter than 2^31 - 4 bytes, beyond which the masking loop's counter overflows
- WriteFrame: the length field of 64 bits, as on LP64 platforms
- StreamReceived: the receive buffer holds at least 125 bytes, the largest control payload
- StreamReceived: a client reads the mask bit as part of a short length, so masked frames are not Acceptable to it; servers take frames with and without a mask, as the code does
- user callbacks that return nonzero to close a connection
- InsertSocket, RemoveSocket: not from the table that a refused removal leaves, whose count is wrong
- PollTable: of the platform's functions those for Windows, where the hash table is; the callbacks that lock external poll sets
- Base64: the two tables are written as ranges of characters; the decoder's uninitialised quadruple is zeros
