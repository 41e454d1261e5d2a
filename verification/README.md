# Verified models of the dashboard client libraries, the ZooKeeper recipes and the Flink operators

This project models the algorithms of the repository in Dafny and proves what they promise.

* **Shared** (`Text`, `Numerals`, `Runs`): texts and numbers as the framings use them, and runs of a state machine.
* **socket.io and engine.io** (`Json3`, `JsonRoundTrip`, `JsonGrammar`, `JsonAccepts`, `JsonReader`, `Attachments`,
  `PacketHeader`, `PacketCodec`, `PacketStream`, `Wtf8`, `Base64`, `EnginePacket`, `PayloadText`, `PayloadBinary`,
  `WireFormat`, `WriteBuffer`, `WriteBufferProgress`, `WriteBufferEvents`, `NextTick`): the printers and parsers of
  every layer with their round trips, from one code point to the whole stream of packets, JSON against its grammar, the
  formats character by character, and three queues over all runs.
* **Highcharts** (`KdTree`, `Distribute`): nearest-point search against a scan, and label distribution.
* **ZooKeeper recipes** (`ZnodeNames`, `FairLock`, `FairLockReuse`, `LeaderElection`, `ElectionExpiry`): state machines
  over the steps of any number of clients.
* **Flink** (`PatternMatcher`, `TopRows`, `TopN`, `SkewSplit`): incremental operators against declarative
  specifications, and query rewrites that keep the meaning.

Code that changes state step by step is a class or a method with loops, proved equal to a function on values; the
lemmas are about that function, or about all runs of the state machine that it drives.

Some promises hold only under a condition, which the lemmas name exactly:

* JSON loses a member named `__proto__`; attachments do too, and take an object with a truthy `_placeholder` for one
  of their own.
* A header whose data text begins like a number or like a namespace is read back differently.
* A CONNECT packet with a query that has to queue in the manager gets the query twice.
* WTF-8 bytes that spell a surrogate pair as two code points decode, but encode to other bytes.
* `close()` on a socket that connects over polling and holds packets can lose a later packet; a probe that fails after its pong
  leaves the socket unable to send or to close.
* The k-d tree search is wrong for the horizontal distance on two axes, which a chart never asks for: only a direct
  call of `searchKDTree` can.
* A label distribution on a line of negative length keeps all labels but one.
* A lock instance that has waited once does not wait again, whoever holds the lock or is about to; a leader candidate
  that sets its watch too late waits for ever, and nobody leads; a leader that outlives its session goes on leading
  beside the next one.
* Distinct counts over buckets add up only if no user is in two of them.

`dafny verify dfyconfig.toml` checks everything.

## Model

| member | source | states |
|---|---|---|
| JsonRoundTrip.ParseOfStringifyIsExact | doc/案例/实时分析Dashboard/labproject/static/js/socket.io.js:2467-2513 | for every value, indentation and key order, `parse(stringify(v))` is `v` exactly if no member is named `__proto__`, and there is no `undefined`, `ArrayBuffer`, `NaN` or infinity inside |
| JsonRoundTrip.ParseOfStringify | doc/案例/实时分析Dashboard/labproject/static/js/socket.io.js:2339-2464 | what comes back from any value: undefined members and `__proto__` go, the rest becomes `null` or `{}` |
| JsonRoundTrip.ValueRoundTrip | doc/案例/实时分析Dashboard/labproject/static/js/socket.io.js:2683-2763 | lexing and reading the text of a value, with any text after it that ends a number, gives the value and leaves that text unread |
| JsonRoundTrip.QuoteRoundTrip | doc/案例/实时分析Dashboard/labproject/static/js/socket.io.js:2315-2335 | every string of code units, lone surrogates and control characters included, is lexed back from its quoted form |
| JsonRoundTrip.IntegerRoundTrip | doc/案例/实时分析Dashboard/labproject/static/js/socket.io.js:2607-2656 | the decimal text of every integer is one numeral token with that value |
| JsonReader.Reader.LexHex | doc/案例/实时分析Dashboard/labproject/static/js/socket.io.js:2563-2579 | the four digits after `\u` are read or the reader aborts; the index moves past them |
| JsonReader.Reader.LexStringToken | doc/案例/实时分析Dashboard/labproject/static/js/socket.io.js:2541-2606 | the indexed loop over a string agrees with lexing the unread text, also on errors |
| JsonReader.Reader.LexNumberToken | doc/案例/实时分析Dashboard/labproject/static/js/socket.io.js:2607-2661 | the indexed loops over a number agree with lexing the unread text, also on errors |
| JsonReader.Reader.Lex | doc/案例/实时分析Dashboard/labproject/static/js/socket.io.js:2525-2680 | one token is taken off the unread text, blanks skipped; an error resets the index and the source |
| JsonReader.Reader.GetItems | doc/案例/实时分析Dashboard/labproject/static/js/socket.io.js:2695-2725 | the loop over an array agrees with the recursive reading of the unread text |
| JsonReader.Reader.GetMembers | doc/案例/实时分析Dashboard/labproject/static/js/socket.io.js:2726-2757 | the loop over an object agrees with the recursive reading; a later member with the same name wins |
| JsonReader.Parse | doc/案例/实时分析Dashboard/labproject/static/js/socket.io.js:2798-2810 | `JSON.parse` on the mutable index is the pure parser, and refuses text after the value |
| JsonAccepts.ParseIsExact | doc/案例/实时分析Dashboard/labproject/static/js/socket.io.js:2519-2763 | `JSON.parse` accepts exactly the texts of the JSON grammar, RFC 8259, and gives each its meaning: strings by the code units they spell, numerals by digits times a power of ten, of members with one name the last, none named `__proto__` |
| JsonAccepts.PrintedIsJson | doc/案例/实时分析Dashboard/labproject/static/js/socket.io.js:2339-2464 | what is printed of any value, with any blank indentation, is a text of that grammar and means what survives of the value |
| JsonGrammar.DocumentIsAccepted | doc/案例/实时分析Dashboard/labproject/static/js/socket.io.js:2519-2763 | every document of the grammar, with white space anywhere between its tokens, is accepted as what it means |
| JsonGrammar.StringIsAccepted | doc/案例/实时分析Dashboard/labproject/static/js/socket.io.js:2541-2606 | a string comes out as the code units it spells, whether as themselves, with a short escape, `\/` included, or with four digits of base 16 in either case |
| Numerals.NumberOfLiteral | doc/案例/实时分析Dashboard/labproject/static/js/socket.io.js:2655-2656 | a number made of text is the digits times their power of ten, with sign, fraction, exponent and white space around it |
| Numerals.NumberOfRadixLiteral | doc/案例/实时分析Dashboard/labproject/static/js/socket.io.js:1317-1320 | the same for hexadecimal, octal and binary texts |
| Numerals.NumberIsOfNumeric | doc/案例/实时分析Dashboard/labproject/static/js/socket.io.js:1317-1319 | no other text is a number |
| Attachments.Deconstructor.Run | doc/案例/实时分析Dashboard/labproject/static/js/socket.io.js:3067-3098 | the recursion with one shared list: placeholders are numbered from the length of the list, and the buffers of the tree are appended in order |
| Attachments.ReconstructOfDeconstruct | doc/案例/实时分析Dashboard/labproject/static/js/socket.io.js:3109-3133 | reconstructing a deconstructed tree gives the tree back exactly if no object in it has a truthy `_placeholder` member or a member `__proto__` |
| Attachments.RoundTripAt | doc/案例/实时分析Dashboard/labproject/static/js/socket.io.js:3071-3133 | the same for a subtree whose buffers stand anywhere in the shared list |
| WireFormat.BufferBecomesPlaceholder | doc/案例/实时分析Dashboard/labproject/static/js/socket.io.js:3074-3077 | an ArrayBuffer becomes an object with `_placeholder` true and its index as `num` |
| WireFormat.PlaceholderBecomesBuffer | doc/案例/实时分析Dashboard/labproject/static/js/socket.io.js:3113-3115 | an object with any truthy `_placeholder` becomes the buffer that `num` names |
| WireFormat.OtherObjectsStay | doc/案例/实时分析Dashboard/labproject/static/js/socket.io.js:3116-3128 | all other objects stay, with their members worked through |
| PacketHeader.DecodeString | doc/案例/实时分析Dashboard/labproject/static/js/socket.io.js:1303-1360 | the scanner with its one index, which stays inside the text, computes the recursive decoder, error returns included |
| PacketHeader.HeaderRoundTrip | doc/案例/实时分析Dashboard/labproject/static/js/socket.io.js:1176-1213 | for every kind, attachment count, namespace, id and data text, the decoded header is the encoded one exactly if the namespace starts with `/` and has no comma, and the data text is not empty and does not begin like an id or, where neither namespace nor id is printed, like a namespace |
| PacketHeader.NspRoundTrip | doc/案例/实时分析Dashboard/labproject/static/js/socket.io.js:1189-1203 | the part after the attachments: when a namespace is printed and read back |
| WireFormat.PlainPacketFrames | doc/案例/实时分析Dashboard/labproject/static/js/socket.io.js:1156-1213 | a packet of the types 0 to 4 is one text: the digit, followed at once by namespace, id and data |
| WireFormat.BinaryPacketFrames | doc/案例/实时分析Dashboard/labproject/static/js/socket.io.js:1156-1237 | for the types 5 and 6 the number of buffers and a dash stand between, and the buffers follow as frames of their own |
| WireFormat.PlainTextIsDecodedAtOnce | doc/案例/实时分析Dashboard/labproject/static/js/socket.io.js:1264-1275 | whatever follows a digit 0 to 4, the decoder neither fails nor waits: one packet, or one error if the data is no JSON text |
| WireFormat.BinaryTextIsCounted | doc/案例/实时分析Dashboard/labproject/static/js/socket.io.js:1303-1320 | behind a digit 5 or 6 the decoder reads a number up to a dash and waits for as many buffers, and fails if there is no number or no dash |
| WireFormat.NamespaceIsRead | doc/案例/实时分析Dashboard/labproject/static/js/socket.io.js:1322-1334 | a namespace starts with a slash and ends before a comma or at the end of the text |
| WireFormat.IdCharacters | doc/案例/实时分析Dashboard/labproject/static/js/socket.io.js:1336-1350 | an id is read from digits and white space |
| WireFormat.TypeIsRead | doc/案例/实时分析Dashboard/labproject/static/js/socket.io.js:1307-1309 | the types are the digits 0 to 6, white space and an empty text count as 0, and anything else is an error |
| PacketCodec.Decoder.AddFrame | doc/案例/实时分析Dashboard/labproject/static/js/socket.io.js:1264-1293 | a frame given to the decoder object moves its reconstructor and its emitted packets as the pure step does, and throws where that does |
| PacketCodec.TextFrameRoundTrip | doc/案例/实时分析Dashboard/labproject/static/js/socket.io.js:1156-1213 | the text frame of any data that does not begin like a number decodes to the packet with what JSON makes of the data, which waits for the announced attachments |
| PacketCodec.BinFramesRoundTrip | doc/案例/实时分析Dashboard/labproject/static/js/socket.io.js:1408-1416 | attachments are collected until the announced number is there, and only then is the packet emitted |
| PacketCodec.PacketRoundTrip | doc/案例/实时分析Dashboard/labproject/static/js/socket.io.js:1225-1237 | from any state of the decoder, the frames of a packet put it out once and nothing else exactly if it is sendable: a slash-led namespace without comma, no number that starts with a digit as its whole data, nothing that JSON loses, ArrayBuffers only in the binary types and beside them no object like a placeholder |
| PacketCodec.StreamRoundTrip | doc/案例/实时分析Dashboard/labproject/static/js/socket.io.js:1264-1293 | the frames of any sequence of such packets, fed to one decoder, emit exactly that sequence |
| PacketStream.Manager.Packet | doc/案例/实时分析Dashboard/labproject/static/js/socket.io.js:3626-3646 | one call on the manager object is one step of the queue |
| PacketStream.Manager.OnEncoded | doc/案例/实时分析Dashboard/labproject/static/js/socket.io.js:3635-3659 | all frames of the encoded packet are written together, then the queue goes on |
| PacketStream.FinishKeepsOrder | doc/案例/实时分析Dashboard/labproject/static/js/socket.io.js:3654-3659 | working off the queue keeps the frames on the wire those of the calls, in call order |
| PacketStream.EndToEnd | doc/案例/实时分析Dashboard/labproject/static/js/socket.io.js:3626-3659 | for all calls and all interleavings with encoders that complete later, the decoder has emitted the packets of the calls in call order, except those still queued |
| PacketStream.QueuedQueryIsRepeated | doc/案例/实时分析Dashboard/labproject/static/js/socket.io.js:3629-3645 | the packets on the wire are the ones meant exactly if no CONNECT packet with a query had to queue: such a packet gets its query appended again when it leaves the queue |
| PacketStream.QueuedConnectRepeatsItsQuery | doc/案例/实时分析Dashboard/labproject/static/js/socket.io.js:3629-3657 | a run in which it does: a CONNECT packet behind a packet with Blobs |
| PacketStream.IdleManagerWrites | doc/案例/实时分析Dashboard/labproject/static/js/socket.io.js:3626-3646 | an idle manager writes a packet at once, with its query, unless it is of a binary type and has Blobs |
| Wtf8.Ucs2DecodeLoop | doc/案例/实时分析Dashboard/labproject/static/js/socket.io.js:6331-6355 | the indexed loop joins surrogate pairs and keeps lone surrogates |
| Wtf8.Wtf8Encode | doc/案例/实时分析Dashboard/labproject/static/js/socket.io.js:6402-6413 | the encoding loop gives the bytes of the code points of the text, in order |
| Wtf8.Wtf8Decoder.NextSymbol | doc/案例/实时分析Dashboard/labproject/static/js/socket.io.js:6433-6493 | one code point is taken off the unread bytes, or decoding stops; overlong and malformed forms are refused |
| Wtf8.Wtf8Decode | doc/案例/实时分析Dashboard/labproject/static/js/socket.io.js:6498-6508 | the decoding loop over the byte index is the recursive decoder |
| Wtf8.DecodeOfEncode | doc/案例/实时分析Dashboard/labproject/static/js/socket.io.js:6377-6413 | decoding the encoded text gives the text back, for every sequence of code units |
| Wtf8.DecodedIsCanonical | doc/案例/实时分析Dashboard/labproject/static/js/socket.io.js:6433-6493 | bytes that decode are the encoding of their code points, so there is only one form for each |
| Wtf8.EncodeOfDecode | doc/案例/实时分析Dashboard/labproject/static/js/socket.io.js:6498-6508 | encoding decoded bytes gives them back exactly if they do not spell a surrogate pair as two code points |
| Base64.EncodeLoop | doc/案例/实时分析Dashboard/labproject/static/js/socket.io.js:6566-6584 | the loop over the array gives the groups of four characters with their padding |
| Base64.DecodeLoop | doc/案例/实时分析Dashboard/labproject/static/js/socket.io.js:6586-6613 | the loop fills an array of the computed length; writes past its end are dropped |
| Base64.DecodeOfEncode | doc/案例/实时分析Dashboard/labproject/static/js/socket.io.js:6586-6613 | every byte array, of any length, comes back |
| Base64.ShapeOfEncode | doc/案例/实时分析Dashboard/labproject/static/js/socket.io.js:6576-6592 | the length and padding of an encoded text, from which the decoder computes its buffer |
| WireFormat.QuadStandsForBytes | doc/案例/实时分析Dashboard/labproject/static/js/socket.io.js:6566-6584 | four characters stand for the 24 bits of three bytes in the alphabet of RFC 4648, section 4 |
| WireFormat.PaddingOfEncode | doc/案例/实时分析Dashboard/labproject/static/js/socket.io.js:6576-6581 | the last group ends in no, one or two equals signs |
| EnginePacket.TextRoundTrip | doc/案例/实时分析Dashboard/labproject/static/js/socket.io.js:5621-5657 | a packet on a channel of text, binary data as base64, comes back with its type and data |
| EnginePacket.MessageRoundTrip | doc/案例/实时分析Dashboard/labproject/static/js/socket.io.js:5756-5792 | the same on a channel that takes bytes |
| PayloadText.DecodePayloadLoop | doc/案例/实时分析Dashboard/labproject/static/js/socket.io.js:5904-5964 | the loop over the characters calls back what the recursive scanner does, and stops with a parser error or when the callback says so |
| PayloadText.PayloadRoundTrip | doc/案例/实时分析Dashboard/labproject/static/js/socket.io.js:5841-5874 | each packet of an encoded payload is called back once and in order, up to the first after which no more is wanted; an empty payload calls nothing back |
| WireFormat.EnginePacketMessages | doc/案例/实时分析Dashboard/labproject/static/js/socket.io.js:5621-5657 | the type as a digit before the text, or behind a `b` before base64, or as a byte before bytes |
| WireFormat.TextPayload | doc/案例/实时分析Dashboard/labproject/static/js/socket.io.js:5841-5874 | each message behind its length and a colon |
| WireFormat.BadLengthIsAnError | doc/案例/实时分析Dashboard/labproject/static/js/socket.io.js:5904-5964 | a length that is missing, no natural number or too great, or that no colon follows, is a parser error |
| WireFormat.BinaryPayload | doc/案例/实时分析Dashboard/labproject/static/js/socket.io.js:5996-6036 | each message behind a flag, the digits of its length as numbers, and 255 |
| PayloadBinary.TotalLengthIsExact | doc/案例/实时分析Dashboard/labproject/static/js/socket.io.js:5996-6004 | the length computed beforehand is the length of all frames |
| PayloadBinary.EncodeAsArrayBuffer | doc/案例/实时分析Dashboard/labproject/static/js/socket.io.js:5980-6036 | the loops fill the array exactly, every write inside it, with the frames in order |
| PayloadBinary.DecodeAsBinary | doc/案例/实时分析Dashboard/labproject/static/js/socket.io.js:6088-6141 | the loops over the buffer tail split it as the recursive splitter does |
| PayloadBinary.PayloadRoundTrip | doc/案例/实时分析Dashboard/labproject/static/js/socket.io.js:6088-6141 | each packet is called back once, in order, with its index and the number of packets |
| WriteBuffer.EngineSocket.FlushBuffer | doc/案例/实时分析Dashboard/labproject/static/js/socket.io.js:4371-4381 | the buffer is handed over and kept until the drain |
| WriteBuffer.EngineSocket.Send | doc/案例/实时分析Dashboard/labproject/static/js/socket.io.js:4409-4436 | a packet is accepted unless the socket is closing, then flushed |
| WriteBuffer.EngineSocket.WhenDrained | doc/案例/实时分析Dashboard/labproject/static/js/socket.io.js:4350-4363 | the packets of the last write are cut off, then drain or flush |
| WriteBuffer.EngineSocket.WriteCompleted | doc/案例/实时分析Dashboard/labproject/static/js/socket.io.js:5315-5326 | the end of a write: the drain of the socket, then that of a pending pause |
| WriteBuffer.EngineSocket.PauseTransport | doc/案例/实时分析Dashboard/labproject/static/js/socket.io.js:5191-5225 | what the pause waits for, and its callback at once if nothing |
| WriteBuffer.EngineSocket.WhenPaused | doc/案例/实时分析Dashboard/labproject/static/js/socket.io.js:4127-4140 | the switch to the probed transport, the upgrade packet and the flush |
| WriteBuffer.EngineSocket.CloseSocket | doc/案例/实时分析Dashboard/labproject/static/js/socket.io.js:4444-4480 | closing waits for the drain, for the upgrade, or for nothing |
| WriteBuffer.StepKeeps | doc/案例/实时分析Dashboard/labproject/static/js/socket.io.js:4350-4436 | every event keeps: what was handed over followed by the rest of the buffer is what was accepted; the transport is open whenever the socket may write |
| WriteBuffer.WriteBufferSafety | doc/案例/实时分析Dashboard/labproject/static/js/socket.io.js:4350-4436 | in every run with a transport upgrade nothing is lost, repeated or reordered until the socket closes, and a socket closed by `close()` has handed over everything unless the close came early |
| WriteBuffer.DrainMeansHandedOver | doc/案例/实时分析Dashboard/labproject/static/js/socket.io.js:4350-4363 | after any run, the buffer is empty at a drain exactly if all accepted packets were handed over |
| WriteBuffer.FlushMeetsAnOpenTransport | doc/案例/实时分析Dashboard/labproject/static/js/socket.io.js:4371-4381 | the transport is never asked to send while it is connecting, pausing or paused, nor before the last write drained |
| WriteBuffer.EngineSocket.Handle | doc/案例/实时分析Dashboard/labproject/static/js/socket.io.js:4350-4480 | any event moves the object as it moves the state machine |
| WriteBufferEvents.SendIsAccepted | doc/案例/实时分析Dashboard/labproject/static/js/socket.io.js:4409-4436 | a packet is accepted unless the socket is closing or closed, also while it is opening, and handed over at once if the transport is writable and no upgrade is under way |
| WriteBufferEvents.AcceptedIsWhatWasSent | doc/案例/实时分析Dashboard/labproject/static/js/socket.io.js:4409-4436 | in every run what the socket accepted is exactly what was sent to it while it was neither closing nor closed, in order |
| WriteBufferEvents.CloseActsAtOnceIff | doc/案例/实时分析Dashboard/labproject/static/js/socket.io.js:4444-4469 | `close()` ends the socket at once exactly if the buffer is empty and no upgrade is under way |
| WriteBufferEvents.CloseLeavesUpgradeAlone | doc/案例/实时分析Dashboard/labproject/static/js/socket.io.js:4444-4480 | no `close()` ends the socket in the middle of an upgrade |
| WriteBufferEvents.UpgradeAbandonsNothing | doc/案例/实时分析Dashboard/labproject/static/js/socket.io.js:4113-4141 | in every run the old transport is replaced only when no write and no poll is outstanding on it |
| WriteBufferProgress.SafeToCloseIffNotTooEarly | doc/案例/实时分析Dashboard/labproject/static/js/socket.io.js:4444-4469 | for every socket that is not closed: `close()` is sure to lose nothing exactly if the socket did not start over polling, or the call does not come with packets in the buffer before the handshake, nor on a socket that an earlier `close()` closes at the end of its upgrade; otherwise there is a run that loses a packet |
| WriteBufferProgress.SafeToCloseAfterHandshake | doc/案例/实时分析Dashboard/labproject/static/js/socket.io.js:4444-4469 | in particular `close()` is safe on every open socket that was not closed before its handshake |
| WriteBufferProgress.FailedProbeCanSendIff | doc/案例/实时分析Dashboard/labproject/static/js/socket.io.js:4150-4172 | when the probe of an open socket fails, the socket can still hand over a packet that is sent then, without losing the connection, exactly if the upgrade had not begun, because `upgrading` is never reset |
| WriteBufferProgress.FailedProbeCanFinishIff | doc/案例/实时分析Dashboard/labproject/static/js/socket.io.js:4150-4172 | when the probe of any socket fails, it can still be closed with everything handed over exactly if the upgrade had not begun, or a `close()` with nothing left in the buffer waited for its end |
| WriteBufferProgress.StallHappens | doc/案例/实时分析Dashboard/labproject/static/js/socket.io.js:4113-4172 | a run in which a packet sent between the pong and the failure is never handed over |
| WriteBufferProgress.StepGoesOn | doc/案例/实时分析Dashboard/labproject/static/js/socket.io.js:4350-4480 | every event keeps: a write that was begun is going to drain, no packet stays in the buffer of a socket that could write it, a waiting close has something to wait for |
| WriteBufferProgress.FailedUpgradeStalls | doc/案例/实时分析Dashboard/labproject/static/js/socket.io.js:4150-4172 | a stalled socket never hands over anything again and never finishes closing, until the connection is lost |
| NextTick.Ticker.Push | doc/案例/实时分析Dashboard/labproject/static/js/socket.io.js:617-628 | an item is queued, with a timer only if it is the first and nothing drains |
| NextTick.Ticker.RunPass | doc/案例/实时分析Dashboard/labproject/static/js/socket.io.js:604-608 | one pass over the current queue runs its items in order, or stops at the one that throws |
| NextTick.Ticker.DrainQueue | doc/案例/实时分析Dashboard/labproject/static/js/socket.io.js:593-615 | the array with its index runs what a plain first-in-first-out list would, and leaves the clean-up timer if an item throws |
| NextTick.Ticker.CleanUp | doc/案例/实时分析Dashboard/labproject/static/js/socket.io.js:578-591 | after a throw the drain resumes behind the item that threw |
| NextTick.Ticker.Handle | doc/案例/实时分析Dashboard/labproject/static/js/socket.io.js:578-628 | a call or a timer moves the object as it moves the plain list |
| NextTick.DrainKeepsOrder | doc/案例/实时分析Dashboard/labproject/static/js/socket.io.js:593-615 | a drain keeps run and waiting items in the order of enqueueing, those enqueued meanwhile included, and leaves nothing behind unless an item threw |
| NextTick.DrainStopsAtThrow | doc/案例/实时分析Dashboard/labproject/static/js/socket.io.js:593-615 | of the items that a drain runs only the last one can have thrown, and then it did |
| NextTick.EveryItemRunsOnceInOrder | doc/案例/实时分析Dashboard/labproject/static/js/socket.io.js:578-628 | in every run the items that ran are the first ones enqueued, once each and in order, and when no timer is left all have run |
| NextTick.TimerResumes | doc/案例/实时分析Dashboard/labproject/static/js/socket.io.js:578-591 | the timer that a waiting queue has runs at least the next item, after a throw the one behind it |
| NextTick.TimersFinishTheWork | doc/案例/实时分析Dashboard/labproject/static/js/socket.io.js:578-628 | after any run, letting the timers fire often enough runs everything |
| NextTick.RunsFromTheStart | doc/案例/实时分析Dashboard/labproject/static/js/socket.io.js:573-628 | both from the empty queue: in every run nothing is skipped or repeated, and letting the timers fire then runs everything |
| NextTick.EnqueuedIsHandedIn | doc/案例/实时分析Dashboard/labproject/static/js/socket.io.js:578-628 | what is enqueued in a run is exactly what was handed in and what the items that ran enqueued |
| KdTree.BuildDivides | doc/案例/实时分析Dashboard/labproject/static/js/highcharts.js:308-309 | the tree holds exactly the given points, divided at every node by the axis of its depth |
| KdTree.SearchFindsNearest | doc/案例/实时分析Dashboard/labproject/static/js/highcharts.js:309-310 | a search that prunes never drops a nearer point, if the distance to a dividing line bounds the distances behind it |
| KdTree.SearchEqualsScan | doc/案例/实时分析Dashboard/labproject/static/js/highcharts.js:308-310 | the search returns a point at the least distance of all |
| KdTree.SearchIsRightIffAxesAreCounted | doc/案例/实时分析Dashboard/labproject/static/js/highcharts.js:309-310 | for one or two axes and either distance, `searchKDTree` is right for all points and queries exactly unless it is called for the horizontal distance in a tree of two axes |
| KdTree.ChartSearchIsExact | doc/案例/实时分析Dashboard/labproject/static/js/highcharts.js:201 | with the arguments that the pointer, its only caller, passes, no point has a smaller horizontal gap to the query than the one found, or, for unshared points or a search by y, a smaller sum of squared gaps; the tree is divided by x alone, or by x and y in turn |
| KdTree.SearchIsFirstNearest | doc/案例/实时分析Dashboard/labproject/static/js/highcharts.js:309-310 | of several nearest points the search returns the first in the order node, side of the query, other side |
| Distribute.CountExcess | doc/案例/实时分析Dashboard/labproject/static/js/highcharts.js:357 | the loop finds where the labels in rank order exceed the line |
| Distribute.Centre | doc/案例/实时分析Dashboard/labproject/static/js/highcharts.js:357 | the first inner loop puts each composite at the middle of its targets, inside the line |
| Distribute.MergeOverlapping | doc/案例/实时分析Dashboard/labproject/static/js/highcharts.js:357-358 | the second one merges, from the end, each composite with the one before it that it overlaps |
| Distribute.PlaceLabels | doc/案例/实时分析Dashboard/labproject/static/js/highcharts.js:358 | the last loops place the labels of each composite side by side |
| Distribute.DistributeBoxes | doc/案例/实时分析Dashboard/labproject/static/js/highcharts.js:357-358 | the whole procedure, with its outer loop that ends when nothing was merged, is the specification function |
| Distribute.KeptIsRankPrefix | doc/案例/实时分析Dashboard/labproject/static/js/highcharts.js:357 | labels are left out only if all do not fit; the kept ones fit and are the longest prefix in rank order that does |
| Distribute.DroppedRankLowest | doc/案例/实时分析Dashboard/labproject/static/js/highcharts.js:357 | no label that is left out has a greater rank than one that is kept |
| Distribute.KeptFitsIffLengthIsNotNegative | doc/案例/实时分析Dashboard/labproject/static/js/highcharts.js:357 | what is kept fits exactly on lines of length at least 0 |
| Distribute.NegativeLengthDropsOne | doc/案例/实时分析Dashboard/labproject/static/js/highcharts.js:357 | a negative length drops the last label in rank order and keeps the others |
| Distribute.MergeCovers | doc/案例/实时分析Dashboard/labproject/static/js/highcharts.js:357-358 | merging conserves the total size and the labels of each composite, in order |
| Distribute.SettleIsSound | doc/案例/实时分析Dashboard/labproject/static/js/highcharts.js:357-358 | where the loop ends, no composite overlaps the next and each is centred as far as the line allows |
| Distribute.KeptAreWellPlaced | doc/案例/实时分析Dashboard/labproject/static/js/highcharts.js:357-358 | every kept label lies inside the line, in target order, without overlap |
| Distribute.PlacedInGroups | doc/案例/实时分析Dashboard/labproject/static/js/highcharts.js:357-358 | the placed labels stand in groups side by side, each centred between its first and last targets as far as the line allows; a label alone in its group stands on its target |
| Distribute.LabelsStayIffFree | doc/案例/实时分析Dashboard/labproject/static/js/highcharts.js:357-358 | every kept label stands where it would stand alone exactly if they do not overlap there |
| Distribute.PassStopsAtGap | doc/案例/实时分析Dashboard/labproject/static/js/highcharts.js:357-358 | a pass merges nothing across a gap, where the line has room |
| Distribute.PassStaysOnLine | doc/案例/实时分析Dashboard/labproject/static/js/highcharts.js:357-358 | a pass moves nothing beyond the end of the line |
| Distribute.ResultIsPlacedAndDropped | doc/案例/实时分析Dashboard/labproject/static/js/highcharts.js:358 | the result is the placed labels and the ones left out, in target order |
| Distribute.StableSortIsStable | doc/案例/实时分析Dashboard/labproject/static/js/highcharts.js:357-358 | sorting keeps labels of the same key in their order |
| ZnodeNames.NameOrder | zookeeper/src/main/java/com/nathan/bigdata/zookeeper/leader/ProcessNode.java:41-43 | the order of znode names as strings is the order of their numbers, while these fit ten digits |
| ZnodeNames.NameHasTenDigits | zookeeper/src/main/java/com/nathan/bigdata/zookeeper/leader/ProcessNode.java:72 | the name of a sequential node is its prefix and its number in ten digits |
| ZnodeNames.ShortNameOfPath | zookeeper/src/main/java/com/nathan/bigdata/zookeeper/leader/ProcessNode.java:43 | the name is what stands after the last slash of the path |
| FairLock.LockClient.Decide | zookeeper/src/main/java/com/nathan/bigdata/zookeeper/FairLockTest.java:66-79 | on the sorted names the client finds that it is the least or finds its predecessor |
| FairLock.StepKeeps | zookeeper/src/main/java/com/nathan/bigdata/zookeeper/FairLockTest.java:61-119 | every step, with a fresh latch or among no nodes, keeps: granted and deleted numbers are the first created, the holder owns the least node, and a waiting client is the least once its predecessor is gone, so the client that is woken need not list again |
| FairLock.FairLockIsSafe | zookeeper/src/main/java/com/nathan/bigdata/zookeeper/FairLockTest.java:61-105 | for any number of clients and any interleaving in which an instance that has waited is used again only when nobody is in line, at most one client holds the lock, and it is granted in the order of the numbers without gaps |
| FairLock.NoHerd | zookeeper/src/main/java/com/nathan/bigdata/zookeeper/FairLockTest.java:79-97 | clients wait for different nodes, so that no deletion wakes two of them |
| FairLockReuse.ReuseIsSafeIff | zookeeper/src/main/java/com/nathan/bigdata/zookeeper/FairLockTest.java:81-97 | after any run in which every earlier reuse was safe, calling `lock` on any instance is safe exactly if it has not waited before, because its latch is never reset, or no client holds the lock or can come to hold it by its own next steps |
| FairLockReuse.CarefulIffSafeThroughout | zookeeper/src/main/java/com/nathan/bigdata/zookeeper/FairLockTest.java:61-119 | for every run of any number of clients: at each of its points all careful ways to go on are exclusive exactly if every reuse in it met that condition |
| FairLockReuse.SpentWhileHeld | zookeeper/src/main/java/com/nathan/bigdata/zookeeper/FairLockTest.java:29-97 | a careful run that comes to where a call on a spent instance is not safe |
| FairLockReuse.BehindRun | zookeeper/src/main/java/com/nathan/bigdata/zookeeper/FairLockTest.java:61-119 | behind a node whose owner is never granted the lock, every careful run keeps the later clients in order |
| LeaderElection.ProcessNode.Attempt | zookeeper/src/main/java/com/nathan/bigdata/zookeeper/leader/ProcessNode.java:37-58 | on the sorted names the process is the first, watches the one before it, or does not find itself |
| LeaderElection.ProcessNode.Process | zookeeper/src/main/java/com/nathan/bigdata/zookeeper/leader/ProcessNode.java:86-99 | only the deletion of the watched node makes the process try again |
| LeaderElection.StepKeeps | zookeeper/src/main/java/com/nathan/bigdata/zookeeper/leader/ProcessNode.java:37-99 | every step keeps: a listing stays good, a live leader owns the least node, watches and events are where they should be |
| LeaderElection.ElectionIsSafe | zookeeper/src/main/java/com/nathan/bigdata/zookeeper/leader/ProcessNode.java:37-99 | with processes dying and sessions expiring at any time, at most one process in session has declared itself leader, it owns the least number, and leaders are declared in increasing order |
| LeaderElection.OwnNodeIsListed | zookeeper/src/main/java/com/nathan/bigdata/zookeeper/leader/ProcessNode.java:43 | a live process always finds its own node among the children |
| LeaderElection.NoHerd | zookeeper/src/main/java/com/nathan/bigdata/zookeeper/leader/ProcessNode.java:48-57 | live processes watch different nodes, so that no deletion wakes two of them |
| LeaderElection.SettledLeader | zookeeper/src/main/java/com/nathan/bigdata/zookeeper/leader/ProcessNode.java:44-57 | when everything has settled, the owner of the least node leads exactly if its last watch was not set too late |
| LeaderElection.MissedWatchLeavesNoLeader | zookeeper/src/main/java/com/nathan/bigdata/zookeeper/leader/ProcessNode.java:56 | a watch set too late, of which the answer is ignored, leaves no leader for as long as that process lives |
| LeaderElection.MissedWatchHappens | zookeeper/src/main/java/com/nathan/bigdata/zookeeper/ZKManagerImpl.java:66-81 | a run in which the watched node vanishes between listing and watching |
| ElectionExpiry.GentleElectionIsExclusive | zookeeper/src/main/java/com/nathan/bigdata/zookeeper/leader/ProcessNode.java:37-99 | if no session expires under a running process that leads or holds a listing that makes it lead, at most one running process takes itself for the leader |
| ElectionExpiry.ExpiryIsSafeIff | zookeeper/src/main/java/com/nathan/bigdata/zookeeper/leader/ProcessNode.java:37-58 | after any run in which no session expired that way, the expiry of any live session is safe exactly if its process neither leads nor holds a listing that makes it lead, or no other process can come to lead any more; otherwise there is a run with two leaders |
| ElectionExpiry.LeaderBesideCandidate | zookeeper/src/main/java/com/nathan/bigdata/zookeeper/leader/ProcessNode.java:37-99 | in particular the session of a live leader never expires safely beside a live process that is about to start, has its node, or set its watch in time |
| PatternMatcher.MatchFunction.ProcessBroadcastElement | flink/usage/flink_stream/src/main/java/com/ns/bdp/flink/stream/state/advanced/BroadcastStateDemo.java:162-166 | a new rule starts with no waiting items and puts out nothing |
| PatternMatcher.MatchFunction.ApplyRule | flink/usage/flink_stream/src/main/java/com/ns/bdp/flink/stream/state/advanced/BroadcastStateDemo.java:183-209 | one rule: what waits is put out and cleared, the item may wait, no empty list is stored |
| PatternMatcher.MatchFunction.ProcessElement | flink/usage/flink_stream/src/main/java/com/ns/bdp/flink/stream/state/advanced/BroadcastStateDemo.java:169-211 | the loop over the rules, in any order, keeps for every rule and colour what the items since the rule call for |
| PatternMatcher.MatchFunction.Process | flink/usage/flink_stream/src/main/java/com/ns/bdp/flink/stream/state/advanced/BroadcastStateDemo.java:161-211 | after any rules and items in any order, each rule has put out for each colour exactly the matches among the items after it |
| PatternMatcher.MatchesAreExact | flink/usage/flink_stream/src/main/java/com/ns/bdp/flink/stream/state/advanced/BroadcastStateDemo.java:188-200 | the pairs put out are those of an item of the first shape with the next one of the second shape, each once, in order of arrival |
| PatternMatcher.TrackIsTheMatches | flink/usage/flink_stream/src/main/java/com/ns/bdp/flink/stream/state/advanced/BroadcastStateDemo.java:183-209 | the list kept is the items with no later item of the second shape |
| TopN.TopNAccumulator.Accumulate | flink/usage/flink_table/src/main/java/com/ns/bdp/flink/udf/TopNFunction.java:29-40 | the heap holds the top of everything seen, whichever least element is polled; a commodity displaces only smaller sales |
| TopN.TopNAccumulator.EmitUpdateWithRetract | flink/usage/flink_table/src/main/java/com/ns/bdp/flink/udf/TopNFunction.java:51-73 | the retractions and collections put out so far make up the heap, whatever was accumulated in between, and every retraction finds its row |
| TopN.ShowsLess | flink/usage/flink_table/src/main/java/com/ns/bdp/flink/udf/TopNFunction.java:53-58 | retracting a row that is shown leaves the others shown |
| TopN.RowsOfAdd | flink/usage/flink_table/src/main/java/com/ns/bdp/flink/udf/TopNFunction.java:60-66 | collecting a commodity adds its row once, also when another has the same row |
| TopRows.TopCounts | flink/usage/flink_table/src/main/java/com/ns/bdp/flink/udf/TopNFunction.java:29-40 | for every threshold the number kept at or above it is the number seen, up to the size |
| TopRows.TopIsUnique | flink/usage/flink_table/src/main/java/com/ns/bdp/flink/udf/TopNFunction.java:29-40 | any two choices of the top have the same sales |
| TopRows.CountsMakeTop | flink/usage/flink_sql/src/main/java/com/ns/bdp/flink/sql/CommodityTop3Sql.java:40-46 | rows with these counts are top rows |
| SkewSplit.TopOfTops | flink/usage/flink_sql/src/main/java/com/ns/bdp/flink/sql/CommodityTop3Sql.java:33-47 | the top three of the top threes of all buckets are a top three of the table, for any bucketing |
| SkewSplit.SplitTopIsTheTop | flink/usage/flink_sql/src/main/java/com/ns/bdp/flink/sql/CommodityTop3Sql.java:33-47 | it has the sales of the flat query |
| SkewSplit.SplitSumIsTheSum | flink/usage/flink_sql/src/main/java/com/ns/bdp/flink/sql/TotalSalesPerCategoryIdSql.java:48-54 | the partial sums of a group add up to its sum, for any bucketing, and so do counts |
| SkewSplit.SplitSumQuery | flink/usage/flink_sql/src/main/java/com/ns/bdp/flink/sql/TotalSalesPerCategoryIdSql.java:48-64 | the two-level sum query gives the groups and sums of the flat one |
| SkewSplit.SplitDistinctIsExactIffUnsplit | flink/usage/flink_sql/src/main/java/com/ns/bdp/flink/sql/CountUVPVPerShopSql.java:46-54 | the distinct counts of the buckets never fall short of the flat one, and equal it exactly if no user is in two buckets |
| SkewSplit.SplitDistinctQuery | flink/usage/flink_sql/src/main/java/com/ns/bdp/flink/sql/CountUVPVPerShopSql.java:46-66 | the two-level distinct count query is the flat one exactly if no group has a user in two buckets |
| SkewSplit.BucketOfUserIsExact | flink/usage/flink_sql/src/main/java/com/ns/bdp/flink/sql/CountUVPVPerShopSql.java:53 | a bucket computed from the user is right for every table |

## Left out

- JSON: `toJSON`, dates, replacer and reviver callbacks, cyclic values and the checks for old browsers; numerals are taken exactly, without the rounding of floating point; a non-integer number is represented by the text of a numeral for it, and integers of any size are printed in base ten.
- Json3.Serialize: the order in which an object lists its members is a parameter that depends on the members only; the indentation is any blank text, not computed from a width.
- Text.ToNumber: takes values exactly, without the rounding of floating point; fractions, negative numbers and infinities are not told apart, since no length and no count equals one.
- Attachments.Reconstruct: works on values, so the update of the tree in place and aliasing inside it are not captured; a `num` member that is not a number fetches nothing, even a text with the digits of an index.
- PacketCodec.StreamRoundTrip: asks for sendable packets; what each other packet turns into is not stated.
- Blobs, files and their readers: a packet with Blobs is one whose encoder completes later.
- PacketStream: sockets, acknowledgements, reconnection and `cleanup` of the manager.
- PayloadBinary: the Blob form of the payload, and text payloads given as ArrayBuffers.
- WriteBuffer.EngineSocket: listeners that call back into the socket while it emits an event, ping timers, and more than one upgrade target; transports are reduced to being open, writable, and having writes and polls outstanding.
- NextTick.Drain: a drain in which items enqueue others without end; each of its finite parts is the drain of a finite tree of items.
- KdTree: points without coordinates, and the distances cached on the points.
- Distribute.DistributeBoxes: works on sequences instead of splicing one array, and on real numbers instead of floats; the resorting that the last step leaves to the browser is the stable sort.
- FairLock.FairLockIsSafe: asks that no instance that has waited be used again while a node is left; beside nodes whose owners can never be granted the lock, `FairLockReuse.CarefulIffSafeThroughout` gives the exclusion.
- FairLockReuse.ReuseIsSafeIff: does not cover pasts in which an earlier reuse was itself not safe.
- FairLock: interrupts, ZooKeeper exceptions and sessions that expire; nodes are deleted by `unlock` only. A client whose predecessor vanished before it was watched waits for ever, as in the code, so nothing is said of when a lock is granted.
- LeaderElection: each process has a connection of its own (the code keeps it in a static field); `exists` and `create` on the root are not steps; an exception that ends a process is a crash.
- LeaderElection.ProcessNode.Process: compares paths exactly where the code ignores the case of letters; all paths of the election are lower case.
- ZnodeNames.NameOrder: covers numbers of at most ten digits, as the server prints them.
- PatternMatcher: the text that is put out, and the distribution of one operator over tasks; the key `Rule_<n>` of a rule is its number.
- TopN.TopNAccumulator: `emitValue`, and state backends that copy the accumulator, after which objects would no longer be identical.
- SkewSplit: prices that are null, the retractions of the streaming engine, and its own two-phase optimisation.
- Highcharts: everything but the k-d tree search and the label distribution.
- socket.io: XHR, JSONP and WebSocket input and output, `debug`, `ms` and backoff.
- Flink: windowed counts and sums, and the keyed-state demos.
- The Kafka, HBase, HDFS, Hive, YARN, JanusGraph, ClickHouse and Elasticsearch clients.
