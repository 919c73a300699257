# Verified model of a STOMP message server and its event client

The project models, in Dafny 4.11, a STOMP 1.2 server written in Java with two
execution modes, and the event text format of its C++ client.

* **Reactor** (`Buffers`, `Writes`, `Reads`, `Ownership`, `ReadOrder`, `Reactor`,
  `ActorPool`, `Drops`, `Closing`, `Unflushed`, `Sizes`): a step system of the
  selector thread and any number of pool workers. A critical section of the scheduler,
  one operation on a concurrent queue, one channel operation and one decoded byte are
  single steps, so runs are all interleavings. `Writes` has the outgoing half (write
  queues, interest ops, selector tasks, wakeup), `Reads` the incoming half (buffer
  pool, read tasks, decoders) over the scheduler of `ActorPool`; `Reactor` is their
  product with the selector's loop, and its theorems are about every run from the
  start. Its links between the halves never hold a worker up
  (`Reactor.FeedNotBlocked`, `Reactor.EndNotBlocked`).
* **Broker** (`Broker`, `Subscriptions`, `Runs`, `Histories`, `MessageIds`,
  `Sessions`, `Limits`, `Replies`, `Logins`): the two subscription indexes, users,
  handlers and message counter; a step is an accepted connection or one whole frame.
  What hash maps leave open (header order, broadcast order, the user found by a
  logout) is a parameter of the step, constrained to be a legal choice, and all
  theorems hold for every choice.
* **Codec** (`Text`, `Codec`, `Stream`, `Garble`, `Parsing`, `Utf8`): the decoder on
  streams, the parser with Java's `split` and `trim`, the printer with any header
  order; `Parsing` and `Utf8` state what they do through readers of their own.
* **Events** (`Events`, `Pipeline`, `Reports`, `Summary`, `Shown`): how the client
  prints a report, and what server and receiving clients make of it.
* **Objects** (`FrameCodec`, `Scheduler`, `Handlers`, `Modes`, `Server`,
  `Protocol`, `Client`): the mutable classes and loops of the program, each
  method proved against the functions above.

Some facts about the code that the model keeps:

* The last of several equal headers wins, where STOMP 1.2, section "Repeated
  Header Entries", lets the first win.
* SUBSCRIBE keeps a leading slash of its destination, SEND removes one, and
  MESSAGE puts one in front.
* UNSUBSCRIBE removes every entry with the id it names, whoever owns it, and takes
  only the caller out of the first index. Index agreement therefore depends on what
  clients send; `Runs.AgreementIffHarmless` gives the exact condition, and id
  ownership (different connections use different ids, and SUBSCRIBE carries one, as
  section "SUBSCRIBE" of STOMP 1.2 requires) is enough for it.
* A logout finds one user with the connection's id and stops, on the assumption
  that there is at most one; `Limits.LogoutCompleteIff` says when that is enough.
* The one exception that processing a frame ends in is that of a SUBSCRIBE let through
  without an id (`Histories.FrameCommands`). In the reactor an exception drops the rest
  of its read buffer; `Reactor.NothingDroppedIff` says exactly when that loses nothing.
* A connection is closed after a test of its write queue and a test of its termination
  flag, with nothing to hold workers off in between: the RECEIPT of a DISCONNECT can be
  queued between the two, and it is then never written (`Closing.ClosedExactly`,
  `Closing.NeverWritten`, `Unflushed.ReceiptUnwritten`).
* The inner loop of a broadcast writes every subscription id of the channel into each
  copy, so the last one stays, whoever the receiver is (`Limits.NamesOwnIff`).
* The CONNECTED frame's header key is "version " with a blank, and an ERROR's body
  quotes the printed frame with its NUL.
* Bytes are cast to characters one by one while frames are encoded in UTF-8, so
  only characters 1..127 survive; `Garble.ByteRoundTripIff` makes this exact.

## Model

| member | source | states |
|---|---|---|
| `Reactor.NoLostWakeup` | Real-Time-Messaging-System-STOMP-over-Java-C/server/src/main/java/bgu/spl/net/srv/Reactor.java:55-71 | over every interleaving of the selector with any number of workers: selector parked in select, no wakeup pending and no worker midway through a send imply an empty task queue and OP_WRITE interest for every open connection with a non-empty write queue |
| `Reactor.WritesConserved` | Real-Time-Messaging-System-STOMP-over-Java-C/server/src/main/java/bgu/spl/net/srv/NonBlockingConnectionHandler.java:88-108 | in every reachable state the channel got whole encodings in enqueue order and then part of at most one; written bytes followed by queued bytes are all the encodings, concatenated |
| `Reactor.BuffersOwned` | Real-Time-Messaging-System-STOMP-over-Java-C/server/src/main/java/bgu/spl/net/srv/NonBlockingConnectionHandler.java:110-122 | in every reachable state the read buffers are split without overlap between the pool, the selector and the unfinished tasks, and an unfinished task's buffer still holds what was read into it |
| `Sizes.ReadsFit` | Real-Time-Messaging-System-STOMP-over-Java-C/server/src/main/java/bgu/spl/net/srv/NonBlockingConnectionHandler.java:15 | in every reachable state each read is at most 8192 bytes |
| `Sizes.FullRead` | Real-Time-Messaging-System-STOMP-over-Java-C/server/src/main/java/bgu/spl/net/srv/NonBlockingConnectionHandler.java:15 | and for any 8192 bytes there is a run that reads them at once |
| `Reactor.ProcessedInOrder` | Real-Time-Messaging-System-STOMP-over-Java-C/server/src/main/java/bgu/spl/net/srv/NonBlockingConnectionHandler.java:42-74 | in every reachable state, when the complete frames read from a channel parse and its SUBSCRIBEs carry ids: bytes fed are a prefix of bytes read, frames processed a prefix of the stream cut at NUL and parsed; all of it once the pool is idle and the selector has no task in hand |
| `Reactor.ProcessedUntilRaise` | Real-Time-Messaging-System-STOMP-over-Java-C/server/src/main/java/bgu/spl/net/srv/NonBlockingConnectionHandler.java:54-67 | in every reachable state, on any input: the frames processed are those of the bytes fed, and these are a prefix of the bytes read or agree with them up to and including a frame that raises |
| `Reactor.NothingDroppedIff` | Real-Time-Messaging-System-STOMP-over-Java-C/server/src/main/java/bgu/spl/net/srv/NonBlockingConnectionHandler.java:54-67 | with the pool idle and no task in hand, by the reads alone: if the NUL of every raising frame is the last byte of its own read, everything read was decoded; if everything was, that holds of every frame that does not parse; and it is an if and only if when every SUBSCRIBE has an id |
| `Reactor.NothingCutIff` | Real-Time-Messaging-System-STOMP-over-Java-C/server/src/main/java/bgu/spl/net/srv/NonBlockingConnectionHandler.java:54-67 | each finished task decoded all of its bytes, or stopped at the NUL of a raising frame; everything read was decoded if and only if no task that raised stopped before its last byte |
| `Drops.BytesDropped` | Real-Time-Messaging-System-STOMP-over-Java-C/server/src/main/java/bgu/spl/net/srv/NonBlockingConnectionHandler.java:54-67 | a run in which one read holds a SUBSCRIBE without id and one more byte: the frame parses and is processed, and the byte is dropped |
| `Closing.LastTest` | Real-Time-Messaging-System-STOMP-over-Java-C/server/src/main/java/bgu/spl/net/srv/NonBlockingConnectionHandler.java:104-105 | whenever the selector is between the second emptiness test and the test of the termination flag, that test saw an empty queue, and the queue holds exactly what workers added since |
| `Closing.ClosedExactly` | Real-Time-Messaging-System-STOMP-over-Java-C/server/src/main/java/bgu/spl/net/srv/NonBlockingConnectionHandler.java:104-105 | at the close of a connection that is to end, all that was enqueued before the second emptiness test is written and nothing that came after it: the queue is empty at the close if and only if no worker put a buffer into it in between |
| `Closing.NeverWritten` | Real-Time-Messaging-System-STOMP-over-Java-C/server/src/main/java/bgu/spl/net/srv/NonBlockingConnectionHandler.java:76-82 | and nothing is written to that connection in any run from there, so a buffer queued at the close is lost |
| `Unflushed.ReceiptUnwritten` | Real-Time-Messaging-System-STOMP-over-Java-C/server/src/main/java/bgu/spl/net/srv/NonBlockingConnectionHandler.java:104-105 | a run of the reactor from its start, one CONNECT and one DISCONNECT with a receipt in one read, that writes the first reply and closes the channel with the RECEIPT queued |
| `Unflushed.FramesAnswered` | Real-Time-Messaging-System-STOMP-over-Java-C/server/src/main/java/bgu/spl/net/impl/stomp/DisconnectFrame.java:16-21 | the messages that run sends are the broker's answers to its two frames |
| `Reactor.ConnectionsExclusive` | Real-Time-Messaging-System-STOMP-over-Java-C/server/src/main/java/bgu/spl/net/srv/Reactor.java:99-115 | no two workers are inside tasks of one connection; the id a protocol was started with, in a step of its own, is the one generated and registered later |
| `Writes.SendCovered` | Real-Time-Messaging-System-STOMP-over-Java-C/server/src/main/java/bgu/spl/net/srv/Reactor.java:86-96 | adding the buffer, adding the task and waking the selector, as three separate steps of a worker, never leave a queued buffer that nobody will turn into OP_WRITE interest |
| `Writes.SelectorCovered` | Real-Time-Messaging-System-STOMP-over-Java-C/server/src/main/java/bgu/spl/net/srv/NonBlockingConnectionHandler.java:104-107 | nor does any selector step, including the gap between the second emptiness test and the switch back to OP_READ |
| `Writes.DrainEnds` | Real-Time-Messaging-System-STOMP-over-Java-C/server/src/main/java/bgu/spl/net/srv/NonBlockingConnectionHandler.java:89-102 | with no concurrent add every step of the drain loop leaves it or decreases a bound on the steps left |
| `Writes.DrainRun` | Real-Time-Messaging-System-STOMP-over-Java-C/server/src/main/java/bgu/spl/net/srv/NonBlockingConnectionHandler.java:89-102 | while nobody adds, the selector's steps in the drain loop are a run that writes what the drain function says and changes nothing else |
| `Writes.DrainedBytes` | Real-Time-Messaging-System-STOMP-over-Java-C/server/src/main/java/bgu/spl/net/srv/NonBlockingConnectionHandler.java:89-102 | the drain function writes exactly the next pending bytes, as many as the channel has room for, and empties the queue if and only if there was room for all |
| `Writes.ContinueWriteRun` | Real-Time-Messaging-System-STOMP-over-Java-C/server/src/main/java/bgu/spl/net/srv/NonBlockingConnectionHandler.java:88-108 | the whole of continueWrite as a run, up to OP_READ or the close that an emptied queue leads to |
| `Ownership.StepOwned` | Real-Time-Messaging-System-STOMP-over-Java-C/server/src/main/java/bgu/spl/net/srv/NonBlockingConnectionHandler.java:110-122 | every step keeps the buffers divided; each lease is given back exactly once, also when decoding throws |
| `Ownership.StepContents` | Real-Time-Messaging-System-STOMP-over-Java-C/server/src/main/java/bgu/spl/net/srv/NonBlockingConnectionHandler.java:52-67 | no step overwrites a buffer that a task still has to drain |
| `ActorPool.ActorsExclusive` | Real-Time-Messaging-System-STOMP-over-Java-C/server/src/main/java/bgu/spl/net/srv/ActorThreadPool.java:28-37 | over every run, with tasks that return or throw: at most one job per actor is queued, running or completing |
| `ActorPool.ActorsInOrder` | Real-Time-Messaging-System-STOMP-over-Java-C/server/src/main/java/bgu/spl/net/srv/ActorThreadPool.java:43-76 | over every run the tasks started for an actor are a prefix of those submitted, and an actor with pending tasks is in play |
| `ActorPool.NothingStranded` | Real-Time-Messaging-System-STOMP-over-Java-C/server/src/main/java/bgu/spl/net/srv/ActorThreadPool.java:67-76 | when the executor is idle every submitted task of every actor has been started |
| `ActorPool.NoDeadlock` | Real-Time-Messaging-System-STOMP-over-Java-C/server/src/main/java/bgu/spl/net/srv/ActorThreadPool.java:57-65 | as long as it is not idle some thread can take a step |
| `Scheduler.ActorThreadPool.Submit` | Real-Time-Messaging-System-STOMP-over-Java-C/server/src/main/java/bgu/spl/net/srv/ActorThreadPool.java:28-37 | the object's submit computes exactly the step system's submit |
| `Scheduler.ActorThreadPool.Complete` | Real-Time-Messaging-System-STOMP-over-Java-C/server/src/main/java/bgu/spl/net/srv/ActorThreadPool.java:67-76 | the object's complete computes exactly the step system's complete |
| `Handlers.NonBlockingConnectionHandler.ContinueRead` | Real-Time-Messaging-System-STOMP-over-Java-C/server/src/main/java/bgu/spl/net/srv/NonBlockingConnectionHandler.java:42-74 | what was read is in a pooled or new buffer ready for draining; at the end of the stream the leased buffer itself is back in the pool and the channel closed |
| `Handlers.NonBlockingConnectionHandler.RunReadTask` | Real-Time-Messaging-System-STOMP-over-Java-C/server/src/main/java/bgu/spl/net/srv/NonBlockingConnectionHandler.java:54-67 | the task's loop computes the feeding function on inbox, exception and termination flag, and the buffer is released in every case |
| `Handlers.TaskRun` | Real-Time-Messaging-System-STOMP-over-Java-C/server/src/main/java/bgu/spl/net/srv/NonBlockingConnectionHandler.java:54-67 | the feeding function is what a worker's steps do: a run of the read side from the task's start to the end of its loop or its exception |
| `Handlers.TaskDecodes` | Real-Time-Messaging-System-STOMP-over-Java-C/server/src/main/java/bgu/spl/net/srv/NonBlockingConnectionHandler.java:54-67 | a task without an exception decodes all its bytes and processes exactly the frames they complete |
| `Handlers.NonBlockingConnectionHandler.ContinueWrite` | Real-Time-Messaging-System-STOMP-over-Java-C/server/src/main/java/bgu/spl/net/srv/NonBlockingConnectionHandler.java:88-108 | the loop computes the drain function; then OP_READ or close exactly when the queue is empty |
| `Handlers.NonBlockingConnectionHandler.Send` | Real-Time-Messaging-System-STOMP-over-Java-C/server/src/main/java/bgu/spl/net/srv/NonBlockingConnectionHandler.java:124-128 | one encoding appended to the queue, one interest task to the selector's, and the selector woken; the interest itself is unchanged until the task runs |
| `Handlers.Reactor.UpdateInterestedOps` | Real-Time-Messaging-System-STOMP-over-Java-C/server/src/main/java/bgu/spl/net/srv/Reactor.java:86-96 | the interest changes at once on the selector thread; elsewhere a task is queued and the selector woken |
| `Handlers.Reactor.RunSelectionThreadTasks` | Real-Time-Messaging-System-STOMP-over-Java-C/server/src/main/java/bgu/spl/net/srv/Reactor.java:133-137 | all queued interest changes take effect in order and the queue is empty: a connection with queued changes has the interest of its last one, every other keeps its own |
| `Handlers.Reactor.HandleAccept` | Real-Time-Messaging-System-STOMP-over-Java-C/server/src/main/java/bgu/spl/net/srv/Reactor.java:99-115 | the id given to the protocol is the one generated and registered with the connections, and the counter moves on by one with wrap-around |
| `Modes.BlockingConnectionHandler.Run` | Real-Time-Messaging-System-STOMP-over-Java-C/server/src/main/java/bgu/spl/net/srv/BlockingConnectionHandler.java:35-60 | the loop processes exactly the decoded frames up to the first DISCONNECT, unparsable frame or exception |
| `Modes.ModesAgree` | Real-Time-Messaging-System-STOMP-over-Java-C/server/src/main/java/bgu/spl/net/srv/BlockingConnectionHandler.java:42-47 | on a stream in which nothing up to the first DISCONNECT can raise, the blocking loop processes exactly the frames up to it; the reactor's frames up to its first DISCONNECT are a prefix of these, and all of them once it has processed a DISCONNECT or is idle |
| `Codec.ParseWellFormed` | Real-Time-Messaging-System-STOMP-over-Java-C/server/src/main/java/bgu/spl/net/impl/stomp/StompEncodeDecoder.java:30-64 | every accepted text gives a client command, trimmed colon-free keys, trimmed one-line values and a trimmed body |
| `Codec.ParsePrinted` | Real-Time-Messaging-System-STOMP-over-Java-C/server/src/main/java/bgu/spl/net/impl/stomp/Frame.java:47-68 | printing, in any header order, and parsing are inverse on well-formed frames |
| `Codec.ParseCanonical` | Real-Time-Messaging-System-STOMP-over-Java-C/server/src/main/java/bgu/spl/net/impl/stomp/StompEncodeDecoder.java:30-64 | reprinting an accepted text in any header order and parsing again gives the same frame |
| `Codec.RoundTripIffWellFormed` | Real-Time-Messaging-System-STOMP-over-Java-C/server/src/main/java/bgu/spl/net/impl/stomp/StompEncodeDecoder.java:30-64 | a frame survives printing and parsing if and only if it is well-formed |
| `Codec.LastHeaderWins` | Real-Time-Messaging-System-STOMP-over-Java-C/server/src/main/java/bgu/spl/net/impl/stomp/StompEncodeDecoder.java:43-52 | a repeated header has the value of its last line; a key is present exactly when some line carries it |
| `Parsing.ParseOkIff` | Real-Time-Messaging-System-STOMP-over-Java-C/server/src/main/java/bgu/spl/net/impl/stomp/StompEncodeDecoder.java:30-81 | a text is accepted if and only if its first line, trimmed, is CONNECT, SEND, SUBSCRIBE, UNSUBSCRIBE or DISCONNECT and every further line up to the first empty one has a colon; the command is that first line |
| `Parsing.ParseErrors` | Real-Time-Messaging-System-STOMP-over-Java-C/server/src/main/java/bgu/spl/net/impl/stomp/StompEncodeDecoder.java:30-81 | the exception for every other text: newlines alone, then an unknown first line, then the first header line without a colon |
| `Parsing.SplitSays` | Real-Time-Messaging-System-STOMP-over-Java-C/server/src/main/java/bgu/spl/net/impl/stomp/StompEncodeDecoder.java:31-34 | the lines are the pieces between newlines without the empty ones at the end; there is none exactly for newlines alone, and a text without newline is its own line |
| `Parsing.HeaderParts` | Real-Time-Messaging-System-STOMP-over-Java-C/server/src/main/java/bgu/spl/net/impl/stomp/StompEncodeDecoder.java:45-47 | key and value of any header line are its parts before and after the first colon, each without the characters up to 32 around it |
| `Parsing.TrimIsOne` | Real-Time-Messaging-System-STOMP-over-Java-C/server/src/main/java/bgu/spl/net/impl/stomp/StompEncodeDecoder.java:47 | there is only one such part: trimming is determined by its description |
| `Parsing.ParseBody` | Real-Time-Messaging-System-STOMP-over-Java-C/server/src/main/java/bgu/spl/net/impl/stomp/StompEncodeDecoder.java:54-61 | the body is what follows the first empty line, without the characters up to 32 around it |
| `Parsing.ParseNoBody` | Real-Time-Messaging-System-STOMP-over-Java-C/server/src/main/java/bgu/spl/net/impl/stomp/StompEncodeDecoder.java:55 | and without an empty line it is empty |
| `Parsing.PrintedExactly` | Real-Time-Messaging-System-STOMP-over-Java-C/server/src/main/java/bgu/spl/net/impl/stomp/Frame.java:47-68 | a reader that trims nothing gets any frame back from its printed text, in every header order: the text has no character more or less |
| `Text.TrimStrips` | Real-Time-Messaging-System-STOMP-over-Java-C/client/src/StompClient.cpp:20-32 | exactly the code points up to 32 are stripped by the server and exactly 9 to 13 and 32 by the client |
| `Stream.DecodeIsCut` | Real-Time-Messaging-System-STOMP-over-Java-C/server/src/main/java/bgu/spl/net/impl/stomp/StompEncodeDecoder.java:10-22 | the byte-at-a-time decoder computes: cut the text at NUL, parse each complete piece, keep the rest |
| `Stream.DecodeReadsIsDecode` | Real-Time-Messaging-System-STOMP-over-Java-C/server/src/main/java/bgu/spl/net/impl/stomp/StompEncodeDecoder.java:10-22 | how the bytes are split into reads makes no difference |
| `Stream.StreamRoundTrip` | Real-Time-Messaging-System-STOMP-over-Java-C/server/src/main/java/bgu/spl/net/impl/stomp/StompEncodeDecoder.java:11-28 | every list of well-formed plain frames comes back from its concatenated encodings, with an empty buffer, under any chunking |
| `Utf8.ReadsBack` | Real-Time-Messaging-System-STOMP-over-Java-C/server/src/main/java/bgu/spl/net/impl/stomp/StompEncodeDecoder.java:27 | for every text, a UTF-8 reader (the lead byte gives the length, each continuation byte six bits, most significant first) gets it back from the encoded bytes |
| `Utf8.CharShape` | Real-Time-Messaging-System-STOMP-over-Java-C/server/src/main/java/bgu/spl/net/impl/stomp/StompEncodeDecoder.java:27 | a character takes the shortest form: one, two, three or four bytes by its code point, the first announcing that many and the others from 80 to BF |
| `Utf8.Echoed` | Real-Time-Messaging-System-STOMP-over-Java-C/server/src/main/java/bgu/spl/net/impl/stomp/StompEncodeDecoder.java:18-19 | a byte from 80 on comes in as a character from U+FF80 to U+FFFF and so goes out as EF BE and itself, or EF BF and itself less 40 |
| `Garble.ByteRoundTripIff` | Real-Time-Messaging-System-STOMP-over-Java-C/server/src/main/java/bgu/spl/net/impl/stomp/StompEncodeDecoder.java:11-28 | a frame is decoded from its encoding with nothing left over if and only if it is well-formed and all its characters are 1..127 |
| `FrameCodec.StompFrame.ToText` | Real-Time-Messaging-System-STOMP-over-Java-C/server/src/main/java/bgu/spl/net/impl/stomp/Frame.java:47-68 | the printed text for the order in which the map was iterated |
| `FrameCodec.StompEncodeDecoder.DecodeNextByte` | Real-Time-Messaging-System-STOMP-over-Java-C/server/src/main/java/bgu/spl/net/impl/stomp/StompEncodeDecoder.java:11-22 | buffer and result are those of the decoding function; the buffer is emptied before a parse that throws |
| `FrameCodec.StompEncodeDecoder.Encode` | Real-Time-Messaging-System-STOMP-over-Java-C/server/src/main/java/bgu/spl/net/impl/stomp/StompEncodeDecoder.java:25-28 | the bytes of the printed frame with its final NUL, for an iteration order of its headers; a UTF-8 reader gets that text from them |
| `FrameCodec.StompEncodeDecoder.ParseText` | Real-Time-Messaging-System-STOMP-over-Java-C/server/src/main/java/bgu/spl/net/impl/stomp/StompEncodeDecoder.java:30-64 | the parsing loops compute the parsing function, error cases included |
| `Subscriptions.FrameAgrees` | Real-Time-Messaging-System-STOMP-over-Java-C/server/src/main/java/bgu/spl/net/impl/stomp/ConnectionsImpl.java:58-116 | one frame keeps the two indexes in agreement if and only if it is harmless: a SUBSCRIBE let through carries an id, an UNSUBSCRIBE names an id nobody else alive holds |
| `Subscriptions.FrameSimulates` | Real-Time-Messaging-System-STOMP-over-Java-C/server/src/main/java/bgu/spl/net/impl/stomp/ConnectionsImpl.java:58-116 | a harmless frame does to the indexes exactly what it does to the simple subscription relation |
| `Subscriptions.UnsubscribeAgrees` | Real-Time-Messaging-System-STOMP-over-Java-C/server/src/main/java/bgu/spl/net/impl/stomp/ConnectionsImpl.java:105-116 | unsubscribing keeps agreement exactly when every holder of the id is the caller, or without handler on a channel where the caller has no other id |
| `Subscriptions.DisconnectAgrees` | Real-Time-Messaging-System-STOMP-over-Java-C/server/src/main/java/bgu/spl/net/impl/stomp/ConnectionsImpl.java:57-76 | disconnecting always keeps agreement and removes exactly the caller from the relation |
| `Runs.AgreementIffHarmless` | Real-Time-Messaging-System-STOMP-over-Java-C/server/src/main/java/bgu/spl/net/impl/stomp/ConnectionsImpl.java:58-116 | the indexes agree throughout a run if and only if every event of it was harmless |
| `Runs.IndexAgreement` | Real-Time-Messaging-System-STOMP-over-Java-C/server/src/main/java/bgu/spl/net/impl/stomp/ConnectionsImpl.java:81-116 | under id ownership, in every reachable state, the indexes agree and show the subscription relation that a simple replay of the run gives |
| `Runs.BroadcastRefines` | Real-Time-Messaging-System-STOMP-over-Java-C/server/src/main/java/bgu/spl/net/impl/stomp/ConnectionsImpl.java:36-54 | a SEND delivers one complete MESSAGE for the topic with the same body to each live subscriber, none to anybody else, and leaves the relation unchanged |
| `Runs.MessagesNameIds` | Real-Time-Messaging-System-STOMP-over-Java-C/server/src/main/java/bgu/spl/net/impl/stomp/ConnectionsImpl.java:43-48 | the subscription header of every copy is an id of its channel |
| `Limits.NamesOwnIff` | Real-Time-Messaging-System-STOMP-over-Java-C/server/src/main/java/bgu/spl/net/impl/stomp/ConnectionsImpl.java:43-48 | a subscriber's copy carries its own subscription id, for every visiting order, if and only if all entries of the channel have that id |
| `Runs.NextIdFreshIff` | Real-Time-Messaging-System-STOMP-over-Java-C/server/src/main/java/bgu/spl/net/srv/Reactor.java:144-146 | the next connection id is a new one if and only if fewer than 2^32 were handed out |
| `Runs.NeverReusedIff` | Real-Time-Messaging-System-STOMP-over-Java-C/server/src/main/java/bgu/spl/net/srv/Reactor.java:144-146 | no connection id is reused in a run if and only if the run has at most 2^32 accepts |
| `Histories.ReceiptsExact` | Real-Time-Messaging-System-STOMP-over-Java-C/server/src/main/java/bgu/spl/net/impl/stomp/StompMessagesProtocol.java:24-37 | the RECEIPT ids delivered to a connection are, in order, the receipt headers of the frames it had processed without an error while it had a handler |
| `Histories.AnswersExact` | Real-Time-Messaging-System-STOMP-over-Java-C/server/src/main/java/bgu/spl/net/impl/stomp/ConnectFrame.java:34-68 | over every run a connection gets exactly one ERROR for each of its frames rejected while it had a handler, exactly one CONNECTED for each CONNECT accepted then, and no others |
| `Histories.FrameCommands` | Real-Time-Messaging-System-STOMP-over-Java-C/server/src/main/java/bgu/spl/net/impl/stomp/ConnectionsImpl.java:94-99 | processing a frame ends in an exception if and only if it is a SUBSCRIBE let through without an id; of the frames' own replies only DISCONNECT's is a RECEIPT |
| `Histories.SilenceAfterEnd` | Real-Time-Messaging-System-STOMP-over-Java-C/server/src/main/java/bgu/spl/net/impl/stomp/ConnectionsImpl.java:58-76 | after a connection's DISCONNECT or rejected frame nothing is delivered to it for the rest of the run |
| `Histories.ErrorIsLast` | Real-Time-Messaging-System-STOMP-over-Java-C/server/src/main/java/bgu/spl/net/impl/stomp/ConnectFrame.java:64-68 | an ERROR is the last thing its connection ever gets |
| `Broker.ProcessReplies` | Real-Time-Messaging-System-STOMP-over-Java-C/server/src/main/java/bgu/spl/net/impl/stomp/StompMessagesProtocol.java:24-37 | every frame but a successful SEND is answered to its sender only, and if the sender has a handler by exactly its answer: an ERROR for a rejected frame and nothing after it, a CONNECTED for an accepted CONNECT; then at most a RECEIPT |
| `Replies.ConnectAnswered` | Real-Time-Messaging-System-STOMP-over-Java-C/server/src/main/java/bgu/spl/net/impl/stomp/ConnectFrame.java:20-61 | a CONNECT from a reachable connection is answered CONNECTED if and only if it has login and passcode and the login is unknown, or its user is not connected and has that passcode; then the user is connected over it and nothing else changes; a refusal connects nobody |
| `Replies.ErrorSays` | Real-Time-Messaging-System-STOMP-over-Java-C/server/src/main/java/bgu/spl/net/impl/stomp/ErrorFrame.java:17-25 | every rejected frame of a reachable connection gets one ERROR: its `message` is the text of the first test it fails, its `receipt-id` is there exactly when a receipt was asked for, its body quotes the frame as printed with its NUL between two rules |
| `Replies.AcceptedSays` | Real-Time-Messaging-System-STOMP-over-Java-C/server/src/main/java/bgu/spl/net/impl/stomp/StompMessagesProtocol.java:24-37 | what a reachable client is told about any other frame but SEND, word for word: CONNECTED for CONNECT, then the RECEIPT it asked for |
| `Replies.SendSays` | Real-Time-Messaging-System-STOMP-over-Java-C/server/src/main/java/bgu/spl/net/impl/stomp/SendFrame.java:21-35 | a SEND to a topic, with or without one leading slash, reaches exactly its live subscribers with destination `/` and the topic, and then the sender with the RECEIPT it asked for |
| `Sessions.SessionHolds` | Real-Time-Messaging-System-STOMP-over-Java-C/server/src/main/java/bgu/spl/net/impl/stomp/ConnectFrame.java:27-59 | from a login on, the passcode stays and the session stays with its connection until that connection ends |
| `Sessions.SessionsExclusive` | Real-Time-Messaging-System-STOMP-over-Java-C/server/src/main/java/bgu/spl/net/impl/stomp/ConnectFrame.java:39-60 | between two logins under one name the first holder's connection ended, and both gave the same passcode |
| `Sessions.TableShowsLatest` | Real-Time-Messaging-System-STOMP-over-Java-C/server/src/main/java/bgu/spl/net/impl/stomp/ServerStorage.java:31-37 | the user table names the connection of the latest login |
| `Sessions.ConnectionsDistinct` | Real-Time-Messaging-System-STOMP-over-Java-C/server/src/main/java/bgu/spl/net/impl/stomp/ServerStorage.java:31-37 | if no connection logs in twice, different users show different connections |
| `Sessions.LogoutExact` | Real-Time-Messaging-System-STOMP-over-Java-C/server/src/main/java/bgu/spl/net/impl/stomp/ServerStorage.java:39-44 | and then a disconnect logs out exactly the user whose latest login came from that connection |
| `Sessions.LoginDecided` | Real-Time-Messaging-System-STOMP-over-Java-C/server/src/main/java/bgu/spl/net/impl/stomp/ConnectFrame.java:27-60 | over runs in which connections have logged in once each: a CONNECT logs its user in if and only if nobody has logged in under that name, or the connection of the latest login has ended since and the passcode is the one given then; a reachable sender is told CONNECTED exactly then |
| `Logins.ReturningUser` | Real-Time-Messaging-System-STOMP-over-Java-C/server/src/main/java/bgu/spl/net/impl/stomp/ConnectFrame.java:56-59 | a run from the start in which a user logs in, logs out and logs in again over another connection |
| `Limits.LogoutCompleteIff` | Real-Time-Messaging-System-STOMP-over-Java-C/server/src/main/java/bgu/spl/net/impl/stomp/ServerStorage.java:39-44 | a disconnect logs out everybody on the connection, whichever user it finds first, if and only if no logged-in user shares the connection with another |
| `MessageIds.BroadcastAdvances` | Real-Time-Messaging-System-STOMP-over-Java-C/server/src/main/java/bgu/spl/net/impl/stomp/ConnectionsImpl.java:36-54 | a broadcast to n set members over k subscriptions advances the counter by n*k, with int wrap-around |
| `MessageIds.CounterIsIssued` | Real-Time-Messaging-System-STOMP-over-Java-C/server/src/main/java/bgu/spl/net/impl/stomp/ConnectionsImpl.java:124-126 | the counter is always the number of ids issued in the run, wrapped |
| `MessageIds.MessageIdsIncrease` | Real-Time-Messaging-System-STOMP-over-Java-C/server/src/main/java/bgu/spl/net/impl/stomp/ConnectionsImpl.java:124-126 | while at most 2^31 ids were issued, every delivered MESSAGE of a harmless run has a message-id and the ids strictly increase in delivery order |
| `MessageIds.MessageIdsDistinct` | Real-Time-Messaging-System-STOMP-over-Java-C/server/src/main/java/bgu/spl/net/impl/stomp/ConnectionsImpl.java:46-46 | and so the message-id headers of delivered MESSAGEs are pairwise different strings |
| `MessageIds.CopiesNumbered` | Real-Time-Messaging-System-STOMP-over-Java-C/server/src/main/java/bgu/spl/net/impl/stomp/ConnectionsImpl.java:43-49 | over every run: each copy of a SEND has exactly these headers, and its message-id is the number of ids taken before it in the run and by its own broadcast up to it, less one, wrapped to an int |
| `Limits.NextIdLargerIff` | Real-Time-Messaging-System-STOMP-over-Java-C/server/src/main/java/bgu/spl/net/impl/stomp/ConnectionsImpl.java:124-126 | after a broadcast the counter is larger if and only if the number of ids taken, modulo 2^32, is not 0 and does not carry the counter past the largest int |
| `Limits.OthersIdSent` | Real-Time-Messaging-System-STOMP-over-Java-C/server/src/main/java/bgu/spl/net/impl/stomp/ConnectionsImpl.java:43-48 | a run from the start after which a SEND gives one subscriber a copy with the other's subscription id |
| `Limits.LogoutMissesOne` | Real-Time-Messaging-System-STOMP-over-Java-C/server/src/main/java/bgu/spl/net/impl/stomp/ServerStorage.java:39-44 | a run from the start, two logins over one connection and a DISCONNECT, after which one of the two is still connected |
| `Limits.SharedIdBreaks` | Real-Time-Messaging-System-STOMP-over-Java-C/server/src/main/java/bgu/spl/net/impl/stomp/ConnectionsImpl.java:111-113 | a run from the start after which two connections' shared id is gone for both, and one of them is still in the first index |
| `Limits.MissingIdBreaks` | Real-Time-Messaging-System-STOMP-over-Java-C/server/src/main/java/bgu/spl/net/impl/stomp/ConnectionsImpl.java:94-99 | a run from the start in which a SUBSCRIBE without id throws after the set was changed, and the indexes disagree |
| `Server.ServerStorage.AddUser` | Real-Time-Messaging-System-STOMP-over-Java-C/server/src/main/java/bgu/spl/net/impl/stomp/ServerStorage.java:19-21 | a new user under an unused name, else nothing; says which |
| `Server.ServerStorage.ConnectUser` | Real-Time-Messaging-System-STOMP-over-Java-C/server/src/main/java/bgu/spl/net/impl/stomp/ServerStorage.java:31-37 | exactly the named user is connected, with the given connection |
| `Server.ServerStorage.DisconnectUser` | Real-Time-Messaging-System-STOMP-over-Java-C/server/src/main/java/bgu/spl/net/impl/stomp/ServerStorage.java:39-44 | one user with this connection is logged out if there is any, else nobody |
| `Server.ConnectionsImpl.Send` | Real-Time-Messaging-System-STOMP-over-Java-C/server/src/main/java/bgu/spl/net/impl/stomp/ConnectionsImpl.java:26-33 | one delivery if there is a handler, nothing otherwise, and the result says so |
| `Server.ConnectionsImpl.SendToChannel` | Real-Time-Messaging-System-STOMP-over-Java-C/server/src/main/java/bgu/spl/net/impl/stomp/ConnectionsImpl.java:36-54 | the nested loops compute the broadcast function for some visiting order of the set: deliveries and counter |
| `Server.ConnectionsImpl.Stamp` | Real-Time-Messaging-System-STOMP-over-Java-C/server/src/main/java/bgu/spl/net/impl/stomp/ConnectionsImpl.java:43-48 | after the inner loop the copy has the last visited subscription id and the last id taken; one id is taken per subscription |
| `Server.ConnectionsImpl.Disconnect` | Real-Time-Messaging-System-STOMP-over-Java-C/server/src/main/java/bgu/spl/net/impl/stomp/ConnectionsImpl.java:57-76 | the loop over the channels, the handler removal and the logout compute the disconnect function |
| `Server.ConnectionsImpl.Subscribe` | Real-Time-Messaging-System-STOMP-over-Java-C/server/src/main/java/bgu/spl/net/impl/stomp/ConnectionsImpl.java:81-102 | both indexes and the exception computed as by the subscribe function |
| `Server.ConnectionsImpl.Unsubscribe` | Real-Time-Messaging-System-STOMP-over-Java-C/server/src/main/java/bgu/spl/net/impl/stomp/ConnectionsImpl.java:105-116 | the loop over the channels computes the unsubscribe function |
| `Protocol.StompMessagesProtocol.Process` | Real-Time-Messaging-System-STOMP-over-Java-C/server/src/main/java/bgu/spl/net/impl/stomp/StompMessagesProtocol.java:24-37 | state, deliveries, exception and termination flag after a frame are those of the broker's step for some legal choice of the hash orders |
| `Protocol.StompMessagesProtocol.ProcessConnect` | Real-Time-Messaging-System-STOMP-over-Java-C/server/src/main/java/bgu/spl/net/impl/stomp/ConnectFrame.java:20-61 | the CONNECT branches compute the step: refusal with ERROR and disconnect, or login and CONNECTED |
| `Protocol.StompMessagesProtocol.ProcessSend` | Real-Time-Messaging-System-STOMP-over-Java-C/server/src/main/java/bgu/spl/net/impl/stomp/SendFrame.java:21-35 | the SEND branches compute the step |
| `Protocol.StompMessagesProtocol.ProcessSubscribe` | Real-Time-Messaging-System-STOMP-over-Java-C/server/src/main/java/bgu/spl/net/impl/stomp/SubscribeFrame.java:20-49 | the SUBSCRIBE branches compute the step, with the exception for a missing id |
| `Protocol.StompMessagesProtocol.ProcessUnsubscribe` | Real-Time-Messaging-System-STOMP-over-Java-C/server/src/main/java/bgu/spl/net/impl/stomp/UnsubscribeFrame.java:18-29 | the UNSUBSCRIBE branches compute the step |
| `Protocol.StompMessagesProtocol.ProcessDisconnect` | Real-Time-Messaging-System-STOMP-over-Java-C/server/src/main/java/bgu/spl/net/impl/stomp/DisconnectFrame.java:16-21 | the receipt first, then the disconnect |
| `Protocol.StompMessagesProtocol.Fail` | Real-Time-Messaging-System-STOMP-over-Java-C/server/src/main/java/bgu/spl/net/impl/stomp/ConnectFrame.java:64-68 | an ERROR that quotes the frame, then the disconnect |
| `Pipeline.SendParses` | Real-Time-Messaging-System-STOMP-over-Java-C/client/src/StompClient.cpp:393-400 | the server reads a report's SEND text as a SEND to the channel whose body is the event text without its trailing blanks |
| `Pipeline.MessageReads` | Real-Time-Messaging-System-STOMP-over-Java-C/client/src/event.cpp:104-155 | any frame that carries the report's body, with any header order, is read back as the same event |
| `Pipeline.WholeIffColonFree` | Real-Time-Messaging-System-STOMP-over-Java-C/client/src/event.cpp:115-121 | every field arrives whole, with one blank in front, if and only if no value contains a colon |
| `Pipeline.MeaningSurvives` | Real-Time-Messaging-System-STOMP-over-Java-C/client/src/event.cpp:85-102 | same date; user, city, name, description and entries the same up to trim; the only further entry is the one the description line adds |
| `Reports.ReportReachesSubscribers` | Real-Time-Messaging-System-STOMP-over-Java-C/client/src/StompClient.cpp:67-71 | in every reachable state under id ownership a report reaches exactly the channel's subscribers, once each, and each reads the same event from its MESSAGE |
| `Reports.ReportOverWire` | Real-Time-Messaging-System-STOMP-over-Java-C/client/src/ConnectionHandler.cpp:76-99 | byte for byte, in every reachable state under id ownership when all that was received is characters 1..127: the server decodes the SEND, a MESSAGE is delivered to exactly the channel's subscribers, and each reads the event from its bytes |
| `Client.SplitStr` | Real-Time-Messaging-System-STOMP-over-Java-C/client/src/event.cpp:11-17 | the getline loop cuts at the delimiter and drops an empty last piece |
| `Client.Event.ToText` | Real-Time-Messaging-System-STOMP-over-Java-C/client/src/event.cpp:85-102 | the printed text for the order in which the entries were iterated |
| `Shown.EventLines` | Real-Time-Messaging-System-STOMP-over-Java-C/client/src/event.cpp:85-102 | the printed event is exactly its lines: city, name and date under their labels, each entry under its key, the description's lines, and at the end an owner line exactly if there is an owner |
| `Shown.OwnerShown` | Real-Time-Messaging-System-STOMP-over-Java-C/client/src/event.cpp:97-99 | the last line of an event with an owner has the key `Event Owner` and the owner as its value |
| `Shown.ReportExactly` | Real-Time-Messaging-System-STOMP-over-Java-C/client/src/StompClient.cpp:166-173 | the report's text, read without trimming: one destination header with a slash before the channel, and the user's line before the event in the body |
| `Shown.CarriedExactly` | Real-Time-Messaging-System-STOMP-over-Java-C/client/src/event.cpp:115-121 | a value arrives whole with its blank if it has no colon, without a single colon at its very end, and not at all otherwise |
| `Shown.OneField` | Real-Time-Messaging-System-STOMP-over-Java-C/client/src/event.cpp:122-140 | a line alone sets the field of its key and only it; other keys set nothing, and a date that is no int raises |
| `Shown.KeylessEntry` | Real-Time-Messaging-System-STOMP-over-Java-C/client/src/event.cpp:148-150 | an entry without a key raises |
| `Text.StoiReads` | Real-Time-Messaging-System-STOMP-over-Java-C/client/src/event.cpp:135 | blanks, an optional sign and digits are read as their value if it is an int, whatever follows |
| `Text.StoiFails` | Real-Time-Messaging-System-STOMP-over-Java-C/client/src/event.cpp:135 | and nothing else is a number |
| `Text.DecimalExactly` | Real-Time-Messaging-System-STOMP-over-Java-C/client/src/event.cpp:91 | an int is printed as a minus if negative and then its digits without a zero in front |
| `Client.EventFromFrame` | Real-Time-Messaging-System-STOMP-over-Java-C/client/src/event.cpp:104-155 | the parsing constructor computes the reading function, exceptions included |
| `Client.ReportFrames` | Real-Time-Messaging-System-STOMP-over-Java-C/client/src/StompClient.cpp:393-408 | one SEND text per event, in order, each with the event printed in some order of its entries |
| `Client.TrimText` | Real-Time-Messaging-System-STOMP-over-Java-C/client/src/StompClient.cpp:20-32 | the iterator loops compute the trim function |
| `Client.CountReports` | Real-Time-Messaging-System-STOMP-over-Java-C/client/src/StompClient.cpp:240-253 | the counting loops compute the three totals |
| `Summary.SummaryOfReceived` | Real-Time-Messaging-System-STOMP-over-Java-C/client/src/StompClient.cpp:240-253 | received events are counted as the original ones would be, under their author's name |
| `Summary.SummaryTotals` | Real-Time-Messaging-System-STOMP-over-Java-C/client/src/StompClient.cpp:255-257 | the totals for a user are the number of the user's original reports, of those with active = true and of those with forces_arrival_at_scene = true |
| `Summary.NamePadded` | Real-Time-Messaging-System-STOMP-over-Java-C/client/src/StompClient.cpp:243 | blanks around the author's or the asked user's name make no difference to the totals |
| `Summary.EntryPadded` | Real-Time-Messaging-System-STOMP-over-Java-C/client/src/StompClient.cpp:246-250 | nor do blanks around the key or the value of an entry |

## Left out

- Sockets, channel registration, thread creation, console and file output, JSON parsing and date formatting.
- I/O errors: after an IOException `continueWrite` closes the channel and tries the same buffer again for ever; conservation and termination are for error-free writes.
- Accept errors and shutdown of the pool. A key whose channel was closed is modelled only where it matters: setting its interest throws, and the selector's loop is over (`Dead`).
- The weak keys of the scheduler's map: a non-empty queue keeps its actor alive through the tasks in it.
- Races inside one frame's processing: the broker's step is one whole frame, while interleavings of the selector and the workers are in the step system of `Reactor`.
- What a frame's processing sends, and whether a SUBSCRIBE without id throws, is open in the reactor's step system; what it does to the broker is in the broker's runs. The two are not multiplied.
- The reactor's register step and the broker's accept: results that need a fresh connection id are for at most 2^32 accepts; `Runs.NeverReusedIff` is the exact condition for that.
- `MessageIds.MessageIdsIncrease`: is for at most 2^31 ids, since the counter wraps; `Limits.NextIdLargerIff` is the exact condition for one broadcast. `MessageIds.MessageIdsDistinct` shares the bound.
- `Pipeline.MessageReads`: reports with a line break in channel, user, city, name or an entry, or a colon in an entry's key, lose their line structure and are not covered.
- `Client.TrimText`: the original moves an iterator before the beginning for an empty text; the model's index goes to -1 and the result is empty.
- The client's two threads, its command line, receipts it waits for and the rest of its connection handler.
- The constructors of the client's frames on the server side, `printFormattedMessage` beyond the text it builds, and `User.toString`.
