# Tweaktool: a verified model

Tweaktool keeps a server's tree of named values ("tweaks") mirrored on a client. This project
models the parts of it that are hard to get right and proves what they are for.

| files | what they model |
|---|---|
| `Variants`, `ItemModel`, `JobQueue` | typed values, the item store with its URI index, the coalescing double-buffered job queue |
| `Peers` | the server and the client: what every critical section, worker job and message handler does to a peer's state |
| `Replication`, `ReplicationProofs`, `Settling`, `CallbackTrace`, `TypeChange` | the replication protocol as a transition system over both peers, two message channels and a link that can be lost, and its theorems over all runs |
| `History`, `ClientChanges`, `Beliefs` | what the server holds told by what was asked of it, a value set on the client taking effect on both sides, and what the client's application learns from its callbacks |
| `Runs`, `Contexts`, `Session` | the two mutable contexts with their tables and job queues, the proof that each of their handlers is a run of that transition system, and the two objects working together over a link |
| `Rpmsg`, `RpmsgProofs`, `RpmsgEscape`, `RpmsgConnection` | fragmentation into numbered chunks, reassembly under loss, the escape layer, and the connection object |
| `JsonGrammar`, `JsonStrings`, `Json`, `JsonShapes`, `JsonSyntax`, `JsonProofs`, `JsonLanguage`, `JsonTexts`, `JsonParser` | the characters of RFC 8259; the JSON reader: string literals, tokens, the machine with its stack, documents as written, and the one-pass parser with its buffers |
| `Layouts`, `Integers`, `NestedArrays`, `NestedRoundTrip`, `Flattening` | positions of elements in multi-dimensional values, printing and loading them as nested arrays, copying strided arrays |
| `Tokenizer`, `CommandLine`, `Vectors`, `PrefixSearch` | splitting and joining command lines, setting a vector to its printed form, prefix completion |
| `UriTree` | the tree of URI paths behind the user interface |

How to read it. Code that changes state step by step is a class or a method with loops, and its
`ensures` ties it to a function; the theorems are lemmas about those functions. The main results:

* **Replication.** `Replication.Next` interleaves application calls, critical sections, job queues,
  message deliveries, link loss and reconnection. The invariant is that the client, once it has
  drained the channel, agrees with the server on every item for which no job is queued and no
  client change is in flight. It gives `Convergence`, which says by type what the client holds,
  `Safety`, `EventualConvergence` and `TraceFaithful` for all runs. They say that the two agree; what
  they agree on is said without the handlers: `ServerHoldsLedger` has the server hold exactly the items
  added under a free URI and not removed, each with the last value that a call or an acceptable request
  wrote, `ClientSetTakesEffect` has a value set on the client end up on both sides under every schedule,
  and `BeliefsAreValues` has an application that only listens know the client's values. Every handler of the two mutable contexts is shown to be a run of
  this system, so that the two objects can be put to work together: `Session.Settle` works off
  whatever a run has left to do, ends, and leaves the tables of the two in agreement, and
  `Session.Connect` does so from a link that comes up, and `Session.SetOnClient` from a set on the
  client. `TypeChangeDiverges` shows that the one
  condition on the application, to keep type and size of an item when setting it, cannot be dropped.
* **RPMSG.** `NoSplicing` holds for every pattern of loss, timeouts, failed sends and stray packets;
  `LosslessDelivery`, `Resynchronises` and `DamagedChunk` say exactly what gets through, of the same
  wire (`UndisturbedIsAPattern`); `LossyConversation` carries
  this through the escape layer to the listeners; the connection object puts exactly that stream of
  chunks on the wire.
* **JSON.** Documents are written with the characters of `JsonGrammar`, which has them from RFC 8259 by
  their code points; `ReaderCharacters` says that the reader's are the same. `ParsesDocument` gives the exact condition under which a well-formed document is read as
  what it says. `AcceptsExactly` gives the exact language of the reader by its tokens and
  `AcceptsWritten` as texts. It differs from JSON in three ways. Numbers may be any run of their
  characters: `AcceptedIsJson` and `AcceptsJson` say exactly which accepted texts are JSON, and
  `LoneMinus` and `LeadingZero` are two that are not. The flag that marks the next string as a key
  survives an empty object, so a string after one is refused in an array (`StringAfterEmptyObject`)
  and a labelled element is let through (`LabelAfterEmptyObject`); `RefusedText` and `AcceptedText`
  are the shortest cases. And there are limits on depth and on the length of numbers. `DecodesUtf16`
  gives the exact condition under which surrogates are decoded as UTF-16 prescribes, and
  `StutterMisread` a literal that is not.
* **Numbers.** The types have the ranges of their widths (`RangeIsWidth`). A conversion to an integer type that reports success need not have kept the number:
  `ReadsInteger` says what becomes of every integer and `KeptExactly` when it is kept; `KeepsIntegers`
  and `ParseVector` carry this to whole buffers, and `LargeNumbersPass` and `MinusFive` are cases.
* **Layouts.** Column-major layouts of any rank are one-to-one, with the first index running fastest
  (`ColumnPlaces`). Row-major layouts take the product of the wrong dimensions in the middle of the
  rank; `RowMajorExactly` says for which dimensions this does no harm, `RowPlaces` that it is then the
  last index that runs fastest, and `RowMajorCube` spells it out for rank three. `Print` and `Load` are
  stated through these positions. `SetAsPrinted` follows a buffer through
  printing, the command line, the JSON reader and loading; `RestoredExactly` says for which layouts
  this gives the buffer back.
* **URI tree.** Every operation keeps the tree canonical, and `InsertRemove` undoes an insertion down
  to the order of the children.

Where code and comments disagree, the code is followed: item names of the URI tree are compared
exactly, although `TweakUriTree.hpp` calls them case-insensitive. Four branches are modelled as
intended: in the protocol, a push that had to wait for room writes the array that is current when it
goes on, and not the one chosen before the wait (`tweakappqueue.c:95`; `JobQueue.WaitedPush` and the
lemmas after it say what the program does instead); the inverted allocation test on the escape path
(`tweakwire_rpmsg.c:492`); the log line that reads an item that was not found
(`tweakappserver.c:234`); and the JSON reader on platforms where `char` is unsigned.

## Model

| member | source | states |
|---|---|---|
| ItemModel.InsertConsistent | tweak-app/src/tweakmodel.c:57-152 | adding an item with a free id and URI keeps item store and URI index mutual inverses |
| ItemModel.DeleteConsistent | tweak-app/src/tweakmodel_uri_to_tweak_id_index.c:59-122 | removing an item keeps item store and URI index mutual inverses |
| ItemModel.SetCurrentConsistent | tweak-app/src/tweakappcommon.c:332-365 | replacing a value keeps item store and URI index mutual inverses |
| JobQueue.FillingIsFirsts | tweak-app/src/tweakappqueue.c:93-115 | after any series of pulls and of pushes that find room, the pending jobs are the first occurrences of what was pushed since the last pull, in push order |
| JobQueue.FillingHasNoDuplicates | tweak-app/src/tweakappqueue.c:93-115 | after any series of pulls and of pushes that find room, the pending jobs contain no job twice |
| JobQueue.PulledBatch | tweak-app/src/tweakappqueue.c:57-75 | a pull hands over exactly the pending jobs, and later pushes that find room never change the batch being executed |
| JobQueue.PushIsPulled | tweak-app/src/tweakappqueue.c:57-115 | every push that finds room is answered by an equal job in the next pull |
| JobQueue.WaitedPush | tweak-app/src/tweakappqueue.c:93-115 | a push that had to wait lands among the pending jobs exactly when an even number of pulls happened meanwhile, else in the batch being executed |
| JobQueue.WaitedPushRepeats | tweak-app/src/tweakappqueue.c:93-115 | a push that had to wait can make the pending jobs contain a job twice, and does so exactly when an equal job is pending and an even number of pulls happened meanwhile |
| JobQueue.WaitedPushIsPulled | tweak-app/src/tweakappqueue.c:93-115 | a push that had to wait is answered by the next pull exactly when an even number of pulls happened meanwhile or an equal job is pending anyway |
| JobQueue.WaitedPushLost | tweak-app/src/tweakappqueue.c:93-115 | with a full queue and one pull meanwhile, the job that waited is not in the next pull |
| JobQueue.Queue.constructor | tweak-app/src/tweakappqueue.c:45-55 | a new queue has two empty arrays and is not stopped |
| JobQueue.Queue.Push | tweak-app/src/tweakappqueue.c:93-115 | the two arrays afterwards are those of the coalescing specification: an equal pending job is enough, a new one is appended, the other array is untouched; reports when it would have to wait |
| JobQueue.Queue.Contains | tweak-app/src/tweakappqueue.c:96-103 | the scan finds a job exactly when an equal one is pending |
| JobQueue.Queue.Append | tweak-app/src/tweakappqueue.c:108-110 | the job is appended to the pending ones and the batch being executed is unchanged |
| JobQueue.Queue.Grown | tweak-app/src/tweakappqueue.c:77-91 | a larger array with the same jobs |
| JobQueue.Queue.Pull | tweak-app/src/tweakappqueue.c:57-75 | swaps the two arrays and empties the one to be filled, without changing a job in either, and reports whether the queue was stopped |
| JobQueue.Queue.Stop | tweak-app/src/tweakappqueue.c:117-122 | marks the queue as stopped and changes no job |
| Contexts.ServerContext.AddItem | tweak-app/src/tweakappserver.c:442-517 | adding an item is a run of the protocol, the call and the push of its append job; the id is the new one, or the invalid one when the URI is taken; tables stay mutual inverses, and the job waits with its thread only when the queue is full |
| Contexts.ServerContext.RemoveItem | tweak-app/src/tweakappserver.c:531-563 | removing an item is such a run, and reports whether the item existed |
| Contexts.ServerContext.ReplaceCurrentValue | tweak-app/src/tweakappcommon.c:332-365 | setting a value is such a run: an equal value changes nothing and pushes nothing, and an unknown item is an error |
| Contexts.ServerContext.OnMessage | tweak-app/src/tweakappserver.c:178-245 | a message from the client is a run of the protocol, its receipt and the push of the job it calls for |
| Contexts.ServerContext.ChangeLocked | tweak-app/src/tweakappserver.c:211-245 | a change is written to the table exactly if the item exists and the value has its type and, for a vector, its size; the job decided on then names the item, and else none |
| Contexts.ServerContext.Pull | tweak-app/src/tweakappcommon.c:87-105 | the pull of the worker on the real queue is the pull of the protocol: the pending jobs become the batch |
| Contexts.ServerContext.Walk | tweak-app/src/tweakappserver.c:85-122 | the walk over the URI index sends the snapshot in walk order: of the items walked exactly the booleans and numbers are sent, and the strings and vectors if the client takes them |
| Contexts.ServerContext.Subscribed | tweak-app/src/tweakappserver.c:124-157 | the subscribe job sends the features, then the snapshot, and only then goes live |
| Contexts.ServerContext.RunJob | tweak-app/src/tweakappserver.c:279-370 | one job of the batch is one step of the protocol: append and remove jobs send whenever the link is up, change jobs only to a live client, and each reads the item when it runs |
| Contexts.ServerContext.OnConnected | tweak-app/src/tweakappserver.c:254-259 | a new connection is a step of the protocol: until the client says otherwise it is taken to support all the server does |
| Contexts.ServerContext.WakeApp | tweak-app/src/tweakappqueue.c:105-110 | a push of the application thread that had to wait is a step of the protocol once there is room, and until then changes nothing |
| Contexts.ServerContext.WakeRx | tweak-app/src/tweakappqueue.c:105-110 | the same for the receive thread |
| Contexts.ServerContext.OnLost | tweak-app/src/tweakappserver.c:260-263 | the loss of the connection is a step of the protocol |
| Contexts.ClientContext.OnMessage | tweak-app/src/tweakappclient.c:169-382 | every message of the server is one step of the protocol, and keeps store and index mutual inverses |
| Contexts.ClientContext.OnAddItem | tweak-app/src/tweakappclient.c:223-322 | a new item is stored and announced; a known URI must carry the same id and static fields, and a different value replaces the old one and is announced; anything else halts the client |
| Contexts.ClientContext.OnChangeItem | tweak-app/src/tweakappclient.c:324-356 | a change of a known item swaps the value in, and is announced once with that value unless it is the same value and not null; others are ignored |
| Contexts.ClientContext.OnRemoveItem | tweak-app/src/tweakappclient.c:358-382 | a removal is announced and the item leaves store and index |
| Contexts.ClientContext.OnConnected | tweak-app/src/tweakappclient.c:142-221 | a connection is a run of the protocol: the old mirror is withdrawn item by item, the model starts empty, and a subscription is pushed or, with a full queue, waits with its thread |
| Contexts.ClientContext.ReplaceCurrentValue | tweak-app/src/tweakappclient.c:434-455 | a local set is a run of the protocol, the check, the write and the push of its request, cut short by a failed check or an equal value; the code names the first reason against it: an unknown item, a value of another type or size, a missing peer |
| Contexts.ClientContext.RunJob | tweak-app/src/tweakappclient.c:80-412 | one job is one step of the protocol: the subscription announces the features first, and a change job reads the value when it runs and sends it only while connected |
| Contexts.ClientContext.Pull | tweak-app/src/tweakappcommon.c:87-105 | the pull of the worker on the real queue is the pull of the protocol |
| Contexts.ClientContext.WakeApp | tweak-app/src/tweakappqueue.c:105-110 | a push of the application thread that had to wait is a step of the protocol once there is room, and until then changes nothing |
| Contexts.ClientContext.WakeRx | tweak-app/src/tweakappqueue.c:105-110 | the same for the receive thread |
| Contexts.ClientContext.OnLost | tweak-app/src/tweakappclient.c:209-218 | the loss of the connection is a step of the protocol |
| Peers.SnapshotSends | tweak-app/src/tweakappserver.c:85-122 | the snapshot has an add message for exactly the walked items of a type the client is sent, and nothing else |
| Session.Meet | tweak-app/src/tweakappclient.c:187-221 | the link coming up and each of the two objects being told of it is one run of the protocol, to which each object contributes its part |
| Session.Move | tweak-app/src/tweakappcommon.c:87-105 | one of the two objects does what it has to do, an internal run of the protocol that uses up some of the measure, unless there is nothing left to do anywhere |
| Session.Settle | tweak-app/src/tweakappcommon.c:87-105 | from whatever state a run has brought two connected objects to, working off what there is to do is an internal run that ends at rest, and then the client's table is part of the server's, item by item equal, and has every boolean and number of it, every string and vector if the client takes them, and no null |
| Session.Connect | tweak-app/src/tweakappclient.c:187-221 | the same from a link that comes up between any two objects that are at rest |
| Session.SetOnClient | tweak-app/src/tweakappclient.c:434-455 | from rest, setting an item on the client object to another value it may have succeeds, and when there is nothing left to do both tables hold that value and are otherwise as they were |
| Session.AtRestTheyAgree | tweak-app/src/tweakappserver.c:124-370 | two objects that any run has brought to rest hold such tables |
| Runs.CallRun | tweak-app/src/tweakappserver.c:442-563 | a server call followed by the push of its job is a run, and so is the call alone when its thread has to wait |
| Runs.ReceiveRun | tweak-app/src/tweakappserver.c:178-245 | the same for a message and the job of the receive thread |
| Runs.ConnectRun | tweak-app/src/tweakappclient.c:187-208 | the same for a new connection of the client and its subscription |
| Runs.SetRun | tweak-app/src/tweakappclient.c:434-455 | the same for a set on the client, in all the ways it can end |
| Replication.DrainAppend | tweak-app/src/tweakappclient.c:256-382 | a message appended to the channel is processed after all others |
| ReplicationProofs.KeepStep | tweak-app/src/tweakappserver.c:124-370 | every enabled step of either peer, of the link or of a connection keeps the replication invariant |
| ReplicationProofs.RunKeepsInv | tweak-app/src/tweakappclient.c:80-412 | the replication invariant holds in every reachable state |
| ReplicationProofs.SnapshotDrains | tweak-app/src/tweakappserver.c:85-157 | a client with an empty mirror that drains the snapshot of a consistent server model holds exactly the supported items of the URIs walked, without a fatal error |
| ReplicationProofs.QuiescentConverged | tweak-app/src/tweakappserver.c:319-347 | in a state that satisfies the invariant, empty queues and channels mean agreement, told by the types of the values |
| ReplicationProofs.Convergence | tweak-app/src/tweakappfeatures.c:76-105 | whenever both peers know of the link and all queues and channels are empty, every item of the client is the server's with equal fields and value, and the client holds all booleans and numbers of the server, strings and vectors exactly if it supports them, and no nulls, after any interleaving of changes on both sides, losses and reconnections, in which a push that has to wait goes to the current array |
| ReplicationProofs.Safety | tweak-app/src/tweakappclient.c:223-294 | in every reachable state both indexes and stores are mutual inverses, no fatal branch of the client has been taken, and a client holding a string or vector knows that the server supports them |
| TypeChange.TypeChangeDiverges | tweak-app/src/tweakappserver.c:211-245 | from any two peers at rest with an item in common, a server set of another type or size and a client set of the old one can end with nothing left to do and different values: the refused request is answered by a job that names no item |
| History.ReplacesExactly | tweak-app/src/tweakappcommon.c:34-85 | a value may replace another exactly if both are booleans, numbers of the same type, strings, or vectors of the same type and size |
| History.StepNoted | tweak-app/src/tweakappserver.c:178-563 | every step of either peer keeps the server's table equal to the ledger of what was asked of it |
| History.ServerHoldsLedger | tweak-app/src/tweakappserver.c:211-563 | over every run the server holds exactly the items that were added under a free URI and not removed, with the fields they were added with and the last value written by a call or by a request for a live item that may have it |
| ClientChanges.NextStage | tweak-app/src/tweakappclient.c:384-455 | after a set between two peers at rest there is never more than one thing to do, and it leads to the next of eight states |
| ClientChanges.ClientSetTakesEffect | tweak-app/src/tweakappserver.c:211-245 | from rest, whatever the peers do by themselves after the client has set an item to another value it may have, they come to rest with both holding that value and nothing else changed |
| Settling.InternalDecreases | tweak-app/src/tweakappcommon.c:87-105 | every step that is not a new call, a loss or the link coming up decreases a measure |
| Settling.Progress | tweak-app/src/tweakappcommon.c:87-105 | unless everything is empty, some such step is possible |
| Settling.Settles | tweak-app/src/tweakappserver.c:124-370 | from any reachable connected state the peers on their own reach a converged state |
| Settling.InternalRunIsBounded | tweak-app/src/tweakappcommon.c:87-105 | they cannot go on for more steps than the measure |
| Settling.EventualConvergence | tweak-app/src/tweakappserver.c:124-370 | every schedule of the peers' own steps ends within that bound, and can end only in agreement |
| CallbackTrace.RemovalsReplay | tweak-app/src/tweakappclient.c:129-167 | withdrawing the items on a walk removes exactly the walked ids from what the callbacks have told |
| CallbackTrace.TraceFaithful | tweak-app/src/tweakappclient.c:129-167 | over every run, the added, removed and changed callbacks never contradict each other, replaying them yields exactly the client's ids, and destroying the client at any point leaves none |
| Beliefs.ReceiveAnnounces | tweak-app/src/tweakappclient.c:256-356 | a message that changes the value of an item held before and after it makes exactly one callback, a changed value with that item and the new value; if the value stays, none is made for it, null aside |
| Beliefs.ReceiveSilent | tweak-app/src/tweakappclient.c:256-356 | a message that changes no value of a held item, none of them null, makes no value callback at all |
| Beliefs.BeliefsAreValues | tweak-app/src/tweakappclient.c:256-356 | over every run, an application that reads each new item once and then goes by the callbacks and its own writes knows exactly the ids and values that the client holds |
| Rpmsg.WireIdClosedForm | tweak-wire/src/tweakwire_rpmsg.c:199-203 | the k-th chunk id in closed form, across wrap-around and never zero |
| Rpmsg.ExpectedIdMeansNext | tweak-wire/src/tweakwire_rpmsg.c:357-376 | among fewer than 2^32 - 1 consecutive chunks the id expected next belongs to the very next chunk only |
| Rpmsg.PieceSizes | tweak-wire/src/tweakwire_rpmsg.c:291-306 | every chunk but the last carries the next 244 bytes of its message, and the last one the rest, which is not empty |
| Rpmsg.StreamAt | tweak-wire/src/tweakwire_rpmsg.c:287-321 | each chunk on the wire is the chunk of the call its place says, also when sends failed part-way |
| RpmsgProofs.AcceptCollects | tweak-wire/src/tweakwire_rpmsg.c:357-398 | what the receiver has collected is always a prefix of one message; a chunk extends it, completes it or makes the receiver drop it |
| RpmsgProofs.NoSplicing | tweak-wire/src/tweakwire_rpmsg.c:287-407 | for every pattern of lost chunks, timeouts, sends failing part-way and packets with a wrong magic number in between, the delivered messages are whole sent messages, in the order they were sent |
| RpmsgProofs.FeedMessage | tweak-wire/src/tweakwire_rpmsg.c:323-407 | the receiver's exact state after each chunk of a message |
| RpmsgProofs.FeedUndisturbed | tweak-wire/src/tweakwire_rpmsg.c:323-407 | exactly which messages a receiver delivers from a series of calls without loss, failed calls and timeouts included |
| RpmsgProofs.LosslessDelivery | tweak-wire/src/tweakwire_rpmsg.c:287-407 | the same for a fresh receiver |
| RpmsgProofs.UndisturbedIsAPattern | tweak-wire/src/tweakwire_rpmsg.c:287-407 | the series of calls without loss is the loss pattern in which every chunk arrives, so both accounts are of the same wire |
| RpmsgProofs.AllExpected | tweak-wire/src/tweakwire_rpmsg.c:378-393 | when no send fails, exactly the messages that are not empty and fit the receive buffer arrive |
| RpmsgProofs.Resynchronises | tweak-wire/src/tweakwire_rpmsg.c:353-398 | after a gap, be it between two chunks, before the first one or at a timeout inside a message, only the message under way is given up; everything after it is delivered as if nothing had happened |
| RpmsgProofs.ResynchronisesLater | tweak-wire/src/tweakwire_rpmsg.c:339-379 | the same if a timeout falls between the gap and the next chunk |
| RpmsgProofs.DamagedChunk | tweak-wire/src/tweakwire_rpmsg.c:359-372 | a packet with a wrong magic number in place of the expected chunk costs only the message under way; everything after it is delivered as if nothing had happened |
| RpmsgEscape.DatagramUnderstood | tweak-wire/src/tweakwire_rpmsg.c:417-457 | a datagram is understood as it was meant, whatever bytes of earlier messages are in the buffer |
| RpmsgEscape.DatagramInjective | tweak-wire/src/tweakwire_rpmsg.c:474-501 | different messages never share a datagram; in particular no payload looks like the disconnect datagram |
| RpmsgEscape.OtherServicesIgnored | tweak-wire/src/tweakwire_rpmsg.c:438-452 | of the full-length datagrams that begin with a single escape byte only the one that says disconnect has an effect |
| RpmsgEscape.AlwaysOrderly | tweak-wire/src/tweakwire_rpmsg.c:417-457 | for any datagrams at all, data is only received while connected and a connection is announced only when there is none |
| RpmsgEscape.LosslessConversation | tweak-wire/src/tweakwire_rpmsg.c:287-501 | without loss the listeners are told exactly what was sent, from any first id and across wrap-around |
| RpmsgEscape.LossyConversation | tweak-wire/src/tweakwire_rpmsg.c:287-501 | with loss they are told exactly what some of the messages meant, in order |
| RpmsgConnection.Connection.constructor | tweak-wire/src/tweakwire_rpmsg.c:205-270 | a new connection is disconnected, with both id counters at zero |
| RpmsgConnection.Connection.SendPartitioned | tweak-wire/src/tweakwire_rpmsg.c:287-321 | the wire holds exactly the numbered chunks of all calls so far, also after a failing send; success means every chunk went out |
| RpmsgConnection.Connection.Transmit | tweak-wire/src/tweakwire_rpmsg.c:474-501 | a payload is sent as its datagram |
| RpmsgConnection.Connection.Take | tweak-wire/src/tweakwire_rpmsg.c:335-404 | one event, a chunk or a timeout, changes counters and buffer as one step of the receiver machine |
| RpmsgConnection.Connection.ReceivePartitioned | tweak-wire/src/tweakwire_rpmsg.c:323-407 | the loop over the transport's chunks, with its counters and buffer, is the receiver machine; on success the buffer holds the message |
| RpmsgConnection.Connection.Dispatch | tweak-wire/src/tweakwire_rpmsg.c:417-457 | one datagram in the buffer tells the listeners what the escape layer says |
| RpmsgConnection.Connection.ReceiveThread | tweak-wire/src/tweakwire_rpmsg.c:411-472 | the listeners hear exactly what the receiver machine delivers, and the peer is sent the disconnect datagram at the end |
| JsonStrings.Utf8Decodes | tweak-json/src/json_suckless.h:74-111 | the bytes written for a code point decode, by the definition of UTF-8 in section 3 of RFC 3629, to that code point |
| JsonStrings.ScanLiteral | tweak-json/src/json_suckless.h:211-334 | every literal of raw characters, escapes and code units, by section 7 of RFC 8259, is read as the bytes it stands for, and reading stops at its closing quote |
| JsonStrings.FindUnits | tweak-json/src/json_suckless.h:211-334 | every text that is read as a literal is one: it consists of characters, escapes and code units up to a closing quote |
| JsonStrings.ZeroIsDropped | tweak-json/src/json_suckless.h:77-80 | the escape of the code point zero leaves no trace in the string |
| JsonStrings.PairedIsUtf16 | tweak-json/src/json_suckless.h:262-291 | the single offset subtracted for surrogate pairs is the one of UTF-16 |
| JsonStrings.DecodesUtf16 | tweak-json/src/json_suckless.h:262-303 | surrogates are decoded as UTF-16 prescribes exactly when no low surrogate stands right after an even, non-zero number of high ones |
| JsonStrings.StutterMisread | tweak-json/src/json_suckless.h:262-303 | for the escapes D83D D83D DE00 the reader gives three lone halves where UTF-16 has one half and U+1F600 |
| JsonStrings.ScalarsDecode | tweak-json/src/json_suckless.h:248-303 | any text of non-zero scalar values written in escapes stands for its UTF-8 encoding |
| JsonStrings.EscapeString | tweak-common/src/tweakvariant.c:174-231 | a string value written as the inside of a literal is read back as the same value, whatever follows it |
| JsonShapes.FilledIsPlain | tweak-json/src/json_suckless.h:340-391 | without empty objects the reader's rules allow exactly the structures of JSON |
| JsonShapes.FieldFound | tweak-json/src/tweakjson.c:96-110 | looking up a name finds the value of the first field that has it, if one has |
| JsonShapes.RecordFields | tweak-json/src/tweakjson.c:96-129 | the fields of an object are its members in order, and each has its name unless one before it has that name already |
| JsonProofs.ReaderCharacters | tweak-json/src/json_suckless.h:113-247 | the reader's blanks are those of section 2 of RFC 8259, its escapes with what they stand for and its hex digits those of section 7, and its numbers are made of digits, signs, points and the letter e |
| JsonProofs.TextTokens | tweak-json/src/json_suckless.h:191-205 | the tokens of a document do not depend on its blanks and escapes |
| JsonProofs.RunShape | tweak-json/src/json_suckless.h:203-391 | the machine reads a value of any structure and goes on exactly as if it had been entered at once, or refuses it exactly when it is beyond the limits |
| JsonProofs.ParsesDocument | tweak-json/src/json_suckless.h:176-506 | every well-formed document is read as what it says unless it is nested more than 63 deep, has a number of more than 127 characters or a string taken for a key; then it is refused |
| JsonLanguage.AcceptsExactly | tweak-json/src/json_suckless.h:176-506 | a text is accepted with a result exactly when its tokens spell a structure within the limits with that meaning |
| JsonLanguage.AcceptsFilled | tweak-json/src/json_suckless.h:340-391 | without empty objects a text is accepted exactly when its tokens spell a structure of JSON within the limits, whatever its numbers look like |
| JsonLanguage.StringAfterEmptyObject | tweak-json/src/json_suckless.h:353-375 | a well-formed array with a string after an empty object is refused |
| JsonLanguage.LabelAfterEmptyObject | tweak-json/src/json_suckless.h:207-210 | an array with a labelled element after an empty object is accepted, and the label is lost |
| JsonLanguage.RefusedText | tweak-json/src/json_suckless.h:353-375 | the text `[{},"x"]` is refused |
| JsonLanguage.AcceptedText | tweak-json/src/json_suckless.h:207-210 | the text `[{},"x":1]` is read as an array of an empty object and 1 |
| JsonTexts.FindTree | tweak-json/src/json_suckless.h:176-506 | a text whose tokens begin with those of a structure without labels begins with a document of that structure |
| JsonTexts.AcceptsWritten | tweak-json/src/json_suckless.h:176-506 | a text is read without labels as a value exactly when it is written as a document within the limits, with blanks around it, that says this value |
| JsonTexts.NumbersCovered | tweak-json/src/json_suckless.h:473-493 | every number by section 6 of RFC 8259 is a number to the reader |
| JsonTexts.AcceptedIsJson | tweak-json/src/json_suckless.h:473-493 | an accepted text without labels is JSON by RFC 8259 exactly when each of its numbers is one by section 6 |
| JsonTexts.AcceptsJson | tweak-json/src/json_suckless.h:176-506 | a text without empty objects is accepted and has only such numbers exactly when it is JSON by RFC 8259 within the limits |
| JsonTexts.LoneMinus | tweak-json/src/json_suckless.h:473-493 | the text `-` is accepted and is not JSON |
| JsonTexts.LeadingZero | tweak-json/src/json_suckless.h:473-493 | the text `01` is accepted and is not JSON |
| JsonParser.TextBuffer.Reserve | tweak-json/src/json_suckless.h:125-157 | there is room for the characters asked for and the contents are unchanged |
| JsonParser.TextBuffer.PutPoint | tweak-json/src/json_suckless.h:74-111 | the UTF-8 bytes of a code point are appended within the room reserved |
| JsonParser.TextBuffer.PutPair | tweak-json/src/json_suckless.h:262-303 | a pair of code units is appended as one code point, or as two when the second is no low surrogate |
| JsonParser.ReadHex | tweak-json/src/json_suckless.h:251-258 | four hex digits give their code unit, anything else fails |
| JsonParser.ReadUnicode | tweak-json/src/json_suckless.h:248-303 | the reader of code units and pairs agrees with the definition of literals |
| JsonParser.ReadEscape | tweak-json/src/json_suckless.h:224-311 | the reader of escapes agrees with the definition of literals |
| JsonParser.ReadString | tweak-json/src/json_suckless.h:211-339 | the loop over a literal's characters yields exactly what the literal stands for, or fails exactly when it is malformed |
| JsonParser.ScanNumber | tweak-json/src/json_suckless.h:473-493 | at most 127 characters of a number are kept, never past the buffer |
| JsonParser.Reader.EnterValue | tweak-json/src/tweakjson.c:88-129 | a value is appended to the innermost open array, or to the open object under its name unless that is taken, or becomes the document |
| JsonParser.Reader.OpenNode | tweak-json/src/json_suckless.h:340-365 | opening a container, with the depth limit |
| JsonParser.Reader.CloseNode | tweak-json/src/json_suckless.h:366-375 | closing a container, with the balance test |
| JsonParser.Reader.ReadComma | tweak-json/src/json_suckless.h:376-390 | a comma inside an array or an object |
| JsonParser.Reader.ReadMark | tweak-json/src/json_suckless.h:205-390 | every mark changes the machine as its definition says |
| JsonParser.Reader.ReadQuoted | tweak-json/src/json_suckless.h:211-339 | a literal becomes a key or a value |
| JsonParser.Reader.ReadWord | tweak-json/src/json_suckless.h:391-472 | true, false and null, or failure on anything that only begins like them |
| JsonParser.Reader.ReadNumber | tweak-json/src/json_suckless.h:473-493 | a number is entered, and one that does not fit the buffer makes the text be refused |
| JsonParser.Reader.ReadNext | tweak-json/src/json_suckless.h:203-493 | one turn of the parser's loop is one step of the machine over tokens |
| JsonParser.Reader.ParseDocument | tweak-json/src/tweakjson.c:200-259 | the one-pass parser with its node array returns exactly what the definition of the reader says |
| Layouts.ColumnOneToOne | tweak-app-cl/src/metadatautil.c:86-122 | column-major layouts of any rank give every element a place of its own and every place an element, and it is the place that the first index running fastest gives it |
| Layouts.ColumnPlaces | tweak-app-cl/src/metadatautil.c:86-122 | the position of an element in a column-major layout is that of the first index running fastest |
| Layouts.RowMajorExactly | tweak-app-cl/src/metadatautil.c:78-114 | row-major layouts do so exactly when a dimension is zero or, for every dimension larger than one, the product the program takes equals that of the dimensions after it |
| Layouts.RowPlaces | tweak-app-cl/src/metadatautil.c:78-114 | the positions of a row-major layout are those of the last index running fastest exactly when a dimension is zero or every product is right in that sense |
| Layouts.CubeFactors | tweak-app-cl/src/metadatautil.c:75-95 | for the layout a by b by c the column-major factors are 1, a and ab, and the row-major ones bc, b and 1 |
| Layouts.RowMajorFlat | tweak-app-cl/src/metadatautil.c:78-114 | up to rank two they always do |
| Layouts.RowMajorCube | tweak-app-cl/src/metadatautil.c:78-114 | of rank three they do exactly when a dimension is zero, the second is one, or the second equals the third |
| Layouts.TooSmall | tweak-app-cl/src/metadatautil.c:78-114 | a factor that is too small gives two elements the same place |
| Layouts.TooLarge | tweak-app-cl/src/metadatautil.c:78-114 | a factor that is too large leaves a place without an element |
| Layouts.AttainedOneToOne | tweak-app-cl/src/metadatautil.c:105-126 | elements that stay inside the buffer and leave no place out have a place each of their own |
| Layouts.GetFactor | tweak-app-cl/src/metadatautil.c:75-95 | the loops compute the product of the first n dimensions in column-major order and of the n after the first in row-major order |
| Layouts.CalculateArrayIndex | tweak-app-cl/src/metadatautil.c:105-126 | the position is the sum of the indices times their factors: in column-major order that of the first index running fastest, in row-major order, with right factors, that of the last |
| Layouts.ValidateVector | tweak-metadata/src/tweakmetadata.c:709-735 | a vector shown as a table is accepted exactly when it has a layout whose dimensions multiply to the number of items; shown otherwise it needs none |
| Integers.DecimalRead | tweak-common/src/tweakvariant.c:530-708 | every value of every integer type is read back as printed |
| Integers.RangeIsWidth | tweak-common/src/tweakvariant.c:551-695 | the values of each type are those of its width, in two's complement if it is signed |
| Integers.IntegerTexts | tweak-common/src/tweakvariant.c:530-542 | a text denotes an integer exactly if it is that integer as printed, with any number of noughts in front of its digits, or zero with a minus sign |
| Integers.SmallLimits | tweak-common/src/tweakvariant.c:62-69 | the limits of the types of eight bits are printed as 255, -128 and 127 |
| Integers.ReadsFraction | tweak-common/src/tweakvariant.c:568-708 | what is not an integer is reported as truncated: rounded to the nearest value, the larger of two, within an unsigned type, and replaced by zero for a signed one; what is no number fails |
| Integers.Read | tweak-common/src/tweakvariant.c:530-708 | a conversion reports success, truncation or failure, and what it hands out always fits the type |
| Integers.ReadsInteger | tweak-common/src/tweakvariant.c:530-708 | every integer of the type is kept with success; one beyond it is replaced with success if the type has 64 bits or the integer wraps around into an unsigned type, and else by a limit, the upper one for negative numbers of an unsigned type, with truncation |
| Integers.PassedExactly | tweak-common/src/tweakvariant.c:530-708 | success is reported exactly for the integers of the type and for those beyond it that go unnoticed |
| Integers.KeptExactly | tweak-common/src/tweakvariant.c:530-708 | what is handed out is the integer the text denotes exactly when that fits the type |
| Integers.LargeNumbersPass | tweak-common/src/tweakvariant.c:530-542 | any number too large for 64 bits is read as the largest signed one, with success |
| Integers.MinusFive | tweak-common/src/tweakvariant.c:625-708 | -5 is read as 18446744073709551611 with success for 64 unsigned bits, and as 255 with truncation for eight |
| Integers.DecimalIsNumber | tweak-common/src/tweakvariant.c:62-69 | a printed integer is a JSON number and fits the reader's buffer |
| NestedArrays.Geometry.constructor | tweak-app-cl/src/metadatautil.c:166-180 | a traversal starts at the first dimension |
| NestedArrays.Geometry.NestedToString | tweak-app-cl/src/metadatautil.c:128-151 | for every layout that stays inside the buffer the text is that of the nested document in which each element stands where its indices say |
| NestedArrays.Geometry.ItemToString | tweak-app-cl/src/metadatautil.c:136-146 | the same for one element of the current dimension |
| NestedArrays.Geometry.NestedFromString | tweak-app-cl/src/metadatautil.c:295-338 | loading succeeds exactly when the document has the layout's shape and the conversion of every number reports success, which it does for the integers of the type and those that go unnoticed; then the buffer is the old one with every converted number written, in order, to the place its indices and the layout say |
| NestedArrays.Geometry.ItemFromString | tweak-app-cl/src/metadatautil.c:297-336 | the same for one element of the current dimension |
| NestedArrays.Geometry.LeafFromString | tweak-app-cl/src/metadatautil.c:300-311 | a number is written to the position of the current indices |
| NestedArrays.StoredAt | tweak-app-cl/src/metadatautil.c:295-338 | such writing brings the contents of any buffer that holds the document to every place an element has, and leaves the other places alone |
| NestedArrays.KeepsIntegers | tweak-common/src/tweakvariant.c:530-708 | a buffer that holds what the numbers of a loaded document are converted to holds the integers themselves exactly when all of them fit the type |
| NestedRoundTrip.PrintedParses | tweak-app-cl/src/metadatautil.c:128-151 | the printed text is a JSON document the reader accepts, up to rank 63 |
| NestedRoundTrip.PrintedHolds | tweak-app-cl/src/metadatautil.c:128-151 | the printed document has each element of the buffer where its multi-index says |
| NestedRoundTrip.PrintedShows | tweak-app-cl/src/metadatautil.c:105-151 | the printed text is a document that has at each multi-index the buffer's value at its position, column-major with the first index running fastest, row-major with right factors with the last |
| NestedRoundTrip.LoadsEveryNumber | tweak-app-cl/src/metadatautil.c:295-338 | with a one-to-one layout any document, not only a printed one, ends with each of its numbers at the place of its element |
| NestedRoundTrip.Restored | tweak-app-cl/src/metadatautil.c:295-338 | loading a printed buffer with any layout gives its values at every place an element has and leaves the others |
| NestedRoundTrip.RestoredExactly | tweak-app-cl/src/metadatautil.c:78-338 | a layout that stays inside the buffer gives it back, whatever the new buffer held, exactly when it is one-to-one |
| NestedRoundTrip.CollidingLayout | tweak-app-cl/src/metadatautil.c:78-114 | the row-major layout 2 by 2 by 3 stays inside the buffer and is not one-to-one |
| NestedRoundTrip.Print | tweak-app-cl/src/metadatautil.c:153-180 | a vector is printed by any layout that stays inside it, and the text then shows each value where its position in that order says |
| NestedRoundTrip.Load | tweak-app-cl/src/metadatautil.c:340-434 | any text is loaded exactly when it is a document of the layout's shape whose numbers all convert with success; the buffer then holds each converted number at the place of its element, which is its position in column-major order or, with right factors, in row-major order, and the integers of the text exactly when all of them fit the type |
| NestedRoundTrip.RoundTrip | tweak-app-cl/src/metadatautil.c:128-338 | for every layout inside the buffer, integer type and buffer, printing and loading gives the buffer back wherever an element has its place, and all of it when the layout is one-to-one |
| Flattening.CellAt | tweak-py/py_tweak_common.cpp:64-112 | the cell at the row-major position of a multi-index is the element at that index's strided offset |
| Flattening.OffsetSteps | tweak-py/py_tweak_common.cpp:64-70 | the origin has the offset zero, and one more along a dimension is one stride more |
| Flattening.CalculateOffset | tweak-py/py_tweak_common.cpp:64-70 | the offset is the sum of strides times indices |
| Flattening.CalculateIndex | tweak-py/py_tweak_common.cpp:72-80 | the position is the sum of factors times indices |
| Flattening.MakeFactors | tweak-py/py_tweak_common.cpp:102-112 | the factors are the row-major ones, for any rank |
| Flattening.GetSize | tweak-py/py_tweak_common.cpp:141-147 | the size is the product of the shape |
| Flattening.Flattener.constructor | tweak-py/py_tweak_common.cpp:190-193 | the copy starts at the first dimension with the row-major factors |
| Flattening.Flattener.Flatten | tweak-py/py_tweak_common.cpp:82-100 | it throws exactly when some element has a negative offset; otherwise the elements are copied in row-major order, one write a cell, in the order of the cells |
| Flattening.Flattener.NextRow | tweak-py/py_tweak_common.cpp:85-99 | one index of the current dimension extends the part copied so far, or shows that some element has a negative offset |
| Flattening.Flattener.FlattenRow | tweak-py/py_tweak_common.cpp:85-99 | the same for one index of the current dimension |
| Flattening.Flattener.FlattenLeaf | tweak-py/py_tweak_common.cpp:87-93 | one element is copied to the position of its indices unless its offset is negative |
| Flattening.FlattenAll | tweak-py/py_tweak_common.cpp:82-147 | the k-th write of the whole copy goes to cell k, and every cell holds the element of its multi-index |
| Tokenizer.TokenizeMerged | tweak-app-cl/src/stringutil.c:77-168 | tokens without backslashes that are escaped and put on one line come back as they were, except that empty ones are lost and a separator at the beginning of one keeps its backslash |
| Tokenizer.SurvivesExactly | tweak-app-cl/src/stringutil.c:117-153 | a token survives exactly when it is not empty and does not begin with a separator |
| Tokenizer.TokenEndsExactly | tweak-app-cl/src/stringutil.c:155-168 | a token ends at the first blank, tab, carriage return or line feed that no backslash stands before |
| Tokenizer.UnescapeKeeps | tweak-app-cl/src/stringutil.c:117-153 | of any token exactly those backslashes are dropped that are neither at its beginning nor right after a dropped one |
| Tokenizer.TrimLeftFrom | tweak-app-cl/src/stringutil.c:170-178 | leading separators are skipped |
| Tokenizer.FindSeparator | tweak-app-cl/src/stringutil.c:180-193 | the next separator or the end is found |
| Tokenizer.FindTokenEnd | tweak-app-cl/src/stringutil.c:155-168 | the next separator without a backslash before it or the end is found |
| Tokenizer.UnescapeToken | tweak-app-cl/src/stringutil.c:117-153 | the copying loop drops the backslashes its definition drops |
| Tokenizer.NextToken | tweak-app-cl/src/stringutil.c:77-103 | one turn of the loop takes the next token and leaves the line split up to the one after it |
| Tokenizer.TokenizeLine | tweak-app-cl/src/stringutil.c:77-103 | the loop over a line yields exactly its tokens |
| Tokenizer.MergeTokens | tweak-app-cl/src/stringutil.c:33-75 | the buffer sized in the first pass is filled exactly by the second with the tokens joined by blanks and a zero |
| CommandLine.TidySurvives | tweak-app-cl/src/stringutil.c:33-103 | a line with single blanks and no backslashes survives splitting and joining |
| CommandLine.NestedTidy | tweak-app-cl/src/metadatautil.c:128-151 | every printed value is such a line |
| CommandLine.SetAsPrinted | tweak-app-cl/src/main.c:303-305 | a vector set to its own printed form on the command line is unchanged wherever an element has its place, and all of it when the layout is one-to-one |
| Vectors.VectorToString | tweak-common/src/tweakvariant.c:73-99 | the printed vector is the document with its elements in order |
| Vectors.ParseVector | tweak-common/src/tweakvariant.c:371-443 | it fails exactly when the text is not an array of numbers that can be converted; otherwise each element is the conversion of the number in its place, the result says whether all conversions reported success, and the values are the integers of the text exactly when all of them fit the type |
| Vectors.SetVectorAsPrinted | tweak-common/src/tweakvariant.c:73-443 | print, split, join and parse succeeds and is the identity on integer vectors |
| PrefixSearch.LowerBound | tweak-app-cl/src/tweakuriutil.c:165-187 | the binary search finds the first string not below the needle |
| PrefixSearch.OrderExactly | tweak-app-cl/src/tweakuriutil.c:53-57 | the order is that of strcmp: a string is at most those it begins and those with a larger character where the two first differ |
| PrefixSearch.MatchesOneMore | tweak-app-cl/src/tweakuriutil.c:189-192 | the filtered list has the strings that begin with the prefix, in their order |
| PrefixSearch.PastPrefix | tweak-app-cl/src/tweakuriutil.c:189-192 | after the strings with a prefix none has it any more |
| PrefixSearch.PickNthMatch | tweak-app-cl/src/tweakuriutil.c:194-215 | the result is the n-th of the list filtered by the prefix, or none, for every n |
| UriTree.ItemsAreCalledFor | tweak-gui-qml/src/TweakUriTree.cpp:186-242 | in a canonical tree an item exists at a path exactly when the path leads to a live tweak, and its tweaks are those with that path |
| UriTree.CanonicalEmpty | tweak-gui-qml/src/TweakUriTree.cpp:147-149 | a canonical item is empty exactly when no live tweak is below it |
| UriTree.InsertCanonical | tweak-gui-qml/src/TweakUriTree.cpp:35-91 | adding a tweak with a new id keeps the tree canonical |
| UriTree.RemoveCanonical | tweak-gui-qml/src/TweakUriTree.cpp:103-150 | removing a live tweak never fails a lookup, and pruning keeps the tree canonical |
| UriTree.InsertRemove | tweak-gui-qml/src/TweakUriTree.cpp:66-150 | adding a tweak and removing it restores the tree with its children in order |
| UriTree.InsertOrder | tweak-gui-qml/src/TweakUriTree.cpp:66-82 | a new item comes after its siblings, which keep their order |
| UriTree.RemoveOrder | tweak-gui-qml/src/TweakUriTree.cpp:111-150 | the siblings of a pruned item keep their order |
| UriTree.Tree.constructor | tweak-gui-qml/src/TweakUriTree.hpp:228-236 | a new tree is empty and canonical |
| UriTree.Tree.FindChild | tweak-gui-qml/src/TweakUriTree.cpp:54-63 | the loop finds the first child with a name |
| UriTree.Tree.AddTweak | tweak-gui-qml/src/TweakUriTree.cpp:35-91 | the walk that makes missing items on the way is the insertion, the tree stays canonical, and a known id is refused |
| UriTree.Tree.RemoveTweak | tweak-gui-qml/src/TweakUriTree.cpp:103-109 | the tweak and its path are gone and the tree stays canonical |
| UriTree.Tree.RemoveItem | tweak-gui-qml/src/TweakUriTree.cpp:111-150 | the recursion removes the tweak, prunes what became empty and says whether the item can go |
| UriTree.Tree.RemoveAllTweaks | tweak-gui-qml/src/TweakUriTree.cpp:152-158 | it terminates with an empty root |

## Left out

- Transports, threads, logging and id generators: channels are sequences, new ids are fresh, and what a transport does is an input.
- The protobuf encoding of messages: messages carry typed values; the scalar mapping of two types is not the identity there.
- Several clients of one server, overlapping application threads on one peer, and jobs left over from an earlier connection: a connection starts with idle queues.
- Server sets that change an item's type or size: convergence assumes they keep both. The client takes any value a change carries, but a client set checked against the old type is refused by the server and answered with a job that names no item, so the client keeps its own value; `TypeChange.TypeChangeDiverges` is that run.
- The server's callback for values changed by the client: the server's trace is not modelled, the client's is.
- Sends that fail at the application level while the link is up.
- JobQueue.Queue.Push: reports that it would have to wait instead of waiting, and a handler of `Contexts` then returns with its job still to be pushed; what the program's push does once it is woken is stated by `JobQueue.WaitedPush` and the lemmas after it.
- ReplicationProofs.Convergence: takes a push that had to wait as intended; as written such a push can lose its job, exactly when `JobQueue.WaitedPushIsPulled` says, and then the client may never hear of a change.
- Floating-point values: equality of NaN and signed zero, printing, and parsing; where integer text falls back on it, the number read is an input.
- NestedArrays.Geometry.NestedToString: requires that the layout stays inside the buffer; some row-major layouts do not, and the program then reads beyond its end.
- NestedArrays.Geometry.NestedFromString: the same for writing; what a failed load leaves in the buffer, which the program discards, is not stated.
- Sizes near the limits of `size_t` and allocation failures.
- The RPMSG header as bytes: a chunk is a record of its fields. Chunks shorter than their header, which no peer sends, and lengths whose chunk count overflows 32 bits are not covered.
- The JSON document tree in memory: values are immutable trees, so sharing and release of nodes do not appear. The name made up for a duplicate key is a key of its own kind.
- Bytes of 0x80 and above on platforms where `char` is signed.
- The feature lists as JSON text: a message carries the flag or the fact that the text was unreadable.
- The item vectors of the URI tree in place: the tree is a value that operations replace; change notifications and display names do not appear.
- The growth of the result buffers in the tokenizer, and completion of incomplete tokens.
- The user interfaces, the read-eval loop, the Python binding other than flattening, mock servers, the compatibility library and tables of metadata defaults.
