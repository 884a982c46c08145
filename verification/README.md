# Verified models of forge-bfcp and of two conference state machines

This project models, in Dafny, the BFCP crate (the Binary Floor Control Protocol, RFC 8855):
its wire codec, its floor server and the bookkeeping of its two transports. It also models two
timed state machines of the conference crate: the DTMF command handler and the PIN lockout.

The functions of each module say what an operation computes. Where the program updates
something in place there is a method or a class that does so too (`Codec`, `Framer.TcpFramer`,
`UdpTransport.UdpPeer`, `FloorControl.FloorServer`, `DtmfCommands.DtmfCommandHandler`,
`PinAuth.PinAuthenticator`), proved to compute those functions; the theorems are about the
functions, over every input or every run.

| file | what it holds |
|---|---|
| `Octets.dfy`, `Wrappers.dfy` | octets, 16- and 32-bit integers, big-endian order, byte vectors, options and results |
| `Utf8.dfy` | valid UTF-8 (section 4 of RFC 3629), lossy decoding as the standard library scans, the cut at a character boundary |
| `Message.dfy`, `Codec.dfy` | messages and attributes, what they are on the wire; the appending writer and the consuming reader |
| `WireNumbers.dfy` | the numbers on the wire, and one message octet by octet |
| `RoundTrip.dfy`, `Overflow.dfy` | the two round trips and the one way a message read cannot be written |
| `MandatoryAttributes.dfy`, `ReadableOctets.dfy` | exactly which octets are read, told from the octets, and why the others are not |
| `Framer.dfy` | the TCP framer against the cut of the whole stream |
| `UdpTransport.dfy`, `UdpRuns.dfy`, `UdpDuties.dfy` | one UDP client's transactions, whole runs of them, and what must be sent and when |
| `OrderedKeys.dfy`, `IdAllocation.dfy`, `Accessors.dfy` | ordered map keys, wrapping identifiers, attribute lookups |
| `FloorServer.dfy`, `FloorControl.dfy` | the floor server on values, its invariant, and the object itself |
| `Subscribers.dfy`, `ServerRuns.dfy`, `ServerSafety.dfy`, `ServerMessages.dfy` | whole runs of the server, and what its messages say |
| `ServerReplies.dfy`, `Subscriptions.dfy` | what each message and decision does and says, and who is a subscriber |
| `ServerReach.dfy` | runs to the states that the safety results exclude |
| `Encodability.dfy`, `ServerAnswers.dfy`, `Transactions.dfy` | server messages through the codec, which answers can be written, and the server behind a UDP client's transactions |
| `DtmfCommands.dfy`, `DtmfRuns.dfy`, `DtmfTables.dfy`, `DtmfBindings.dfy` | the DTMF handler, its runs, what digits match, and what bindings can do |
| `DtmfModes.dfy`, `DtmfDialling.dfy` | the PIN and dial-out modes: who can become a host, and what can be dialled |
| `PinAuth.dfy` | PIN attempts and the lockout |

Where the code and what is written about it differ, the model follows the code:

- A comment promises that a message read can always be written (message.rs:941-944). It can fail,
  but only with `PayloadTooLong`, and only when the re-written attributes exceed the payload length:
  `RoundTrip.ReadIsWellFormed` gives the exact condition, `Overflow.ReadButNotWritten` the frames for
  which it fails, and `RoundTrip.ReadWriteRead` the length below which it cannot.
- The framer says that it cuts messages however they arrive. A frame with the fragment flag polled
  with 12 to 15 octets draws an error and stays in the buffer (`Framer.HalfAHeaderIsAnError` is such a
  run). `Framer.EarlyAnswersAre` says that the chunks never show exactly for streams without such a
  frame, and `Framer.RunCutsTheStream` that nothing else depends on them.
- `grant` does not check that the floor is free, so a run can reach two holders (`ServerReach.TwoCanHold`);
  `ServerSafety.GrantKeepsOneHolderExactlyWhen` is the exact condition for one, and the whole-run result
  assumes the owner's discipline.
- A notification given between an acknowledgement and the next tick overtakes the queue
  (`UdpRuns.ThirdOvertakesSecond`); `UdpRuns.FifoExactlyWhen` makes first-in first-out an equivalence
  with the absence of such notifications.
- The search for a request id does not end once all 65535 ids are live (`ServerSafety.SpinsExactlyWhen`),
  and a run can get there (`ServerReach.SearchCanBeEndless`). Operations that would start such a search
  are left out of runs, and `ServerSafety.RunsProceed` shows that there are none while a user id is
  unregistered.
- A retransmitted request is to be answered from the response kept. Where the answer could not be
  written, because the texts it carries are too long, nothing is sent or kept and the retransmission is
  executed again: a request for the floor with a text of 223 octets is then refused by the request it
  has begun (`Transactions.LongInfoIsExecutedTwice`). `Transactions.RequestsExecuteAtMostOnce` and
  `ServerAnswers.HandledWritesExactlyWhen` give the exact condition.
- A FloorStatus that cannot be written is neither sent nor queued, and nobody is told: one live request
  with such a text is enough, for every subscriber (`Transactions.FloorStatusIsDroppedExactlyWhen`).
- The default DTMF bindings offer `*0` (information) and `*9` (leave) to everyone, but neither is ever
  answered; `DtmfBindings.DefaultsAnswerExactly` says what is, command by command, and
  `DtmfBindings.AnsweredExactlyWhen` says it of every configuration. A longer binding can be shadowed by
  a shorter one as well (`DtmfBindings.LongerBindingIsNeverAnswered`).
- A kick is answered at its first digit, so that participants above nine cannot be kicked unless digits
  past the prefix can be waited on (`DtmfBindings.KicksBeyondNineExactlyWhen`).

## Model

| member | source | states |
|---|---|---|
| Utf8.FirstChunk | crates/forge-bfcp/src/message.rs:946 | the standard library's scan finds a whole character exactly where the grammar of RFC 3629 has one |
| Utf8.LossyIsValid | crates/forge-bfcp/src/message.rs:941-946 | lossy decoding always yields valid text |
| Utf8.LossyIdentity | crates/forge-bfcp/src/message.rs:941-946 | lossy decoding changes exactly the octets that are not UTF-8 |
| Utf8.LossyTriples | crates/forge-bfcp/src/message.rs:941-946 | decoding at most triples the length |
| Utf8.BoundaryCutsValid | crates/forge-bfcp/src/message.rs:947-953 | in valid text, a cut leaves valid text exactly at a character boundary |
| Utf8.TextValueIsLongest | crates/forge-bfcp/src/message.rs:938-955 | the value read is the longest valid text within 253 octets that the decoded octets begin with |
| Utf8.TextValueIdentity | crates/forge-bfcp/src/message.rs:938-955 | the octets are read unchanged exactly when they are valid text of at most 253 octets |
| Utf8.TextOf | crates/forge-bfcp/src/message.rs:945-955 | the loop that steps back to a boundary computes that value |
| Messages.PrimitiveOf | crates/forge-bfcp/src/message.rs:47-75 | a primitive is read from exactly the codes 1 to 17, and has the code it was read from |
| Messages.StatusOf | crates/forge-bfcp/src/message.rs:129-142 | a status is read from exactly the codes 1 to 7 |
| Messages.CodeOf | crates/forge-bfcp/src/message.rs:195-234 | an error code keeps its number, and is `Other` exactly outside 1 to 14 |
| Messages.PriorityOf | crates/forge-bfcp/src/message.rs:266-289 | values above 4 read as the highest priority |
| WireNumbers.PrimitiveNumbers | crates/forge-bfcp/src/message.rs:26-75 | each primitive has its number, 1 to 17, and no other |
| WireNumbers.StatusNumbers | crates/forge-bfcp/src/message.rs:119-165 | each status has its number, and the terminal ones are 4 to 7 |
| WireNumbers.CodeNumbers | crates/forge-bfcp/src/message.rs:195-234 | each error code is read from its number and from no other |
| WireNumbers.AttributeNumbers | crates/forge-bfcp/src/message.rs:291-332 | each attribute has its type, 1 to 18, and no other well-formed one has it |
| WireNumbers.RequestOctetByOctet | crates/forge-bfcp/src/message.rs:1104-1127 | a request for the floor, octet by octet, written and read |
| RoundTrip.EncodedLength | crates/forge-bfcp/src/message.rs:438-540 | an attribute's octets are as many as the length accounting says, padded and unpadded, through every group |
| RoundTrip.LengthOctetIsExact | crates/forge-bfcp/src/message.rs:500-502 | the patched length octet is the true length exactly when that is at most 255 |
| RoundTrip.PaddingIsZero | crates/forge-bfcp/src/message.rs:438-506 | an attribute's octets are its type with the mandatory bit, its length, its value, and zeros to the next multiple of four |
| RoundTrip.HeaderReadsBack | crates/forge-bfcp/src/message.rs:843-849 | the header written reads back, whatever follows it, with the version taken modulo 8 |
| RoundTrip.ReadBackAll | crates/forge-bfcp/src/message.rs:961-1098 | attributes that fit and are well formed read back from their octets, at any group depth |
| RoundTrip.WriteThenRead | crates/forge-bfcp/src/message.rs:785-852 | a well-formed message that is written reads back as itself and tells where it ends, whatever follows |
| RoundTrip.WritingIsInjective | crates/forge-bfcp/src/message.rs:831-852 | no two well-formed messages share their octets, and none is a proper prefix of another |
| RoundTrip.RoundTripsExactlyWhenWellFormed | crates/forge-bfcp/src/message.rs:785-852 | a message that is written reads back as itself if and only if it is well formed |
| RoundTrip.WritesExactlyWhen | crates/forge-bfcp/src/message.rs:831-852 | a message is written if and only if every attribute fits and the payload does, and how long it then is |
| RoundTrip.RefusedForTheFirst | crates/forge-bfcp/src/message.rs:831-838 | a message is refused with the type of the first attribute that does not fit |
| RoundTrip.ParsedIsWritable | crates/forge-bfcp/src/message.rs:961-1098 | attributes read fit, are well formed, and rewritten are at most three times as long, through groups and cut padding |
| RoundTrip.ReadIsWellFormed | crates/forge-bfcp/src/message.rs:785-852 | a message read is well formed, and writing it fails exactly when its payload is too long, and with no other error |
| RoundTrip.ReadWriteRead | crates/forge-bfcp/src/message.rs:785-852 | what is read from at most 87392 octets is written, and what is written reads as the same message |
| Overflow.ReadButNotWritten | crates/forge-bfcp/src/message.rs:840-842 | frames of 1058 to 3120 attributes of invalid text are read and cannot be written |
| MandatoryAttributes.ListedExactly | crates/forge-bfcp/src/message.rs:961-1098 | what the reader lists as not understood is exactly the types, at attribute starts at every group depth, that have the mandatory bit and are not 1 to 18, in order |
| MandatoryAttributes.RefusedExactlyWhen | crates/forge-bfcp/src/message.rs:798-829 | a message is refused for such attributes exactly when everything else about it reads and there are some, and the refusal lists them |
| MandatoryAttributes.ReadMarked | crates/forge-bfcp/src/message.rs:961-1098 | attributes with the mandatory bit on any of the unknown ones read as themselves, and those are listed |
| MandatoryAttributes.MarkedIsRefused | crates/forge-bfcp/src/message.rs:785-829 | a well-formed message with types marked as mandatory is read when it has none of them and otherwise refused with those it has |
| MandatoryAttributes.HelloIsRefused | crates/forge-bfcp/src/message.rs:811-816 | a Hello of sixteen octets with a mandatory attribute of type 64 is refused for it |
| MandatoryAttributes.TrailingIsRefused | crates/forge-bfcp/src/message.rs:785-796 | octets after a written message make it unreadable, and are counted |
| ReadableOctets.ReadsExactlyWhen | crates/forge-bfcp/src/message.rs:961-1098 | attributes read exactly when their octets are values of their types, at most four groups deep and not too long to be written again, and how long they then are |
| ReadableOctets.MessageReadsExactlyWhen | crates/forge-bfcp/src/message.rs:785-829 | octets are read as a message exactly when header, length, attributes and mandatory ones allow, and as one message when nothing follows |
| ReadableOctets.ErrorTellsWhy | crates/forge-bfcp/src/message.rs:785-829 | octets that are not read are refused for the first thing wrong with them, told from the octets, with the header's fields kept |
| ReadableOctets.CodeTellsWhy | crates/forge-bfcp/src/message.rs:651-698 | octets that are not read are answered with the code that tells why, from the octets alone |
| ReadableOctets.HeaderByOctets | crates/forge-bfcp/src/message.rs:580-630 | every field of a header, by its octets |
| ReadableOctets.RestIsIgnored | crates/forge-bfcp/src/message.rs:961-1098 | of an id, a priority or a status only the first two octets are read |
| ReadableOctets.PriorityReads | crates/forge-bfcp/src/message.rs:266-289 | a priority is the upper three bits of its octet, and no more than the highest |
| Codec.Write | crates/forge-bfcp/src/message.rs:438-506 | appending, patching the length and padding appends exactly the attribute's octets |
| Codec.MessageToBytes | crates/forge-bfcp/src/message.rs:832-852 | the writer's loop gives the message's octets or the error it should |
| Codec.ReadAttributes | crates/forge-bfcp/src/message.rs:961-1098 | the consuming loop gives the attributes, in order, and the unknown mandatory types, or the first error |
| Codec.ReadPrefix | crates/forge-bfcp/src/message.rs:798-829 | the reader gives the message at the front and its length, or the error it should |
| Framer.TcpFramer.NextMessage | crates/forge-bfcp/src/transport.rs:45-69 | one poll of the framer, its answer and its buffer |
| Framer.PollTakesOneFrame | crates/forge-bfcp/src/transport.rs:45-69 | a poll takes exactly the first whole frame and reads it from its own octets, and otherwise takes nothing |
| Framer.PollTakesWhatIsStated | crates/forge-bfcp/src/transport.rs:45-69 | what a poll takes of a whole frame is, by the octets, twelve and four times the number stated, and four more for a fragment |
| Framer.PollWaits | crates/forge-bfcp/src/transport.rs:45-69 | a poll answers that nothing is there exactly when no frame is whole and no fragment header is half arrived |
| Framer.PayloadMovesNothing | crates/forge-bfcp/src/transport.rs:45-69 | wherever a frame stands in a stream, another payload under the same header changes that frame's own result and no other, nor the tail |
| Framer.FramesCompose | crates/forge-bfcp/src/transport.rs:36-69 | cutting a stream is cutting its first part and then what that left together with the rest |
| Framer.OctetsAreConserved | crates/forge-bfcp/src/transport.rs:36-74 | a stream's octets are its frames' and the tail's |
| Framer.RunCutsTheStream | crates/forge-bfcp/src/transport.rs:36-74 | in every run, what was answered and what is buffered are the cut of everything pushed |
| Framer.PolledOut | crates/forge-bfcp/src/transport.rs:36-74 | a run polled out has answered exactly the stream's frames and holds exactly its tail |
| Framer.EarlyAnswersAre | crates/forge-bfcp/src/transport.rs:45-69 | no chunking and polling of a stream draws an early error if and only if no frame in it, malformed or not, and no incomplete end is a fragment's |
| Framer.HalfAHeaderIsAnError | crates/forge-bfcp/src/transport.rs:49-62 | one fragment, pushed in one chunk and in two with a poll between: the second run draws an error more |
| Framer.FramerUndoesWriting | crates/forge-bfcp/src/transport.rs:36-74 | under every chunking and polling of written messages, those messages come out in order and the incomplete octets stay |
| Framer.WrittenIsUnfragmented | crates/forge-bfcp/src/transport.rs:45-69 | a stream of written messages, wherever it is cut off, holds no fragment |
| Framer.WrittenIsNeverPremature | crates/forge-bfcp/src/transport.rs:45-69 | so over written messages no run draws an early error |
| UdpTransport.UdpPeer.Receive | crates/forge-bfcp/src/transport.rs:147-183 | sorting a datagram, and what it does to the timer and the message outstanding |
| UdpTransport.UdpPeer.CacheResponse | crates/forge-bfcp/src/transport.rs:187-189 | keeping a response |
| UdpTransport.UdpPeer.Notify | crates/forge-bfcp/src/transport.rs:194-213 | sending now or queueing |
| UdpTransport.UdpPeer.OnTick | crates/forge-bfcp/src/transport.rs:217-242 | forgetting, retransmitting, giving up, sending the next |
| UdpRuns.StepKeeps | crates/forge-bfcp/src/transport.rs:136-242 | every operation keeps the peer in step with its history: queue, flight, timer, spacing |
| UdpRuns.RetransmissionIsBounded | crates/forge-bfcp/src/transport.rs:203-242 | in every run each message is sent at most four times, on a doubling timer, and none given up within fifteen first timers |
| UdpRuns.BackOffIsExact | crates/forge-bfcp/src/transport.rs:203-236 | in every run the interval outstanding is the first timer times a power of two, and the message and its id are those accepted |
| UdpRuns.QueuedTransaction | crates/forge-bfcp/src/transport.rs:237-240 | the id re-read from queued octets is the one the message carried |
| UdpRuns.MessagesAreConserved | crates/forge-bfcp/src/transport.rs:152-242 | in every run each accepted message is in exactly one flight, dropped, or waiting |
| UdpRuns.WhatIsSentWasAccepted | crates/forge-bfcp/src/transport.rs:194-242 | in every run the datagrams sent for the server are, counted one by one, the octets of the accepted messages at the transmissions logged |
| UdpRuns.FifoExactlyWhen | crates/forge-bfcp/src/transport.rs:194-242 | a whole run keeps the order accepted if and only if no message was given to an idle peer with others waiting |
| UdpRuns.ThirdOvertakesSecond | crates/forge-bfcp/src/transport.rs:194-242 | a run of three notifications and an acknowledgement in which the third goes out before the second |
| UdpRuns.TickClearsTheWay | crates/forge-bfcp/src/transport.rs:237-240 | after a tick of an idle peer nothing can overtake |
| UdpDuties.BusyTick | crates/forge-bfcp/src/transport.rs:224-236 | a tick sends the octets in flight once more exactly when due and fewer than four times sent, and after four reports the connection broken and drops the queue |
| UdpDuties.IdleTick | crates/forge-bfcp/src/transport.rs:237-240 | a tick with nothing in flight sends the message that has waited longest |
| UdpDuties.NotifyMust | crates/forge-bfcp/src/transport.rs:194-201 | a message given is sent at once while nothing is in flight and waits otherwise |
| UdpDuties.SettledExactlyWhen | crates/forge-bfcp/src/transport.rs:147-172 | a message is settled exactly by an acknowledgement, marked as a response, in its transaction, and what the timer then becomes |
| UdpDuties.ForgottenExactlyWhen | crates/forge-bfcp/src/transport.rs:219-223 | a response is forgotten by the first tick after T2 and by no other |
| UdpDuties.FourTimesThenBroken | crates/forge-bfcp/src/transport.rs:194-242 | unanswered, a message goes out at 0, 500, 1500 and 3500 and is given up at 7500 |
| UdpRuns.TimerMovesExactlyWhen | crates/forge-bfcp/src/transport.rs:156-160 | the timer leaves T1 exactly on a late acknowledgement of a first transmission |
| UdpRuns.TimerIsStable | crates/forge-bfcp/src/transport.rs:152-213 | in every run the timer is at least T1, and it is T1 throughout if and only if no acknowledgement of a first transmission was late |
| IdAllocation.CycleIsExact | crates/forge-bfcp/src/server.rs:464-472 | identifiers repeat exactly after 65535 turns |
| IdAllocation.FreeExactlyWhen | crates/forge-bfcp/src/server.rs:451-459 | an identifier is free exactly when fewer than 65535 are live |
| IdAllocation.EndlessExactlyWhen | crates/forge-bfcp/src/server.rs:451-459 | the search meets only live identifiers, turn after turn for ever, exactly when none is free |
| FloorControl.FloorServer.FreshRequestId | crates/forge-bfcp/src/server.rs:451-459 | the search ends with the first identifier in turn that is not live, and nonzero |
| FloorControl.FloorServer.constructor | crates/forge-bfcp/src/server.rs:125-135 | a new server satisfies the invariant |
| FloorControl.FloorServer.Add | crates/forge-bfcp/src/server.rs:150-159 | adding a user, unsubscribed |
| FloorControl.FloorServer.Remove | crates/forge-bfcp/src/server.rs:164-186 | removing a user and their requests, and telling the rest when the floor falls free |
| FloorControl.FloorServer.FloorStatusToSubscribers | crates/forge-bfcp/src/server.rs:548-564 | every subscriber is told, in ascending order, each in the next transaction |
| FloorControl.FloorServer.DecideRequest | crates/forge-bfcp/src/server.rs:424-447 | a decision changes the request, tells the requester, then the subscribers |
| FloorControl.FloorServer.Grant | crates/forge-bfcp/src/server.rs:410-412 | granting |
| FloorControl.FloorServer.Deny | crates/forge-bfcp/src/server.rs:415-417 | denying |
| FloorControl.FloorServer.Revoke | crates/forge-bfcp/src/server.rs:420-422 | revoking |
| FloorControl.FloorServer.Receive | crates/forge-bfcp/src/server.rs:211-239 | handling octets from a client |
| FloorControl.FloorServer.HandleParsed | crates/forge-bfcp/src/server.rs:242-405 | handling a message from a client |
| FloorServers.BroadcastIs | crates/forge-bfcp/src/server.rs:548-564 | a broadcast tells each user the same floor in consecutive transactions and changes only the counter |
| FloorServers.HandleMessageKeeps | crates/forge-bfcp/src/server.rs:242-405 | whatever a client sends, each request stays keyed by its nonzero id, its registered user's only one, pending or granted |
| FloorServers.DecideKeeps | crates/forge-bfcp/src/server.rs:424-447 | so does every decision |
| FloorServers.RemoveUserKeeps | crates/forge-bfcp/src/server.rs:164-186 | so does every departure |
| ServerMessages.InfoCarries | crates/forge-bfcp/src/server.rs:497-527 | a request's information gives its id, its status twice, its user, its priority, its text and the reason |
| ServerMessages.NamesCarried | crates/forge-bfcp/src/server.rs:481-495 | a beneficiary's information gives the names the user was added with |
| ServerMessages.FloorMessageLists | crates/forge-bfcp/src/server.rs:539-546 | a FloorStatus lists every ongoing request once, ascending, with its status |
| ServerMessages.UserMessageLists | crates/forge-bfcp/src/server.rs:365-378 | a UserStatus lists the request of the user asked about, if any, and no other |
| ServerMessages.HelloListsEverything | crates/forge-bfcp/src/message.rs:428-436 | a HelloAck lists every primitive and every attribute type |
| ServerMessages.PriorityIsFirst | crates/forge-bfcp/src/message.rs:884-892 | the first priority is found, normal without one |
| ServerMessages.IdsAreThose | crates/forge-bfcp/src/message.rs:857-881 | exactly the ids at the top level are listed, and the first is found |
| ServerReplies.RefusalTellsWhy | crates/forge-bfcp/src/server.rs:242-383 | a message is refused exactly for its cause, told from its attributes, with the code that tells it |
| ServerReplies.FloorQueryDoes | crates/forge-bfcp/src/server.rs:350-364 | a query subscribes its sender exactly when it names the floor, changes nobody else, and is answered with what is granted |
| ServerReplies.FloorRequestDoes | crates/forge-bfcp/src/server.rs:279-315 | a request is kept as asked for, under an id not live, and reported pending |
| ServerReplies.FloorReleaseDoes | crates/forge-bfcp/src/server.rs:316-343 | a release ends the request named, reports it released or cancelled as it was granted or not, and tells the subscribers if it was |
| ServerReplies.FloorRequestQueryDoes | crates/forge-bfcp/src/server.rs:344-349 | a query for a request reports it as it stands |
| ServerReplies.UserQueryDoes | crates/forge-bfcp/src/server.rs:365-378 | a query for a user tells of the beneficiary, or of the sender without one |
| ServerReplies.ComingAndGoing | crates/forge-bfcp/src/server.rs:257-405 | greetings, goodbyes, acknowledgements and a server's own primitives |
| ServerReplies.JoinDoes | crates/forge-bfcp/src/server.rs:150-159 | who joins has the name and the URI given and is not subscribed |
| ServerReplies.LeaveDoes | crates/forge-bfcp/src/server.rs:164-186 | who leaves is gone with their requests and no others, and the subscribers left are told when one was granted |
| ServerReplies.DecisionDoes | crates/forge-bfcp/src/server.rs:424-447 | a decision ends the request or sets its status, leaves the others, tells the requester with the reason, and then every subscriber |
| ServerReplies.OwnerDecides | crates/forge-bfcp/src/server.rs:410-422 | granting, denying and revoking decide that, with the reason given |
| Subscribers.FloorMessageSays | crates/forge-bfcp/src/server.rs:539-546 | a FloorStatus says exactly which requests are granted |
| Subscribers.ApplyTells | crates/forge-bfcp/src/server.rs:150-447 | every operation leaves every subscriber told which requests are granted |
| ServerRuns.Run | crates/forge-bfcp/src/server.rs:124-564 | every state a run reaches satisfies the invariant: requests keyed by their own nonzero ids, one a registered user, pending or granted |
| ServerRuns.SubscribersAreTold | crates/forge-bfcp/src/server.rs:150-564 | in every run, the last FloorStatus to each subscriber names exactly the requests granted now |
| Subscriptions.SubscribedExactlyWhen | crates/forge-bfcp/src/server.rs:150-405 | in every run a user is subscribed exactly when the last accepted query of theirs since they joined named the floor |
| Subscriptions.SubscriberIsAmongThem | crates/forge-bfcp/src/server.rs:424-447 | whoever is subscribed is told of a grant, with exactly what is granted then |
| Subscriptions.SubscriberIsTold | crates/forge-bfcp/src/server.rs:350-447 | a run in which a subscriber is told that they hold the floor |
| ServerRuns.ApplyBalances | crates/forge-bfcp/src/server.rs:164-447 | in each operation the live requests change by exactly those that began and those reported ended |
| ServerRuns.RequestsEndOnce | crates/forge-bfcp/src/server.rs:164-447 | in every run each request that began is live or has ended exactly once |
| ServerRuns.ReportsAreOfLiveRequests | crates/forge-bfcp/src/server.rs:424-447 | no status is notified of a request that had ended, and a terminal one is of a request just removed |
| ServerRuns.EventsAreTrue | crates/forge-bfcp/src/server.rs:279-390 | the events of a message tell the truth about the requests and users they name, and a goodbye reports the granted request it releases, if there is one |
| ServerRuns.DepartureReports | crates/forge-bfcp/src/server.rs:164-186 | a departure reports a request exactly when the user had a granted one, and then that one |
| ServerRuns.ErrorsChangeNothing | crates/forge-bfcp/src/server.rs:242-405 | an error is answered exactly to what is refused, and then nothing changes and nobody else is told |
| ServerSafety.SpinsExactlyWhen | crates/forge-bfcp/src/server.rs:298-306 | an acceptable request makes the search meet live ids for ever exactly when all 65535 ids are live |
| ServerSafety.NeverSpins | crates/forge-bfcp/src/server.rs:292-298 | while a user id is unregistered no message does |
| ServerSafety.RunsProceed | crates/forge-bfcp/src/server.rs:211-459 | so every operation of such a run is finished |
| ServerSafety.TransactionIdsDoNotRepeat | crates/forge-bfcp/src/server.rs:464-479 | in every run UDP transaction ids are nonzero and 65535 in a row distinct, and TCP ones zero |
| ServerSafety.RepliesEcho | crates/forge-bfcp/src/server.rs:242-405 | a reply stays in the sender's transaction, and which replies carry R |
| ServerSafety.HolderIs | crates/forge-bfcp/src/server.rs:189-194 | the holder is the granted request with the least id, and none exactly when none is granted |
| ServerSafety.GrantKeepsOneHolderExactlyWhen | crates/forge-bfcp/src/server.rs:410-447 | granting leaves one holder exactly when no other request is granted |
| ServerSafety.TheFloorHasOneHolder | crates/forge-bfcp/src/server.rs:164-194 | in every run of an owner who grants only a free floor, one holder at most, named by `holder` and reported at departure |
| ServerReach.TwoCanHold | crates/forge-bfcp/src/server.rs:410-447 | a run of a new server in which two users ask and both are granted the floor |
| ServerReach.SearchCanBeEndless | crates/forge-bfcp/src/server.rs:451-459 | a run of a new server, with every user id registered, to a state where an acceptable request is never answered |
| Encodability.InfoTakes | crates/forge-bfcp/src/server.rs:497-527 | a request's information takes 28 octets and its texts |
| Encodability.StatusWritesExactlyWhen | crates/forge-bfcp/src/server.rs:530-536 | a FloorRequestStatus is written if and only if its padded texts come to at most 224 octets |
| Encodability.StatusIsRead | crates/forge-bfcp/src/server.rs:424-447 | a decision that is written is read by the client as the request and the status decided |
| Encodability.FloorStatusWritesExactlyWhen | crates/forge-bfcp/src/server.rs:539-546 | a FloorStatus is written if and only if every live request's padded texts come to at most 224 octets and all requests together fit one payload |
| Encodability.UserStatusWritesExactlyWhen | crates/forge-bfcp/src/server.rs:365-378 | a UserStatus is written if and only if the names asked about come to at most 248 octets and their request's texts to at most 224 |
| Encodability.FloorStatusIsRead | crates/forge-bfcp/src/server.rs:539-546 | under that condition a FloorStatus is written and read as exactly the requests granted |
| ServerAnswers.UnreadableIsAnswered | crates/forge-bfcp/src/server.rs:208-238 | unreadable octets change nothing and are answered exactly when a header is there, with the code that tells why and the types not understood; the answer can be written unless there are more than 252 of them |
| MandatoryAttributes.ListedAreUndefined | crates/forge-bfcp/src/message.rs:961-1098 | what is listed as not understood is of no type the crate defines, at any group depth |
| ServerAnswers.WrittenExactlyWhen | crates/forge-bfcp/src/server.rs:242-405 | for every message, when the server's answer can be written: always for greetings, goodbyes and refusals, otherwise as its texts leave room |
| ServerAnswers.HandledWritesExactlyWhen | crates/forge-bfcp/src/server.rs:208-239 | the same for any octets |
| Transactions.HandledAsWritten | crates/forge-bfcp/src/server.rs:211-213 | a well-formed message written by a client is handled as that message |
| Transactions.AnswersExactlyWhen | crates/forge-bfcp/src/transport.rs:147-189 | a datagram is executed and answered exactly when it is a request and its answer's texts leave room |
| Transactions.ReplayedExactlyWithin | crates/forge-bfcp/src/transport.rs:175-182 | a retransmission is replayed exactly within T2 of its answer |
| Transactions.RequestExactlyWhen | crates/forge-bfcp/src/transport.rs:147-183 | a datagram is handed to the server as a request exactly when it is not a response and no response is kept for its transaction within T2 |
| Transactions.RequestsExecuteAtMostOnce | crates/forge-bfcp/src/transport.rs:147-223 | whatever falls in between, a retransmission gets the identical octets and leaves server and peer as they are if the answer could be written, and is executed again if and only if it could not |
| Transactions.LongInfoIsExecutedTwice | crates/forge-bfcp/src/server.rs:280-318 | a request for the floor with a text of 223 octets or more begins a request, is not answered, and sent again is refused |
| Transactions.FloorStatusIsDroppedExactlyWhen | crates/forge-bfcp/src/transport.rs:194-201 | a FloorStatus notification is neither sent nor queued exactly when it cannot be written |
| DtmfCommands.DtmfCommandHandler.ProcessDigit | crates/forge-conference/src/dtmf_commands.rs:250-392 | one digit through the handler |
| DtmfCommands.DtmfCommandHandler.SetHost | crates/forge-conference/src/dtmf_commands.rs:541-547 | promoting and demoting |
| DtmfCommands.DtmfCommandHandler.ClearParticipant | crates/forge-conference/src/dtmf_commands.rs:550-552 | forgetting a participant |
| DtmfRuns.PressIsSound | crates/forge-conference/src/dtmf_commands.rs:193-392 | every digit keeps the state in step with the log, and answers with grounds in it |
| DtmfRuns.RunsProject | crates/forge-conference/src/dtmf_commands.rs:230-263 | in every run each participant is kept and answered as if alone |
| DtmfRuns.HostsHaveTypedThePin | crates/forge-conference/src/dtmf_commands.rs:281-337 | in every run a host's answer follows the whole PIN, and a dial-out carries exactly the digits dialled |
| DtmfRuns.PinMakesHost | crates/forge-conference/src/dtmf_commands.rs:281-313 | typing the rest of the PIN at a steady pace makes a host |
| DtmfModes.DigitIsTakenExactlyWhen | crates/forge-conference/src/dtmf_commands.rs:193-280 | a repeat within 80 ms does nothing, after the timeout what was typed is forgotten, and otherwise the digit is taken |
| DtmfModes.ModesAreEnteredExactlyWhen | crates/forge-conference/src/dtmf_commands.rs:346-372 | a digit enters the PIN mode exactly for someone no host who completes a host command, and dial-out mode exactly for a host who completes dial-out |
| DtmfModes.CommandDigitExactly | crates/forge-conference/src/dtmf_commands.rs:338-392 | a digit outside the modes is answered with what the digits match, waits, or is answered as invalid |
| DtmfModes.PinDigitExactly | crates/forge-conference/src/dtmf_commands.rs:281-313 | a digit of the PIN makes a host, waits, or is answered as invalid and ends the mode |
| DtmfModes.DialDigitExactly | crates/forge-conference/src/dtmf_commands.rs:314-337 | everything up to the `#` is kept and then dialled |
| DtmfModes.BecomesHostExactlyWhen | crates/forge-conference/src/dtmf_commands.rs:250-392 | for every configuration, some run makes a host of someone never promoted if and only if a host command can be typed by others, the PIN is not empty and the timeout leaves room for a repeated digit |
| DtmfDialling.DialledExactlyWhen | crates/forge-conference/src/dtmf_commands.rs:314-372 | for every configuration and destination, some run dials it if and only if it is not empty, holds no `#`, and dial-out can be typed in time |
| DtmfDialling.DefaultsMakeHosts | crates/forge-conference/src/dtmf_commands.rs:73-124 | with the default bindings some run makes a host exactly when there is a PIN that can be typed |
| DtmfDialling.DefaultsDial | crates/forge-conference/src/dtmf_commands.rs:73-124 | with the default bindings exactly the destinations not empty and without `#` can be dialled |
| DtmfTables.MatchIs | crates/forge-conference/src/dtmf_commands.rs:395-485 | what digits match, read off the table of bindings |
| DtmfTables.ParticipantCommandIs | crates/forge-conference/src/dtmf_commands.rs:395-411 | digits name the first participant command they are bound to |
| DtmfTables.HostCommandIs | crates/forge-conference/src/dtmf_commands.rs:426-467 | digits name the first host command they are bound to, then a kick, then dial-out |
| DtmfTables.AmbiguousExactlyWhen | crates/forge-conference/src/dtmf_commands.rs:413-515 | when a participant command waits for a host command to follow |
| DtmfTables.PartialExactlyWhen | crates/forge-conference/src/dtmf_commands.rs:487-538 | digits are waited on exactly when some binding goes on from them |
| DtmfTables.NumbersReadBack | crates/forge-conference/src/dtmf_commands.rs:459-467 | a number is read back from its digits, with a plus or without, as long as it fits 64 bits |
| DtmfBindings.AnsweredExactlyWhen | crates/forge-conference/src/dtmf_commands.rs:250-485 | for every configuration, some run answers a command in a role if and only if digits match it, every proper prefix of them may be waited on, and the timeout leaves room for a repeated digit |
| DtmfBindings.MatchedIsBound | crates/forge-conference/src/dtmf_commands.rs:395-485 | a command is matched only on its own digits, and a host's only for a host |
| DtmfBindings.HostCommandsAreServed | crates/forge-conference/src/dtmf_commands.rs:426-476 | digits bound to one host command alone are matched with it for a host, and ask others for the PIN |
| DtmfBindings.KeptDigitsLeadOn | crates/forge-conference/src/dtmf_commands.rs:346-390 | in every run the digits kept outside the modes begin some binding and were waited on at every prefix |
| DtmfBindings.HostCommandsFollowThePin | crates/forge-conference/src/dtmf_commands.rs:250-392 | in every run a host's command is answered only as a host's and after the whole PIN |
| DtmfBindings.AmbiguousIsNeverAnswered | crates/forge-conference/src/dtmf_commands.rs:413-424 | in no run is a participant command with ambiguous digits answered |
| DtmfBindings.LongerIsNeverAnswered | crates/forge-conference/src/dtmf_commands.rs:395-424 | nor is one whose digits begin with another participant command's that is not ambiguous |
| DtmfBindings.LongerBindingIsNeverAnswered | crates/forge-conference/src/dtmf_commands.rs:395-424 | with `*6` and `*67` bound, the command of `*67` is never answered, though its digits match it |
| DtmfBindings.DefaultsNeverInformOrLeave | crates/forge-conference/src/dtmf_commands.rs:73-124 | with the default bindings neither information nor leave is ever answered |
| DtmfBindings.DefaultsAnswerExactly | crates/forge-conference/src/dtmf_commands.rs:73-124 | with the default bindings, for each command and role, whether some run answers it |
| DtmfBindings.KicksBeyondNineExactlyWhen | crates/forge-conference/src/dtmf_commands.rs:395-476 | for every configuration, some run kicks a participant above nine if and only if digits past the kick prefix can be waited on and a next digit then names one |
| DtmfBindings.KickDigitsMayWait | crates/forge-conference/src/dtmf_commands.rs:432-476 | digits past the kick prefix may be waited on exactly when they begin a binding and are no kick themselves, or there is no host PIN |
| DtmfBindings.KicksAreOneDigit | crates/forge-conference/src/dtmf_commands.rs:432-467 | where no digits past the prefix can be waited on, in every run a kick's number is the one digit after it |
| DtmfBindings.LongerLockKicksOneDigit | crates/forge-conference/src/dtmf_commands.rs:432-476 | a lock bound to `##12` kicks nobody above nine where there is a host PIN |
| DtmfBindings.LongerLockKicksBeyondNine | crates/forge-conference/src/dtmf_commands.rs:432-476 | and lets 15 be kicked where there is none |
| PinAuth.ConstantTimeEq | crates/forge-conference/src/pin_auth.rs:11-28 | the accumulating comparison is equality |
| PinAuth.PinAuthenticator.Authenticate | crates/forge-conference/src/pin_auth.rs:126-209 | one attempt: its result and the tracker it leaves |
| PinAuth.PinAuthenticator.RecordFailure | crates/forge-conference/src/pin_auth.rs:85-95 | recording a failure |
| PinAuth.PinAuthenticator.ClearLockout | crates/forge-conference/src/pin_auth.rs:220-225 | clearing a lockout |
| PinAuth.HistoryDecides | crates/forge-conference/src/pin_auth.rs:64-209 | in every run the configuration and the wrong PINs evaluated since the last reset decide every answer: who is let in as what, who is locked out and for how long, and how many attempts remain |
| PinAuth.OwnHistoryDecides | crates/forge-conference/src/pin_auth.rs:126-225 | and among any others, each participant is answered by their own history |
| PinAuth.WrongPinsAreBounded | crates/forge-conference/src/pin_auth.rs:64-209 | in every run, between resets, the wrong PINs evaluated in any span are at most the attempts allowed plus one a lockout |
| PinAuth.BoundIsMet | crates/forge-conference/src/pin_auth.rs:64-209 | a run that tries at the end of each lockout has exactly that many evaluated, over any number of lockouts |

## Left out

- The wording of refusals (`ERROR-INFO` texts), names and `Display` strings, and logging; the error codes are kept.
- Fragment reassembly, TLS and DTLS, floor chairs and several floors, which the crate leaves out itself.
- Clocks, locks and shared ownership: `now` is a parameter in milliseconds, concurrent maps are maps, and instants do not overflow.
- Attributes that the program treats alike share a constructor with a kind (ids, texts, octet lists, groups); the types on the wire stay apart.
- DTMF strings are sequences of characters whose length is counted in characters, as for the ASCII digits they hold.
- PinAuth.WrongPinsAreBounded: the 32-bit count of failures does not wrap, which would take more than four billion of them.
- DtmfCommands.DtmfCommandHandler.ProcessDigit: a kick's number is read as a 64-bit machine word.
- Replacing a PIN configuration while trackers exist (`update_config`), and the read-only accessors of both state machines.
- Codecs, resamplers, the conference and its bridge, the HTTP interface, high availability, SIP, AI connectors, configuration and metrics.
