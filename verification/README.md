# Model of the Hkt networking, messages, sessions and behavior graph

The project models four parts of the repository and proves what they keep.

- **Reliable UDP** (`AckWindow`, `Packets`, `PacketBytes`, `PendingTable`, `Delivery`, `DeliveryTheorems`, `Abandonment`, `Doom`,
  `ServerModel`, `ServerTheorems`, `ServerRefinement`, `ReliableUdpServer`). The receive window is modelled twice: `WrittenStep`
  is `UpdateReceivedState` as it is coded, `IntendedStep` is what the header's documentation and the decoding in `ProcessAck`
  call for. `Delivery` is a state machine of two endpoints over a network that loses, duplicates and reorders datagrams; a send
  is split at its lock scopes, so that other senders, acknowledgements and ticks come between. `Abandonment` adds the clock.
  `ServerModel` has the server's tables as values, with either receive window, and `ReliableUdpServer` the server as a class whose
  methods update them in place; `ServerRefinement` shows every run of the server, seen from one client, to be a run of
  `Delivery`, and carries its theorems over. `Doom` is what happens to a packet that an acknowledgement can no longer reach.
  `PacketBytes` says what the datagrams are byte by byte, and what the server does with the bytes it gets.
- **Messages** (`Wire`, `Messages`, `MessageBytes`, `MessageState`, `MessageObjects`, `SyncMessageObjects`). The four messages
  of the hkt schema: varints and records as the Protocol Buffers Encoding guide describes them (sections "Base 128 Varints",
  "Length-Delimited Records", "Submessages", "Last One Wins"), merging, has-bits, retained submessages and cached sizes.
  `MessageBytes` has the wire format as a grammar over bytes, which the serializers write and the parsers read.
- **Stream sessions** (`StreamSessions`, `StreamSessionTheorems`, `StreamSessionEvents`, `StreamHandlers`). Worker threads
  complete operations while broadcasts take a snapshot of a group and write to its members one by one; every interleaving is a
  run. `StreamSessionEvents` says what each event does, whatever happened before it.
- **Behavior graph** (`Graph`). The owning map and the index by subject and tag.

`Words` and `Options` hold 32-bit words as their bits, and an option type.

## Where the code differs from its documentation

- `UpdateReceivedState` (Source/HktCustomNet/Private/HktReliableUdpServer.cpp:308-331) departs from the meaning given to
  `AckBitfield` (Source/HktCustomNet/Public/HktReliableUdpHeader.h:41-42) in three places. The drop test subtracts 32 in uint32,
  so below 32 it drops almost everything and a new connection never leaves its initial state in practice; an advance records the
  old top at bit 0 instead of bit Diff-1; a duplicate of the newest packet shifts by 2^32 - 1, which C++ leaves undefined (the
  model takes any result). `WrittenAgreesExactlyWhen`, `WrittenSoundExactlyWhen`, `WrittenStaysFresh` and
  `WrittenSafeExactlyWhen` say exactly what this costs: up to 2^32 - 32 packets a side nothing is ever acknowledged,
  every connection that sends is dropped after its retries, and delivery is safe only because nothing is taken off the pending
  table. The class runs the coded step.
- The client leaves a group with an empty payload (Source/HktCustomNet/Private/HktReliableUdpClient.cpp:116-127); the server
  takes anything but four bytes for malformed, so the request has no effect (`LeaveTakesEffectExactlyWhen`).
- The client never sends an Ack of its own (Source/HktCustomNet/Private/HktReliableUdpClient.cpp:225-266); it acknowledges only
  on the packets it sends anyway. The delivery model lets an endpoint announce its state at any time or never.
- Nothing keeps a sender within the 32 packets an acknowledgement reaches back. Beyond them even the documented receiver can have
  accepted a packet that its sender never learns of, and the connection is dropped: `DoomIsForever`, `DoomEndsInDrop`,
  `DeliveredYetDoomed`.
- A stream session that connects with group -1 is registered there, but its destructor takes -1 for "never connected" and skips
  unregistering (Source/HktGrpc/Public/HktRpcService.h:226-244): `ListedExactlyWhen`, `GroupMinusOneIsUnsafe`.
- `BehaviorGraph` forgets the index of a whole subject when an untagged behavior of it is removed, and then can no longer remove
  the others: `RemoveKeepsCompleteExactlyWhen`, `RemovedIsGoneExactlyWhen`, and the run of `UntaggedRemovalForgets`.
  `THktBehavior::GetTags` is always empty (Source/HktBase/Public/HktBehavior.h:74-77), so this is what every behavior of that
  template meets. Adding under an id in use leaves the old object's references in the lists: `ReusedIdDanglesExactlyWhen`,
  `ReuseLeavesADeadReference`.

## Reading the statements

Runs start from an empty server or two new endpoints, so a theorem about runs is about every reachable state. One run of
`Delivery` is one lifetime of a connection: numbers start again after a reconnect and carry no session, so datagrams of an
earlier lifetime are not in the network, and an endpoint sends fewer than 2^32 packets. Histories (`past`) are read by no step.
What is stated of the first endpoint of a run holds of the second (`RunFlips`).
Times are reals and the three timing constants are parameters (`Limits`); the clock readings of an operation are its parameters.
Sets and maps are visited in any order. Addresses are their printed form. A session's pointer is its number.

## Model

| member | source | states |
|---|---|---|
| AckWindow.IntendedKeepsExact | Source/HktCustomNet/Private/HktReliableUdpServer.cpp:308-331 | One documented step keeps the window exact: the top is the highest accepted sequence, and bit i is set if and only if top-(i+1) was accepted |
| AckWindow.WindowExactOnEveryRun | Source/HktCustomNet/Public/HktReliableUdpHeader.h:39-42 | For every list of arrivals the documented receiver holds the maximum arrival and, bit for bit, which of the 32 before it were accepted, where accepted is defined from the arrivals alone |
| AckWindow.AcknowledgesExactly | Source/HktCustomNet/Private/HktReliableUdpServer.cpp:286-305 | Read as ProcessAck reads it, an exact window acknowledges precisely the accepted sequences at most 32 behind its top |
| AckWindow.WrittenAgreesExactlyWhen | Source/HktCustomNet/Private/HktReliableUdpServer.cpp:312-329 | The coded step and the documented step give the same state if and only if: below 32, the packet is the top or its bit is already set; from 32 on, it is older, the next one, or a duplicate of the top whose undefined shift adds nothing |
| AckWindow.WrittenSoundExactlyWhen | Source/HktCustomNet/Private/HktReliableUdpServer.cpp:317-329 | From an exact window the coded step acknowledges only what arrived if and only if it does not advance by two or more past the drop test and the undefined shift adds no unaccepted sequence |
| AckWindow.WrittenClaimsAnUnseenPacket | Source/HktCustomNet/Private/HktReliableUdpServer.cpp:312-322 | The first arrival that moves a coded connection at all, which is any above 2^32 - 32, makes it acknowledge the sequence before, which never came |
| AckWindow.WrittenTopsAreExtreme | Source/HktCustomNet/Private/HktReliableUdpServer.cpp:312-322 | A coded connection is in its initial state or has a top above 2^32 - 32, whatever arrived |
| AckWindow.WrittenStaysFresh | Source/HktCustomNet/Private/HktReliableUdpServer.cpp:312-315 | A coded receiver is still in its initial state after a list of arrivals if and only if none of them exceeds 2^32 - 32 |
| PacketBytes.HeaderIsWritten | Source/HktCustomNet/Public/HktReliableUdpHeader.h:33-51 | Byte by byte: a datagram starts with its type, then number, acknowledgement and bit field, four bytes each with the least significant first and bit i of the field in byte 9 + i/8; the payload follows; and reading it gives back the header and the payload |
| PacketBytes.HeaderIsRead | Source/HktCustomNet/Private/HktReliableUdpServer.cpp:126-139 | The same layout for whatever arrives: every datagram of at least 13 bytes is read from those bytes, and is the encoding of what it is read as |
| PacketBytes.NextDataSays | Source/HktCustomNet/Private/HktReliableUdpServer.cpp:249-256 | The datagram of a send is a 0, the next number, the window as acknowledgement, and the payload |
| PacketBytes.ControlPacketSays | Source/HktCustomNet/Private/HktReliableUdpServer.cpp:516-528 | An Ack is the 13 bytes of a 1, the number 0 and the window |
| PacketBytes.CoversIsAcknowledges | Source/HktCustomNet/Private/HktReliableUdpServer.cpp:282-305 | A pending number is acknowledged by bytes 5 to 12 as the loop of ProcessAck decodes them, counting forward from the number with wrap-around |
| PacketBytes.StrangerByByte | Source/HktCustomNet/Private/HktReliableUdpServer.cpp:142-154 | From an unknown address only 13 bytes or more that start with a 2 do anything: the sender becomes a client in its initial state |
| PacketBytes.ClientLeavesByByte | Source/HktCustomNet/Private/HktReliableUdpServer.cpp:126-179 | In every reachable state a client's datagram below 13 bytes does nothing, and a first byte of 3, no other, ends its connection and all its memberships |
| PacketBytes.ConnectionByByte | Source/HktCustomNet/Private/HktReliableUdpServer.cpp:157-169 | Any other datagram renews the client and takes off the pending table exactly the numbers its bytes acknowledge; only a first byte of 0 moves the receive window, by the number in bytes 1 to 4 |
| PacketBytes.GroupsByByte | Source/HktCustomNet/Private/HktReliableUdpServer.cpp:180-213 | In every reachable state and for every group: 17 bytes starting with a 6 join the group that bytes 13 to 16 are in two's complement, with a 7 they leave it, and no other datagram but a Disconnect changes whether the client is in the group |
| PacketBytes.ReplyByByte | Source/HktCustomNet/Private/HktReliableUdpServer.cpp:142-169 | In every reachable state the answer, to a first byte of 0 from a client or of 2 from a stranger and to nothing else, is one datagram: the Ack of the state it leaves |
| PacketBytes.EndpointByByte | Source/HktCustomNet/Private/HktReliableUdpServer.cpp:156-179 | The receive step of the delivery model in terms of bytes; every Data payload goes to the end of the inbox, a 3 ends the connection |
| PacketBytes.AllocateByByte | Source/HktCustomNet/Private/HktReliableUdpServer.cpp:226-251 | What a send of the delivery model has in progress is those bytes with the next number |
| PendingTable.AfterAcksIsDifference | Source/HktCustomNet/Private/HktReliableUdpServer.cpp:282-306 | A list of acknowledgements leaves the pending packets that none of them covers, unchanged |
| PendingTable.AckOrderDoesNotMatter | Source/HktCustomNet/Private/HktReliableUdpServer.cpp:282-306 | Two lists with the same headers leave the same table, whatever their order and repetitions |
| AckWindow.WrittenStepBitByBit | Source/HktCustomNet/Private/HktReliableUdpServer.cpp:308-331 | The coded step in terms of sequence numbers and single bits, in each of its four branches |
| PendingTable.DefaultLimitsAre | Source/HktCustomNet/Public/HktReliableUdpServer.h:122-125 | 200 ms between transmissions, eleven of them, and five seconds of silence |
| Delivery.PromiseKept | Source/HktCustomNet/Private/HktReliableUdpServer.cpp:220-331 | On every run of two endpoints over a network that loses, duplicates and reorders: each datagram under way or stored acknowledges only accepted packets and carries what was sent under its number, each ledger balances, and each window is exact |
| Delivery.ReceiveEffect | Source/HktCustomNet/Private/HktReliableUdpServer.cpp:160-169 | What one arrival may change: accepted grows by the packet itself, pending shrinks by what the header acknowledges, nothing else is lost |
| DeliveryTheorems.DeliverySafety | Source/HktCustomNet/Private/HktReliableUdpServer.cpp:237-262 | On every run, whatever was recorded and is no longer pending has been accepted by the peer, and its payload is in the peer's inbox; nothing is in an inbox that was not sent. Documented receiver: up to 2^32 - 1 sends a side; coded receiver: up to 2^32 - 32 |
| DeliveryTheorems.WindowsStayExact | Source/HktCustomNet/Public/HktReliableUdpHeader.h:39-42 | In every reachable state of two documented endpoints both windows are exact |
| DeliveryTheorems.LedgerKept | Source/HktCustomNet/Private/HktReliableUdpServer.cpp:226-262 | The ledger of numbers balances on every run, whichever receiver runs and however often a send is interrupted between its lock scopes |
| DeliveryTheorems.Conservation | Source/HktCustomNet/Private/HktReliableUdpServer.cpp:226-262 | The numbers 1..n handed out are the disjoint union of pending, in progress and acknowledged; each pending packet decodes to Data with its own number and payload; the next number is new |
| DeliveryTheorems.RunFlips | Source/HktCustomNet/Private/HktReliableUdpServer.cpp:220-331 | Exchanging the two endpoints in every move exchanges them in the outcome, so what is stated of one holds of the other |
| DeliveryTheorems.ConservationOfBoth | Source/HktCustomNet/Private/HktReliableUdpServer.cpp:226-262 | Conservation for both endpoints of a run |
| DeliveryTheorems.WrittenAcknowledgesNothing | Source/HktCustomNet/Private/HktReliableUdpServer.cpp:312-315 | With the coded receiver and at most 2^32 - 32 packets a side no packet is ever acknowledged |
| DeliveryTheorems.WrittenLosesAPacket | Source/HktCustomNet/Private/HktReliableUdpServer.cpp:317-322 | A run with one send more, every send finished before the next, in which a packet that never arrived is no longer resent |
| DeliveryTheorems.WrittenSafeExactlyWhen | Source/HktCustomNet/Private/HktReliableUdpServer.cpp:308-331 | Delivery safety holds on all runs of the coded receiver with at most n sends a side if and only if n <= 2^32 - 32 |
| DeliveryTheorems.OneAckClears | Source/HktCustomNet/Private/HktReliableUdpServer.cpp:516-526 | While the oldest pending packet is within 31 of the newest, the peer would accept every pending packet, and one Ack from its present state leaves exactly the packets it has not accepted |
| DeliveryTheorems.OneRoundDrains | Source/HktCustomNet/Private/HktReliableUdpServer.cpp:164-169 | Within that window one arrival of each pending packet, in any order, and one Ack leave nothing pending |
| Doom.ArrivalAndAckClearExactlyWhen | Source/HktCustomNet/Private/HktReliableUdpServer.cpp:308-331 | However far the sender has run ahead, one arrival of a pending packet and one Ack clear it if and only if the documented receiver would still accept it or its window still shows it at bit 31 |
| Doom.DoomIsForever | Source/HktCustomNet/Private/HktReliableUdpServer.cpp:282-306 | Once the window of the peer has passed a pending packet and nothing under way or stored acknowledges it, it stays pending in every continuation, whatever either side or the network does |
| Doom.DoomEndsInDrop | Source/HktCustomNet/Private/HktReliableUdpServer.cpp:348-355 | In every continuation with ticks at most d apart the connection of such a packet is gone (MaxRetries+1)*(ResendTimeout+d) after the packet was recorded |
| Doom.DeliveredYetDoomed | Source/HktCustomNet/Private/HktReliableUdpServer.cpp:237-262 | 34 sends without an Ack in between, of which the first and the last arrive: the first packet was delivered, and its connection is bound to be dropped |
| Abandonment.CountedAlways | Source/HktCustomNet/Private/HktReliableUdpServer.cpp:345-365 | On every run a pending packet was transmitted once more than its retries, and its retries are at least one timeout apart |
| Abandonment.DroppedOnlyWhenGivenUp | Source/HktCustomNet/Private/HktReliableUdpServer.cpp:348-355 | A tick drops a connection only if some pending packet was recorded more than (MaxRetries+1)*ResendTimeout ago and was transmitted exactly 1+MaxRetries times |
| Abandonment.RecentAlways | Source/HktCustomNet/Private/HktReliableUdpServer.cpp:361-362 | With ticks at most d apart a pending packet was last sent at most its retries times ResendTimeout+d after it was recorded |
| Abandonment.GoneOrAcknowledged | Source/HktCustomNet/Public/HktReliableUdpServer.h:122-125 | With no clock reading more than d after the tick before it, an event that reads the clock more than (MaxRetries+1)*(ResendTimeout+d) after a packet was recorded finds the connection gone or the packet acknowledged |
| Abandonment.UnacknowledgedForcesDrop | Source/HktCustomNet/Private/HktReliableUdpServer.cpp:348-362 | At the last tick of a run no packet still pending was past its last chance |
| Abandonment.LastChanceIsSoon | Source/HktCustomNet/Public/HktReliableUdpServer.h:122-125 | The last chance plus d is (MaxRetries+1)*(ResendTimeout+d) after the packet was recorded |
| Abandonment.WrittenDropsEveryConnection | Source/HktCustomNet/Private/HktReliableUdpServer.cpp:308-331 | With the coded receiver every connection on which a packet was recorded is gone at the first tick after the packet's last chance |
| ServerModel.GoodAlways | Source/HktCustomNet/Private/HktReliableUdpServer.cpp:426-514 | After every sequence of packets, sends, broadcasts, connects, joins, leaves, disconnects and passes: an address is in Groups[g] if and only if it is connected and g is in its GroupIds, no group is empty, and no retry count exceeds MaxRetries |
| ServerModel.DisconnectIsDrop | Source/HktCustomNet/Private/HktReliableUdpServer.cpp:426-448 | Removing a client from the groups in its own list removes it from every group |
| ServerModel.TickPostState | Source/HktCustomNet/Private/HktReliableUdpServer.cpp:334-404 | After the two passes exactly the exhausted and the silent clients are gone; every survivor was heard in time, keeps its pending packets, and has none overdue or over the retry limit |
| ServerModel.TargetsAreMembers | Source/HktCustomNet/Private/HktReliableUdpServer.cpp:268-277 | A broadcast is addressed to exactly the connected members but the excluded one, so no send reaches the unknown-client branch |
| ServerModel.BroadcastExact | Source/HktCustomNet/Private/HktReliableUdpServer.cpp:265-280 | In every reachable state a broadcast gives each target one new number and one fresh pending Data packet with the payload, and changes no other client and no group |
| ServerModel.PacketIsReceive | Source/HktCustomNet/Private/HktReliableUdpServer.cpp:120-218 | What a packet does to its sender's connection is the receive step of the delivery model |
| ServerModel.SendIsThreeSteps | Source/HktCustomNet/Private/HktReliableUdpServer.cpp:220-263 | An uninterrupted send is the allocate, transmit and record steps of the delivery model |
| ServerModel.ResendPassIsTick | Source/HktCustomNet/Private/HktReliableUdpServer.cpp:334-376 | What a resend pass does to a connection is the tick step of the delivery model |
| ServerModel.OtherClientsUntouched | Source/HktCustomNet/Private/HktReliableUdpServer.cpp:142-160 | A packet from one client, or a send to it, leaves every other connection as it was |
| ServerTheorems.JoinExact | Source/HktCustomNet/Private/HktReliableUdpServer.cpp:451-477 | In every reachable state joining adds exactly the entry of a connected client to the group table |
| ServerTheorems.LeaveExact | Source/HktCustomNet/Private/HktReliableUdpServer.cpp:479-514 | Leaving removes exactly that entry |
| ServerTheorems.DisconnectExact | Source/HktCustomNet/Private/HktReliableUdpServer.cpp:426-448 | Disconnecting removes exactly the entries of that client, in all groups, and its connection |
| ServerTheorems.JoinTakesEffectExactlyWhen | Source/HktCustomNet/Private/HktReliableUdpServer.cpp:180-199 | A datagram with type 6 from a client outside group g puts it in g if and only if exactly four bytes follow the header and they are g in two's complement, least significant first |
| ServerTheorems.LeaveTakesEffectExactlyWhen | Source/HktCustomNet/Private/HktReliableUdpServer.cpp:200-213 | A datagram with type 7 from a member of g takes it out of g if and only if exactly those four bytes follow; the empty payload the client sends changes nothing |
| ServerTheorems.ResendByTheClock | Source/HktCustomNet/Private/HktReliableUdpServer.cpp:341-366 | A resend pass drops a client if and only if a packet later than the timeout has had its retries; otherwise it sends exactly the late ones, as stored, and counts and stamps them |
| ServerTheorems.ReplyExact | Source/HktCustomNet/Private/HktReliableUdpServer.cpp:142-169 | In every reachable state a datagram is answered if and only if it is Data from a known client or Connect from an unknown one, and then by one Ack to its sender with the receive state that results |
| ServerTheorems.LastReceiveIsLastHeard | Source/HktCustomNet/Private/HktReliableUdpServer.cpp:157 | LastReceiveTime is the time of the last readable packet, or of the connection, as the history of calls tells it |
| ServerTheorems.SilentExactlyWhen | Source/HktCustomNet/Private/HktReliableUdpServer.cpp:378-404 | A timeout pass drops a client if and only if the history has nothing from it within ClientTimeoutDuration |
| ServerRefinement.ServerRefinesDelivery | Source/HktCustomNet/Private/HktReliableUdpServer.cpp:120-404 | After every run of the server, with either receive window and with what it takes from a connected client delivered by the network, that client's connection is the endpoint reached by the moves its calls stand for, counted from its Connect |
| ServerRefinement.EmittedIsUnderWay | Source/HktCustomNet/Private/HktReliableUdpServer.cpp:249-277 | What a call puts on the wire for the client is on the way to it in the delivery model |
| ReliableUdpServer.SendEmits | Source/HktCustomNet/Private/HktReliableUdpServer.cpp:249-256 | What SendTo adds to the wire is, client by client, what the refinement counts as emitted by a send |
| ServerRefinement.SendIsMoves | Source/HktCustomNet/Private/HktReliableUdpServer.cpp:220-263 | A send, also one of a broadcast, is three moves of the delivery model |
| ServerRefinement.PacketIsMoves | Source/HktCustomNet/Private/HktReliableUdpServer.cpp:156-169 | A packet from the client, group requests included, is a receive, followed for Data by the announcement of an Ack |
| ServerRefinement.ConnectIsFresh | Source/HktCustomNet/Private/HktReliableUdpServer.cpp:407-424 | A connection begins as a new endpoint that has announced itself |
| ServerRefinement.ServerDelivers | Source/HktCustomNet/Private/HktReliableUdpServer.cpp:237-262 | In every state of the server, up to 2^32 - 1 packets a side with the documented receive window and 2^32 - 32 as coded, what a connection has sent and no longer waits for was accepted by its client and is in its inbox |
| ServerRefinement.ServerLearnsExactlyWhen | Source/HktCustomNet/Private/HktReliableUdpServer.cpp:282-306 | With the documented window, when a stored packet reaches the client and its Ack comes back, the packet is off the pending table if and only if it was in reach of the client's window |
| ServerRefinement.RoundTripComes | Source/HktCustomNet/Private/HktReliableUdpServer.cpp:160-169 | Such a round trip is a possible continuation of every run in which the packet is under way |
| ServerRefinement.ClientMayJoin | Source/HktCustomNet/Private/HktReliableUdpServer.cpp:180-199 | In every run a connected client may ask to join the group that four bytes stand for; if the request arrives it is in that group |
| ServerRefinement.ServerForgetsNothing | Source/HktCustomNet/Private/HktReliableUdpServer.cpp:312-315 | As coded, up to 2^32 - 32 packets a side, a connection waits for exactly all it has ever sent |
| ServerRefinement.ServerConserves | Source/HktCustomNet/Private/HktReliableUdpServer.cpp:226-262 | The numbers a connection has handed out are pending or acknowledged, never both, and a pending packet is Data with its own number |
| ServerRefinement.ServerDropsOnlyWhenGivenUp | Source/HktCustomNet/Private/HktReliableUdpServer.cpp:334-376 | A resend pass drops a client only if one of its packets had all its chances |
| ServerRefinement.ServerGoneOrAcknowledged | Source/HktCustomNet/Public/HktReliableUdpServer.h:122-125 | A reading of the clock for a client after the bound finds the client gone or the packet acknowledged |
| ReliableUdpServer.BroadcastEmits | Source/HktCustomNet/Private/HktReliableUdpServer.cpp:265-280 | What BroadcastToGroup adds to the wire is, client by client, what the refinement counts as emitted by a broadcast |
| ReliableUdpServer.ConnectEmits | Source/HktCustomNet/Private/HktReliableUdpServer.cpp:418-422 | The same for a new connection |
| ReliableUdpServer.ResendsEmit | Source/HktCustomNet/Private/HktReliableUdpServer.cpp:341-366 | The same for a resend pass and every client that survives it: exactly its overdue packets |
| ReliableUdpServer.ReliableUdpServer.constructor | Source/HktCustomNet/Public/HktReliableUdpServer.h:108-125 | A new server has no clients, no groups and has sent nothing |
| ReliableUdpServer.ClientConnection.constructor | Source/HktCustomNet/Private/HktReliableUdpServer.cpp:413-416 | A new connection has sent and received nothing and was heard now |
| ReliableUdpServer.ReliableUdpServer.ProcessAck | Source/HktCustomNet/Private/HktReliableUdpServer.cpp:282-306 | The 32-step loop removes exactly what the header acknowledges, with wrap-around below zero, and leaves the rest unchanged |
| ReliableUdpServer.ReliableUdpServer.UpdateReceivedState | Source/HktCustomNet/Private/HktReliableUdpServer.cpp:308-331 | The in-place update is the coded step and touches nothing else of the connection |
| ReliableUdpServer.ReliableUdpServer.SendAck | Source/HktCustomNet/Private/HktReliableUdpServer.cpp:516-528 | One Ack goes to the client's address: a 1, the number 0 and the receive state, byte by byte |
| ReliableUdpServer.ReliableUdpServer.SendTo | Source/HktCustomNet/Private/HktReliableUdpServer.cpp:220-263 | A known client gets exactly one Data packet, byte by byte a 0, the next number, the receive state and the payload, stored for resending; an unknown one or a closed socket changes nothing |
| ReliableUdpServer.ReliableUdpServer.BroadcastToGroup | Source/HktCustomNet/Private/HktReliableUdpServer.cpp:265-280 | The loop over the members sends to each target once, in any order and with a clock reading of its own, and to nobody else |
| ReliableUdpServer.ReliableUdpServer.HandleNewConnection | Source/HktCustomNet/Private/HktReliableUdpServer.cpp:407-424 | An unknown address gets a connection and one Ack; a known one is left alone |
| ReliableUdpServer.ReliableUdpServer.AddConnection | Source/HktCustomNet/Private/HktReliableUdpServer.cpp:411-418 | The new connection is entered under its address and the tables still mirror each other |
| ReliableUdpServer.ReliableUdpServer.DisconnectClient | Source/HktCustomNet/Private/HktReliableUdpServer.cpp:426-448 | The connection goes, and with it every group entry; a group left empty goes too |
| ReliableUdpServer.ReliableUdpServer.RemoveFromGroups | Source/HktCustomNet/Private/HktReliableUdpServer.cpp:434-446 | The loop over the client's own list removes it from those groups and drops the groups left empty, in any order |
| ReliableUdpServer.ReliableUdpServer.RemoveMember | Source/HktCustomNet/Private/HktReliableUdpServer.cpp:496-508 | One group loses one member and goes if it is left empty |
| ReliableUdpServer.ReliableUdpServer.AddMember | Source/HktCustomNet/Private/HktReliableUdpServer.cpp:468-469 | One group gains one member, and is made if there was none |
| ReliableUdpServer.ReliableUdpServer.JoinGroup | Source/HktCustomNet/Private/HktReliableUdpServer.cpp:451-477 | Both tables are updated, or neither |
| ReliableUdpServer.ReliableUdpServer.LeaveGroup | Source/HktCustomNet/Private/HktReliableUdpServer.cpp:479-514 | Both tables are updated, or neither, and an empty group goes |
| ReliableUdpServer.ReliableUdpServer.ResendOverdue | Source/HktCustomNet/Private/HktReliableUdpServer.cpp:345-365 | The inner loop reports exhaustion exactly when some overdue packet has no retry left; it resends each packet at most once, only overdue ones, and all of them if it is not cut short |
| ReliableUdpServer.ReliableUdpServer.ResendAll | Source/HktCustomNet/Private/HktReliableUdpServer.cpp:341-366 | The outer loop lists exactly the exhausted clients and refreshes every other client's table |
| ReliableUdpServer.ReliableUdpServer.ResendNext | Source/HktCustomNet/Private/HktReliableUdpServer.cpp:341-366 | One visit of the outer loop keeps the account of what was visited, listed and resent |
| ReliableUdpServer.ReliableUdpServer.CheckForResends | Source/HktCustomNet/Private/HktReliableUdpServer.cpp:334-376 | Exhausted clients are dropped; every other client's due packets go out again once, with their stored bytes. Besides them only due packets of a client found exhausted later in the same pass may go out, once each |
| ReliableUdpServer.ReliableUdpServer.DisconnectAll | Source/HktCustomNet/Private/HktReliableUdpServer.cpp:368-375 | Disconnecting a list one by one, repetitions included, drops exactly the clients in it |
| ReliableUdpServer.ReliableUdpServer.CheckForTimeouts | Source/HktCustomNet/Private/HktReliableUdpServer.cpp:378-404 | The two loops drop exactly the silent clients |
| ReliableUdpServer.ReliableUdpServer.FindSilent | Source/HktCustomNet/Private/HktReliableUdpServer.cpp:383-397 | The loop lists exactly the clients not heard from in time, in any order |
| ReliableUdpServer.ReliableUdpServer.HandleReceived | Source/HktCustomNet/Private/HktReliableUdpServer.cpp:124-217 | One datagram is handled as its length, its sender and its type call for, and answered by an Ack exactly for a new connection and for Data |
| ReliableUdpServer.ReliableUdpServer.Hear | Source/HktCustomNet/Private/HktReliableUdpServer.cpp:156-160 | The clock and the acknowledgement are taken from any packet of a known client |
| ReliableUdpServer.ReliableUdpServer.Obey | Source/HktCustomNet/Private/HktReliableUdpServer.cpp:162-216 | The switch on the packet type changes what that type may change, a group request the group its four bytes stand for, and only Data is answered |
| ReliableUdpServer.FrontFirst | Source/HktCustomNet/Private/HktReliableUdpServer.cpp:120-125 | The queue is handled from its front: what comes first is handled, and answered, before the rest |
| ReliableUdpServer.ReliableUdpServer.ProcessReceivedPackets | Source/HktCustomNet/Private/HktReliableUdpServer.cpp:120-218 | Draining the queue handles every datagram in order, and sends exactly their answers |
| ReliableUdpServer.ReliableUdpServer.Tick | Source/HktCustomNet/Private/HktReliableUdpServer.cpp:50-59 | A tick is the receive loop, the resend pass and the timeout pass, in that order, in state and on the wire |
| Wire.VarintSizeAgrees | Tools/generated/hkt.pb.cc:756-803 | The computed size of a varint is the length of its encoding, for all 64-bit values |
| Wire.Varint64RoundTrip | Tools/generated/hkt.pb.cc:697-753 | A 64-bit varint is read back whatever follows it |
| MessageBytes.NumberIsWritten | Tools/generated/hkt.pb.cc:703-726 | A 64-bit value is written as at most ten bytes, the high bit set on all but the last, whose low seven bits add up base 128 to its two's complement, and is read back |
| MessageBytes.IntIsWritten | Tools/generated/hkt.pb.cc:728-734 | The same for a 32-bit value, which is sign-extended to 64 bits |
| MessageBytes.PacketIsWritten | Tools/generated/hkt.pb.cc:697-753 | A packet is its nonzero fields in order: tag 8, 16, 24 and a base-128 number each, tag 34, length and payload |
| MessageBytes.ShownIsWritten | Tools/generated/hkt.pb.cc:697-753 | A packet object, has-bits included, writes just the fields whose bits are set, and parsing gives just those |
| MessageBytes.SyncRequestIsWritten | Tools/generated/hkt.pb.cc:380-419 | A sync request is tags 8 and 16 with a base-128 number each, absent when zero |
| MessageBytes.RequestIsWritten | Tools/generated/hkt.pb.cc:1045-1083 | A request is tag 8 with the group, absent when zero, and tag 18, length and packet, absent when there is none |
| MessageBytes.ResponseIsWritten | Tools/generated/hkt.pb.cc:1333-1362 | A response is tag 10, length and packet, or nothing |
| MessageBytes.PacketIsRead | Tools/generated/hkt.pb.cc:624-675 | Whatever bytes are a packet in that layout, with shortest numbers or not, parse to it, and into another packet merge it |
| MessageBytes.SyncRequestIsRead | Tools/generated/hkt.pb.cc:322-361 | The same for a sync request |
| MessageBytes.RequestIsRead | Tools/generated/hkt.pb.cc:985-1026 | The same for a request |
| MessageBytes.ResponseIsRead | Tools/generated/hkt.pb.cc:1280-1315 | The same for a response |
| MessageBytes.RecordsExactly | Tools/generated/hkt.pb.cc:624-675 | A string of bytes parses to a list of records if and only if it is that list laid end to end: per record a tag and a number, or a tag, a length and so many bytes, each a base-128 number of at most ten bytes taken modulo 2^64 |
| MessageBytes.LaterPacketWins | Tools/generated/hkt.pb.cc:805-842 | Two packets laid end to end parse to a packet whose every field is the later one, unless that is zero or empty |
| MessageBytes.LaterSyncRequestWins | Tools/generated/hkt.pb.cc:457-480 | The same for sync requests |
| MessageBytes.LaterRequestWins | Tools/generated/hkt.pb.cc:1119-1146 | The same for requests; a later submessage is laid over the earlier one field by field, and an absent one changes nothing |
| MessageBytes.LaterResponseWins | Tools/generated/hkt.pb.cc:1390-1410 | The same for responses |
| Wire.RecordsOfConcatenation | Tools/generated/hkt.pb.cc:624-675 | The records of a concatenation are the records of its parts, in order |
| Messages.PacketMerges | Tools/generated/hkt.pb.cc:805-842 | Parsing the encoding of one packet into another merges it, for all field values |
| Messages.RequestMerges | Tools/generated/hkt.pb.cc:1119-1146 | The same for a request with its nested packet |
| Messages.SyncRequestMerges | Tools/generated/hkt.pb.cc:457-480 | The same for a sync request |
| Messages.ResponseMerges | Tools/generated/hkt.pb.cc:1390-1410 | The same for a response with its nested packet |
| Messages.SyncRequestLaws | Tools/generated/hkt.pb.cc:380-419 | Parsing undoes serializing, and parsing two encodings one after the other gives the merge |
| Messages.PacketLaws | Tools/generated/hkt.pb.cc:697-753 | Parsing undoes serializing, and parsing two encodings one after the other gives the merge |
| Messages.RequestLaws | Tools/generated/hkt.pb.cc:1045-1083 | Parsing undoes serializing, and parsing two encodings one after the other gives the merge |
| Messages.ResponseLaws | Tools/generated/hkt.pb.cc:1333-1362 | Parsing undoes serializing, and parsing two encodings one after the other gives the merge |
| Messages.ConcatenationMerges | Tools/generated/hkt.pb.cc:624-675 | For every kind of message: if parsing an encoding merges, parsing any number of encodings laid end to end merges them in order |
| Messages.PacketsMergeAll | Tools/generated/hkt.pb.cc:697-753 | Any number of concatenated packets parse to their merge in order |
| Messages.RequestsMergeAll | Tools/generated/hkt.pb.cc:1045-1083 | Any number of concatenated requests parse to their merge in order |
| Messages.SyncRequestsMergeAll | Tools/generated/hkt.pb.cc:380-419 | Any number of concatenated sync requests parse to their merge in order |
| Messages.ResponsesMergeAll | Tools/generated/hkt.pb.cc:1333-1362 | Any number of concatenated responses parse to their merge in order |
| Messages.PacketMergeAssociates | Tools/generated/hkt.pb.cc:805-842 | Merging packets is associative, and the encoding tells packets apart |
| Messages.SyncRequestMergeAssociates | Tools/generated/hkt.pb.cc:457-480 | The same for sync requests |
| Messages.ResponseMergeAssociates | Tools/generated/hkt.pb.cc:1390-1410 | The same for responses |
| Messages.RequestMergeAssociates | Tools/generated/hkt.pb.cc:1119-1146 | Merging requests is associative, and the encoding tells requests apart |
| MessageState.PacketFollowsModel | Tools/generated/hkt.pb.h:992-1127 | After every sequence of calls on a packet a value that is not the default has its has-bit set, and the fields are what the calls do to a plain record |
| MessageState.RequestFollowsModel | Tools/generated/hkt.pb.h:1133-1253 | After every sequence of set, clear, mutable, release, set-allocated, merge, copy and Clear calls a packet pointer whose has-bit is off holds a fully cleared packet, and the request shows what the calls do to an optional packet |
| MessageState.ClearIsComplete | Tools/generated/hkt.pb.cc:676-694 | Clear, which skips what its has-bits call unset, leaves nothing behind |
| MessageState.RequestMergeIsMerge | Tools/generated/hkt.pb.cc:1119-1146 | Merging into a request that keeps a cleared submessage shows the merge of the values |
| MessageState.CopyShowsSource | Tools/generated/hkt.pb.cc:1148-1153 | CopyFrom shows exactly the source, whatever submessage was kept for reuse |
| MessageState.CleanRequestWrites | Tools/generated/hkt.pb.cc:1045-1083 | With the cached size right, what is written is the encoding of what the request shows |
| MessageObjects.PacketMessage.Clear | Tools/generated/hkt.pb.cc:676-694 | No bit is left set, and an object whose bits cover its fields is left empty |
| MessageObjects.PacketMessage.MergeFrom | Tools/generated/hkt.pb.cc:805-842 | Every field is the source's, where its bit is set and it is not zero, and the has-bits are united |
| MessageObjects.PacketMessage.CopyFrom | Tools/generated/hkt.pb.cc:844-849 | Self-copy changes nothing; otherwise clear, then merge |
| MessageObjects.PacketMessage.ReleasePayload | Tools/generated/hkt.pb.h:1103-1114 | The payload is handed out if and only if it was present, and then cleared |
| MessageObjects.PacketMessage.ByteSizeLong | Tools/generated/hkt.pb.cc:756-803 | The sum it returns and caches is the length of what the serializer writes |
| MessageObjects.PacketMessage.InternalSerialize | Tools/generated/hkt.pb.cc:697-753 | Appends, byte by byte, the fields whose bits are set and that are not zero, in order and with their tags |
| MessageObjects.PacketMessage.Serialize | Tools/generated/hkt.pb.cc:697-803 | The bytes are as many as the cached size says, in that layout, and parse to what the object shows |
| MessageObjects.RequestMessage.MutablePacket | Tools/generated/hkt.pb.h:1219-1233 | The packet is present afterwards and is the kept object, or a new empty one |
| MessageObjects.RequestMessage.ClearPacket | Tools/generated/hkt.pb.h:1163-1167 | The submessage is cleared and kept |
| MessageObjects.RequestMessage.ReleasePacket | Tools/generated/hkt.pb.h:1191-1209 | The pointer is handed out and the request no longer has it |
| MessageObjects.RequestMessage.SetAllocatedPacket | Tools/generated/hkt.pb.h:1234-1253 | The given object is owned, and present unless null |
| MessageObjects.RequestMessage.Clear | Tools/generated/hkt.pb.cc:1027-1042 | A present submessage is cleared and kept, and nothing is left set |
| MessageObjects.RequestMessage.MergeFrom | Tools/generated/hkt.pb.cc:1119-1146 | The object after MergeImpl: the submessage is merged into the kept one or copied, and the source is unchanged |
| MessageObjects.RequestMessage.CopyFrom | Tools/generated/hkt.pb.cc:1148-1153 | Afterwards the object shows exactly what the source showed |
| MessageObjects.RequestMessage.ByteSizeLong | Tools/generated/hkt.pb.cc:1086-1117 | The size is that of the encoding, and the submessage's cached size is the length of the nested encoding |
| MessageObjects.RequestMessage.InternalSerialize | Tools/generated/hkt.pb.cc:1045-1083 | Appends the fields, with the cached size as the length prefix |
| MessageObjects.RequestMessage.Serialize | Tools/generated/hkt.pb.cc:1045-1117 | Sizes first and then writing gives bytes that parse to what the request shows |
| SyncMessageObjects.SyncRequestMessage.Clear | Tools/generated/hkt.pb.cc:362-377 | Nothing is left set |
| SyncMessageObjects.SyncRequestMessage.MergeFrom | Tools/generated/hkt.pb.cc:457-480 | The object shows the merge of the two values |
| SyncMessageObjects.SyncRequestMessage.CopyFrom | Tools/generated/hkt.pb.cc:482-487 | The object shows what the source showed |
| SyncMessageObjects.SyncRequestMessage.ByteSizeLong | Tools/generated/hkt.pb.cc:425-455 | The size it returns and caches is the length of the encoding |
| SyncMessageObjects.SyncRequestMessage.InternalSerialize | Tools/generated/hkt.pb.cc:380-419 | Appends exactly the encoding |
| SyncMessageObjects.SyncResponseMessage.Clear | Tools/generated/hkt.pb.cc:1316-1330 | A present submessage is cleared and kept, and nothing is shown |
| SyncMessageObjects.SyncResponseMessage.MergeFrom | Tools/generated/hkt.pb.cc:1390-1410 | The object shows the merge of the two values, whatever cleared submessage it kept, and the source is unchanged |
| SyncMessageObjects.SyncResponseMessage.CopyFrom | Tools/generated/hkt.pb.cc:1412-1417 | The object shows what the source showed |
| SyncMessageObjects.SyncResponseMessage.ByteSizeLong | Tools/generated/hkt.pb.cc:1365-1388 | The size is that of the encoding, and the submessage's cached size is the length of the nested encoding |
| SyncMessageObjects.SyncResponseMessage.InternalSerialize | Tools/generated/hkt.pb.cc:1333-1362 | With the sizes computed, appends exactly the encoding |
| SyncMessageObjects.SyncResponseMessage.Serialize | Tools/generated/hkt.pb.cc:1333-1388 | Sizes first and then writing gives bytes that parse to what the response shows |
| StreamSessions.SoundAlways | Source/HktGrpc/Public/HktRpcService.h:212-345 | All the invariants of sessions, queues, operations, groups and broadcasts hold after every interleaving of creations, completions and the single writes of broadcasts |
| StreamSessions.ProceedKeeps | Source/HktGrpc/Public/HktRpcService.h:273-330 | Carrying out an operation taken off the queue keeps them and uses no deleted session and no empty queue; one that failed, a connect or a write, deletes its session |
| StreamSessionTheorems.DeliveredInOrder | Source/HktGrpc/Public/HktRpcService.h:247-259 | What was submitted to a session is what was delivered followed by its queue; after deletion what was delivered is a prefix of it |
| StreamSessionTheorems.OneWriteInFlight | Source/HktGrpc/Public/HktRpcService.h:312-330 | bIsWriting holds if and only if the queue is not empty, and exactly then a write is outstanding, of the front of the queue |
| StreamSessionTheorems.OneOperationEach | Source/HktGrpc/Public/HktRpcService.h:273-309 | A session has at most one operation outstanding, connect or write, and no operation refers to a deleted session |
| StreamSessionTheorems.DestroyedOnce | Source/HktGrpc/Public/HktRpcService.h:277-289 | No session is deleted twice |
| StreamSessionTheorems.BroadcastReachesEachOnce | Source/HktGrpc/Public/HktRpcService.h:51-67 | A session has received a response that holds the broadcast's packet once if it was in the snapshot and its turn has come, and otherwise not at all |
| StreamSessionTheorems.BroadcastExact | Source/HktGrpc/Public/HktRpcService.h:101-117 | Uninterrupted, every live session of the group queues a response with the packet once and no other changes, unless the group is -1 and a session that connected with -1 is gone; exactly then a deleted session is used |
| StreamSessionTheorems.ListedExactlyWhen | Source/HktGrpc/Public/HktRpcService.h:226-244 | A session is registered under g if and only if it lives and connected with g, or g is -1 and it connected with -1 and is gone |
| StreamSessionTheorems.UndefinedExactlyWhen | Source/HktGrpc/Public/HktRpcService.h:63-66 | A run is undefined if and only if some broadcast writes to a session deleted after the snapshot or left behind under -1; completions and pops never are |
| StreamSessionTheorems.CarefulRunsAreDefined | Source/HktGrpc/Public/HktRpcService.h:277-289 | If no session is deleted while a snapshot waits for it and none that connected with -1 is deleted, no run is undefined and everything reachable is alive |
| StreamSessionTheorems.Drains | Source/HktGrpc/Public/HktRpcService.h:312-330 | As many successful completions as messages are queued deliver everything submitted and leave the session idle |
| StreamSessionTheorems.OrphanOfOneClient | Source/HktGrpc/Public/HktRpcService.h:229 | A run of one client after which its deleted session is still registered under -1 |
| StreamSessionTheorems.GroupMinusOneIsUnsafe | Source/HktGrpc/Public/HktRpcService.h:226-244 | The next broadcast to -1 then uses it, with nothing overlapping |
| StreamSessionEvents.CreateMakesAHandler | Source/HktGrpc/Public/HktRpcService.h:217-224 | After every run, creating a handler gives it a new number, puts it in no group and makes it wait for a client; nothing else changes |
| StreamSessionEvents.FailedCompletionDeletes | Source/HktGrpc/Public/HktRpcService.h:277-289 | After every run, a completion that failed, of a connect as of a write, deletes the session of the operation, takes it out of its group unless that is -1, and changes no other session, queue or operation |
| StreamSessionEvents.ConnectJoinsTheGroup | Source/HktGrpc/Public/HktRpcService.h:300-308 | After every run, a connect that came back well puts its session in the group asked for and in no other, and makes one handler for the next client |
| StreamSessionEvents.WriteTakesTheFront | Source/HktGrpc/Public/HktRpcService.h:316-329 | After every run, a write that came back well delivers the front of its queue and starts the next message, or ends the writing |
| StreamSessionEvents.BeginTakesASnapshot | Source/HktGrpc/Public/HktRpcService.h:51-61 | After every run, a broadcast begins with its packet and exactly the members of its group |
| StreamSessionEvents.WriteQueuesThePacket | Source/HktGrpc/Public/HktRpcService.h:247-259 | After every run, a broadcast's turn at a live session queues one response with the packet at the end, and starts it if and only if the queue was empty |
| StreamSessionEvents.BroadcastCarriesItsPacket | Source/HktGrpc/Public/HktRpcTraits.h:45-50 | On every run, every message a session was handed by a broadcast holds the packet the broadcast was begun with |
| StreamSessionEvents.ResponseCarriesThePacket | Source/HktGrpc/Public/HktRpcTraits.h:45-50 | The bytes of such a response parse to a response with that packet |
| StreamHandlers.StreamSession.Write | Source/HktGrpc/Public/HktRpcService.h:247-259 | A response that holds the packet is queued, and handed to the writer if and only if nothing was being written |
| StreamHandlers.StreamSession.WriteCompleted | Source/HktGrpc/Public/HktRpcService.h:316-329 | The front leaves; the next message is handed over, or the flag drops |
| StreamHandlers.StreamSession.ConnectCompleted | Source/HktGrpc/Public/HktRpcService.h:300-308 | The session takes the requested group and is found there |
| StreamHandlers.StreamSession.Dispose | Source/HktGrpc/Public/HktRpcService.h:226-244 | The session is unregistered, except under -1 |
| StreamHandlers.Group.AddSession | Source/HktGrpc/Public/HktRpcService.h:36-43 | A session is entered under its own number; null changes nothing |
| StreamHandlers.Group.RemoveSession | Source/HktGrpc/Public/HktRpcService.h:45-49 | Exactly that number is removed |
| StreamHandlers.Group.Broadcast | Source/HktGrpc/Public/HktRpcService.h:51-67 | The loop over the snapshot queues a response with the packet once for every member and starts exactly the writes of the idle ones |
| StreamHandlers.SessionManager.GetOrCreateGroup | Source/HktGrpc/Public/HktRpcService.h:121-132 | The group that exists, or a new empty one |
| StreamHandlers.SessionManager.RegisterSession | Source/HktGrpc/Public/HktRpcService.h:85-91 | Only that group gains only that session |
| StreamHandlers.SessionManager.UnregisterSession | Source/HktGrpc/Public/HktRpcService.h:93-99 | Only that group loses only that session |
| StreamHandlers.SessionManager.BroadcastToGroup | Source/HktGrpc/Public/HktRpcService.h:101-117 | Whoever is registered under the group gets a response with the packet once and nobody else is touched |
| Graph.NoDanglingOnEveryRun | Source/HktBase/Private/HktGraph.cpp:35-106 | Whatever is added under new ids, removed or forgotten, every listed reference is to an owned behavior with that subject and tag, and no list names one twice |
| Graph.IndexAgreement | Source/HktBase/Private/HktGraph.cpp:35-106 | If every behavior has a tag and no subject is removed as a whole, the graph finds exactly what the history leaves, and lists a behavior under a subject and tag, once, if and only if the history leaves it with them |
| Graph.FindIsLatest | Source/HktBase/Private/HktGraph.cpp:55-64 | On such runs an id is found with the last behavior added under it and not removed since, and otherwise not |
| Graph.AddKeeps | Source/HktBase/Private/HktGraph.cpp:35-53 | Adding under a new id keeps the index sound, and complete if it was |
| Graph.AddExact | Source/HktBase/Private/HktGraph.cpp:35-53 | In every state the lists of the behavior's subject and tags gain it at the end, unless they have it, and no other list changes |
| Graph.RemoveExact | Source/HktBase/Private/HktGraph.cpp:77-101 | In every state: no node, nothing changes; a node under one of the tags, the lists of the tags lose the behavior and keep their order; a node under none of them, the whole subject goes |
| Graph.ReusedIdDanglesExactlyWhen | Source/HktBase/Private/HktGraph.cpp:51 | In every state without dangling references, adding a new object under an id in use leaves one if and only if the behavior it replaces is listed anywhere |
| Graph.ReusedIdInCompleteIndex | Source/HktBase/Private/HktGraph.cpp:51 | Where the index is complete, that is if and only if the replaced behavior is tagged |
| Graph.ReuseLeavesADeadReference | Source/HktBase/Private/HktGraph.cpp:39-51 | Adding a tagged behavior and then another under its id leaves the first listed though it is destroyed |
| Graph.ReuseAfterRemoveSubject | Source/HktBase/Private/HktGraph.cpp:103-106 | After its subject was removed a tagged behavior may be replaced and nothing dangles |
| Graph.UntaggedRemovalForgets | Source/HktBase/Private/HktGraph.cpp:79-98 | Add an untagged and a tagged behavior to one subject and remove the first: the run is legal, the tagged one is owned but listed nowhere, and removing it has no effect |
| Graph.RemoveKeepsSound | Source/HktBase/Private/HktGraph.cpp:66-101 | Removing leaves no reference to what was removed |
| Graph.RemoveKeepsCompleteExactlyWhen | Source/HktBase/Private/HktGraph.cpp:95-98 | Removing keeps the index complete if and only if the removed behavior is tagged or alone in its subject |
| Graph.RemoveSubjectKeeps | Source/HktBase/Private/HktGraph.cpp:103-106 | Removing a subject keeps the index sound, removes no behavior, and keeps it complete if and only if no behavior has that subject |
| Graph.RemovedIsGoneExactlyWhen | Source/HktBase/Private/HktGraph.cpp:79-81 | A removed id is no longer found if and only if it was absent or its subject still has a node; otherwise nothing changes |
| Graph.StrandedUntilItsSubjectReturns | Source/HktBase/Private/HktGraph.cpp:77-106 | A behavior whose subject has no node is still found after every sequence of calls that adds nothing to that subject and nothing under its id |
| Graph.BehaviorGraph.AddBehavior | Source/HktBase/Private/HktGraph.cpp:35-53 | The loop over the tags lists the behavior under each, once, before it is owned |
| Graph.BehaviorGraph.FindBehavior | Source/HktBase/Private/HktGraph.cpp:55-64 | The owned behavior under the id, or none |
| Graph.BehaviorGraph.RemoveBehaviorById | Source/HktBase/Private/HktGraph.cpp:66-75 | An unknown id changes nothing; a known one is removed |
| Graph.BehaviorGraph.RemoveBehavior | Source/HktBase/Private/HktGraph.cpp:77-101 | The loop over the tags, the flag it raises and the three ways it ends |
| Graph.BehaviorGraph.RemoveSubject | Source/HktBase/Private/HktGraph.cpp:103-106 | The node of the subject goes, and nothing else |

## Left out

- Sockets, the receiver thread, locks as objects and logging: the receive queue is a sequence and the network a set of datagrams; a locked region is one step.
- Null addresses, and a closed listen socket outside SendTo and BroadcastToGroup, where the code does not check for it either.
- Reuse of an address by a new connection while datagrams of the old one are under way: the protocol has nothing to tell them apart.
- Wrap-around of sequence numbers after 2^32 sends in the run theorems; the methods themselves wrap.
- Handshake liveness: a repeated Connect from a known client gets no answer and the client's connected flag is not modelled.
- Delivery to game logic: the server drops payloads (Source/HktCustomNet/Private/HktReliableUdpServer.cpp:171); the inbox of an endpoint is the client's queue, which keeps duplicates.
- FHktReliableUdpClient as an object: its acknowledgement, receive and resend code repeats the server's and is the other endpoint of the delivery model.
- Rounding of the float time constants.
- ServerRefinement.ServerRefinesDelivery: takes each call of the server as one step; sends interrupted between their lock scopes are runs of `Delivery`. A connected client sends what FHktReliableUdpClient::SendPacket builds: Data with its number, or any other kind with number 0 and any payload; forged datagrams are in `ServerModel` only.
- mutable_payload and set_allocated_payload as methods of the packet object; in the call sequences of `MessageState` they are SetPayload or ClearPayload.
- A caller that keeps the pointer from mutable_packet and changes the packet after it was cleared.
- Unknown fields, arenas, descriptors, reflection, swap, and messages of 2^31 bytes or more; a record that no parse-table row knows is rejected here.
- Messages.PacketLaws: parsing is a fold over records, not the table-driven fast path of the library, which is not part of this model.
- The completion queue's own order and the per-core queues: any outstanding operation may complete next.
- Data races inside one step of the stream sessions; the snapshot of a broadcast is taken under the lock and used after it, and that interleaving is modelled.
- The number a behavior request is given by the server (Source/HktGrpc/Public/HktRpcService.h:183-184), a plain static shared by threads, and the unary call handler.
- Graph.BehaviorGraph.RemoveBehavior: takes a behavior by value and its address; removing by reference an object the graph does not own is not in the run theorems.
- FSubjectNode::Behaviors, which nothing uses; case-insensitive comparison of FName tags; InvalidHktId has no special meaning to the graph.
- Remote-procedure proxies, ENet groups, the event bus, the behavior factory, serializers of flagments, build files and vendored headers.
