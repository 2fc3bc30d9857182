# GameTunnel in Dafny

GameTunnel joins players into a virtual LAN: clients register with a relay server, get a virtual IP
in a room's /24, and exchange IP packets through the server or, once a direct path is confirmed,
with each other. This project models the parts of it that keep state or do arithmetic that must not
go wrong, and proves what they keep over every input and every run.

`dafny verify dfyconfig.toml` checks all of it.

## How the model is built

* **The room.** `RoomModel` is the room as a state machine over values: client objects by identity
  (an id and its record, as the server's maps hold pointers), the client table, the address map, the
  set of used octets, the pending counter and the per-IP counts. Each handler is one step; the stale
  sweep is two, its scan and its recheck, with any other steps between them. Clocks, random tokens
  and challenges, map iteration order (`pick`) and the registration rate limiter (`rateOk`) are
  parameters of the events. A run is timely when its clock does not go back and each recheck comes at
  most 30 s after its scan. `RoomServer.Room` is the same room as a class that changes its maps,
  counters and 256-bit bitmap in place with the source's loops; every method is proved to perform
  exactly the model's step, so the theorems about runs hold of it.
  `RoomInvariant`, `RoomHistory`, `RoomAdmission`, `RoomAccounting`, `RoomDrift`, `RoomPersist`,
  `RoomReservation` and `RoomTheorems` hold those theorems. `RoomEffects`, `RoomOutcomes`, `RoomSweeps`,
  `RoomMoves` and `RoomSeats` say what each packet and sweep does, and what may move or unseat a member,
  on bytes, maps and times alone, without the handlers' own guards.
* **Several rooms.** `Subnets` and `MultiRoom`: /24 allocation, room creation and removal, and the
  search across rooms.
* **The data path.** `Protocol`, `DataFormat`, `DataPath`, `PayloadPool`, `EndToEnd`: codecs, packet
  builders over stale pooled buffers, the pooled decoder, and the path of a packet from one member to
  another. `WireLayout` says at which byte each field stands. `Broadcast` is the header rewriting at its end, `ReplayWindow` the cipher's window and counter.
* **Around it.** `SendQueue`, `SendPriority` and `SendServer` (the server's priority queue, one pass, a
  whole channel, and the running class), `PeerList` and `AddressText` (the peer
  list on the wire), `PeerTable` (when a client may bypass the server), `RateLimit` (token buckets).
* `Base`, `Arithmetic`, `Buffers`, `ListCodec`, `LittleEndian`, `Word64` and `IpBitmap` are shared helpers. bv64
  operations are wrapped in named functions in `Word64`, so that proofs about sets of bits do not
  reason about bit-vectors.

HMAC, CRC32 and the AEAD are arbitrary functions. Of the AEAD only this is used: opening a sealed
text under its nonce returns it, and sealing adds 16 bytes.

## Where a stated property is not what the code does

* A sweep whose two phases are more than 30 s apart can leave an address entry of a removed client:
  `RoomTheorems.GapSafeIffWithinWindow`, on a state that rooms without a password reach
  (`RoomTheorems.MovedAfterScanIsReachable`).
* The counters drift on some steps. `RoomAccounting.StepExact` says on exactly which ones (`Drifts`): an
  exhausted pool, a late full or duplicate refusal, an answer from another address that is mapped or
  has another IP, an answer from a mapped address with nothing pending for it while others are
  pending, and a change of address other than to a free port of the same IP or, for a restored client,
  onto a member's entry. `RoomAccounting.StepBalanced` adds the steps after which a member is left
  without its entry (`Leaky`), so that a later departure drifts. Drifting steps are reached from an
  empty room: `RoomDrift.RoamingDrifts`, `RoomDrift.LateRefusalDrifts`.
* internal/server/persist.go:24-26 speaks of holding a restored seat for 60 s. The seat is a client like
  any other: `RoomReservation.WaitsIffUndisturbed` says exactly which steps end it, among them a sweep that
  finds it unseen for more than 30 s (`RoomReservation.StaleReservationSwept`) and a packet that claims
  its IP from an unmapped address. In a passworded room its name gets it back without a challenge
  (`RoomPersist.PlaceholderReturns`).
* internal/server/sendqueue.go:33 says high-priority packets always leave before low ones. Within a pass
  more than 64 lows overtake batched highs (`SendQueue.HighsLeaveFirst`), and 64 lows in front keep a high
  for the next pass (`SendPriority.LowsBeforeHigh`). `SendPriority.HighsLeaveFirstIff` says for which channel
  contents all highs leave first.
* internal/crypto/crypto.go:64 says counters too far ahead are refused; the code accepts any higher
  counter. All senders of a room share one receiving window, so a sender whose counter is 64 or more
  behind another's stays refused (`ReplayWindow.StragglersStayRefused`); `ReplayWindow.FullyAdmitted` says exactly
  which deliveries are admitted in full.
* A peer whose address is dropped to nil and then given anew keeps its confirmation:
  `PeerTable.NilThenOtherIsUnheard`; `PeerTable.StepSafe` says exactly which lists do this.
* A peer list read without its checksum takes the checksum for NAT types, unless types were sent:
  `PeerList.UncheckedRoundTrip`.
* The client's limiter does not keep the window bound from every moment on: `RateLimit.WindowBoundedIff`
  says exactly when it does; `RateLimit.SentInWindow` and `RateLimit.TwiceTheBurstAtOnce` bound and show the rest.
* A header length below 12 leaves the IPv4 checksum unrepaired (`Broadcast.HeaderSumIff`); one beyond the
  packet sums stale bytes of the buffer, and the result is then not determined by packet and subnet
  (`Broadcast.DeterminedIff`).
* internal/server/keepalive_server.go:142 speaks of 60 s for rebinding without a password; the code
  and the model use 30 s. internal/client/route.go:15 omits the format version byte that the code writes.

## Model

| member | source | states |
|---|---|---|
| `RoomInvariant.StepKeeps` | internal/server/room_auth.go:78-408 | every handler step keeps the room consistent: address entries answer at their key and, once admitted, are the seated object; octets, counters and scan records agree |
| `RoomInvariant.RunKeeps` | internal/server/room.go:264-284 | the same over every run of timely steps, in any order |
| `RoomTheorems.StartedOk` | internal/server/persist.go:56-149 | a room started from any saved state, in any entry order, is consistent and balanced |
| `RoomTheorems.ReachableRoom` | internal/server/room.go:173-203 | in every reachable room: entries keyed by the client's address, admitted clients seated under their own virtual IP, no client with two entries, bit o set iff o is reserved or held, IPs inside the /24 and never reserved |
| `RoomTheorems.ReachableLimits` | internal/server/room.go:405-413 | in every reachable room: stored counts between 1 and maxPerIP, pending at most its maximum, room size within its limits |
| `RoomInvariant.SweepIsAtomic` | internal/server/room_lifecycle.go:67-145 | recheck at most 30 s after the scan, with any steps between, equals an atomic sweep by current fields and keeps the room consistent |
| `RoomTheorems.ScanFindsStale` | internal/server/room_lifecycle.go:86-95 | the scan records every client unseen for more than 30 s, with its current address |
| `RoomTheorems.RecentlySeenStays` | internal/server/room_lifecycle.go:113-127 | a sweep never removes a client seen within the last 30 s |
| `RoomTheorems.KeepAliveSavesSeat` | internal/server/room_lifecycle.go:17-27 | a keepalive saves its sender's seat from every sweep in the next 30 s, also from one that had already scanned it as stale |
| `RoomTheorems.RightAnswerIsSeated` | internal/server/room_auth.go:326-398 | a right answer in time gets the least free IP when there is a place, and its address is mapped to the new member |
| `RoomTheorems.GapSafeIffWithinWindow` | internal/server/room_lifecycle.go:107-123 | every sweep a given time after its scan leaves the address map consistent iff that time is at most 30 s |
| `RoomTheorems.MovedAfterScanIsReachable` | internal/server/room_relay.go:69-91 | the state that refutes longer gaps is reached by join, scan, migration |
| `RoomInvariant.RegisterKeeps` | internal/server/room_auth.go:78-213 | registration keeps the room consistent on every path |
| `RoomInvariant.AuthResponseKeeps` | internal/server/room_auth.go:279-408 | an auth response keeps the room consistent on every path, including the one without a pending challenge |
| `RoomInvariant.DisconnectKeeps` | internal/server/room_lifecycle.go:29-54 | disconnecting keeps the room consistent, for members, pending clients and strangers |
| `RoomInvariant.MigrateKeeps` | internal/server/room_relay.go:34-92 | address migration keeps the room consistent |
| `RoomInvariant.RebindKeeps` | internal/server/keepalive_server.go:180-232 | rebinding keeps the room consistent |
| `RoomInvariant.AdmitKeeps` | internal/server/room_auth.go:218-250 | seating keeps the room consistent, also when the pool is exhausted or no token could be made |
| `RoomInvariant.IssueKeeps` | internal/server/room_auth.go:257-277 | issuing a challenge keeps the room consistent |
| `RoomEffects.DisconnectFreesSeat` | internal/server/room_lifecycle.go:46-53 | a member's disconnect takes away exactly its seat, its octet, its entry and one connection of its IP |
| `RoomEffects.DisconnectForgetsPending` | internal/server/room_lifecycle.go:39-53 | a pending client's disconnect takes away exactly its entry, one pending and one connection of its IP |
| `RoomEffects.DisconnectOfStranger` | internal/server/room_lifecycle.go:32-36 | a disconnect from an address that is not mapped changes nothing |
| `RoomEffects.KeepAliveRefreshes` | internal/server/room_lifecycle.go:17-27 | a keepalive renews its sender's time and nothing else |
| `RoomEffects.SpoofedIsIgnored` | internal/server/room_relay.go:34-67 | a relayed packet that claims no seated client, comes from another client's address, or, for a client held to its token, carries another token at payload[10..26] (9..25 in the old format) or has no byte after its addresses, is not answered and changes nothing |
| `RoomEffects.HonestIsForwarded` | internal/server/room_relay.go:141-217 | any other packet goes to exactly its hearers: for 255.255.255.255, the room's .255 and 224-239 every other client with an address, otherwise the holder of the destination; from a new address it moves its sender there, from a known one it changes nothing |
| `RoomEffects.RebindIffEntitled` | internal/server/keepalive_server.go:180-232 | a rebind is granted iff the client is seated and shows its HMAC over its own virtual IP or, without a password, was seen within 30 s; granted, it moves exactly that client to the sender; refused, it changes nothing |
| `RoomEffects.RebindReadOff` | internal/server/keepalive_server.go:180-232 | a rebind is granted iff the sender's address is then mapped to that client, except exactly when a client asks in vain from its own address, where it stays mapped |
| `RoomMoves.StepMoves` | internal/server/room_relay.go:34-92 | a step changes an admitted client's address only if it is its own player's registration onto its waiting seat, a packet from an unmapped address claiming its IP and fit for its token, or an entitled rebind; and then to where that packet came from |
| `RoomMoves.RunMoves` | internal/server/room_relay.go:34-92 | if a client's address differs after a run, some step of the run was one of these three |
| `RoomEffects.MalformedIsRefused` | internal/server/room_auth.go:88-113 | a registration with an incompatible version, an empty or overlong name or room id, or above the rate is refused and changes nothing |
| `RoomEffects.ReRegisterDisconnectsFirst` | internal/server/room_auth.go:118-130 | a pending client that registers again is treated as if it had disconnected before |
| `RoomEffects.MemberReRegisters` | internal/server/room_auth.go:132-140 | a member that registers again keeps its IP; its time and version are renewed and nothing else changes |
| `RoomEffects.RegisterRefusals` | internal/server/room_auth.go:155-178 | too many connections from the IP, a full room, or a name that is taken, in this order: refused, and nothing changes |
| `RoomEffects.PlaceholderIsResumed` | internal/server/room_status.go:190-219 | a restored player's seat, found by name and room, is moved to its address and counted, and is the IP it is told |
| `RoomEffects.OpenRoomSeats` | internal/server/room_auth.go:180-192 | without a password a newcomer gets the least free IP from .2 to .254 and a record with its name, room and version, its address, this time and the drawn token; without a free IP or a token only the count changes |
| `RoomEffects.PasswordRoomChallenges` | internal/server/room_auth.go:195-213 | with a password a newcomer is challenged, and is then a pending client with what it registered; above the limit of pending clients, or without a challenge, nothing changes |
| `RoomOutcomes.MisshapenIsIgnored` | internal/server/room_auth.go:279-288 | an HMAC that has not 32 bytes is not answered and changes nothing |
| `RoomOutcomes.UnaskedAnswer` | internal/server/room_auth.go:313-324 | a response with no challenge to answer drops the entry at its sender's address with a pending client and a connection, and changes nothing when there is none |
| `RoomOutcomes.WrongAnswerIsForgotten` | internal/server/room_auth.go:326-357 | a wrong or late answer takes away exactly its challenge, one pending and one connection |
| `RoomOutcomes.LateRefusal` | internal/server/room_auth.go:359-377 | a right answer in a full room or under a taken name is refused: one connection is no longer counted, and the challenge stays open |
| `RoomOutcomes.RightAnswerEnters` | internal/server/room_auth.go:379-398 | a right answer with a place free gets the least free IP, and a record with the name, room and version it registered, the address it answered from, this time and the drawn token; its challenge is gone |
| `RoomOutcomes.AssignedIsCurrent` | internal/server/room_auth.go:78-408 | whoever is told an IP holds it, is mapped where it spoke from, and is recorded as seen just then |
| `RoomOutcomes.AssignedSurvivesSweep` | internal/server/room_lifecycle.go:113-127 | whoever is told an IP keeps it through every sweep in the next 30 s |
| `RoomSeats.StepSeats` | internal/server/room_lifecycle.go:29-145 | a step takes a member's seat iff it is a disconnect from its own address, or a sweep that recorded it and finds it unseen for more than 30 s; otherwise the same object keeps it |
| `RoomSeats.SeatOutlasts` | internal/server/room_lifecycle.go:67-145 | a member seen at some time keeps its seat through every run of the next 30 s, whatever is sent, scanned and swept, in which it does not disconnect from its own address |
| `RoomSeats.AssignedOutlasts` | internal/server/room_auth.go:218-250 | so does whoever is told an IP, by registration or auth response |
| `RoomSweeps.SweepExactly` | internal/server/room_lifecycle.go:111-139 | a sweep within its time takes away exactly the recorded clients still unseen for more than 30 s, with the entries at their addresses and their octets, and exactly the recorded challenges |
| `RoomSweeps.ScanAndSweep` | internal/server/room_lifecycle.go:86-139 | a scan of both maps and its sweep take away exactly the clients unseen, and the challenges open, for more than 30 s; a younger challenge stays unless a removed client's address was its own |
| `RoomAccounting.StepBalanced` | internal/server/room_auth.go:118-212 | from a balanced room, counters exact and members mapped, a step leads to a balanced room iff it is not one of the leaking steps |
| `RoomAccounting.StepExact` | internal/server/room_auth.go:313-323 | from a balanced room the counters alone stay exact iff the step is not one of the drifting ones |
| `RoomAccounting.MoveExact` | internal/server/keepalive_server.go:215-232 | a change of address moves no counter iff it is free, or a client without address takes over a member's entry |
| `RoomDrift.RoamingDrifts` | internal/server/room_relay.go:69-91 | joining and then relaying from another IP drifts, from an empty room |
| `RoomDrift.LateRefusalDrifts` | internal/server/room_auth.go:359-377 | two challenged clients answer rightly in a one-seat room: the second's refusal drifts, from an empty room |
| `RoomAccounting.RunBalanced` | internal/server/room_auth.go:384-397 | over leak-free runs each per-IP count is the number of entries from that IP and pending is the number of challenge entries |
| `RoomAccounting.SweepBalanced` | internal/server/room_lifecycle.go:113-138 | a sweep of a balanced room leaves it balanced: it returns exactly what its clients and challenges held |
| `RoomAccounting.DisconnectBalanced` | internal/server/room_lifecycle.go:39-53 | disconnecting from a balanced room leaves it balanced |
| `RoomAccounting.MoveBalanced` | internal/server/room_relay.go:69-91 | changing an address is balanced iff it is free of charge: same IP and nobody else there, or staying put |
| `RoomAdmission.EveryMemberAnsweredItsChallenge` | internal/server/room_auth.go:292-398 | in a passworded room started from any saved state, every member of every reachable state answered its own challenge with the right HMAC within 15 s, or is the restored object in its restored seat, and no challenge admitted two |
| `RoomAdmission.RunKeepsTrail` | internal/server/room_auth.go:257-277 | the record of issued and spent challenges stays true over every run |
| `RoomHistory.RunSize` | internal/server/room_auth.go:63-76 | no run grows the room beyond the larger of maxPlayers and its size at the start |
| `RoomHistory.AtMost253` | internal/server/room.go:205-222 | a consistent room seats at most 253 |
| `RoomPersist.RestoreUndoesSnapshot` | internal/server/room_status.go:158-183 | snapshot and restore within the grace period, same subnet: the same IP-to-name table and the used octets that were saved but never read, for every entry order |
| `RoomPersist.RestoreKeeps` | internal/server/persist.go:92-140 | restoring any saved entries keeps the room consistent |
| `RoomPersist.SnapshotHolds` | internal/server/room_status.go:158-183 | exactly the members are saved, each under its IP with its name and the time it was last seen |
| `RoomPersist.OtherStateIgnored` | internal/server/persist.go:80-90 | a state of another version or subnet is not restored |
| `RoomPersist.RestoredExactly` | internal/server/persist.go:92-140 | exactly the IPs with an entry in the subnet, from .2 to .254, seen within 30 s or saved within 60 s, are held again, each by the first such entry with its name and time and without address or token |
| `RoomPersist.PlaceholderReturns` | internal/server/room_status.go:190-219 | a client that matches one placeholder by name and room, and no other, gets that IP, and its address maps to that object |
| `RoomPersist.ReturningPlayerKeepsIp` | internal/server/room_auth.go:144-153 | directly after a restart a player with a unique name gets its old IP back |
| `RoomReservation.WaitsIffUndisturbed` | internal/server/persist.go:120-138 | over every run a restored seat is still held iff no step ended it: its name registering, a packet claiming its IP from an unmapped address, a rebind, or a sweep that finds it unseen for more than 30 s |
| `RoomReservation.ReservationHonoured` | internal/server/room_status.go:190-219 | after a restart and any run that leaves the seat alone, the player gets its old IP back |
| `RoomReservation.StaleReservationSwept` | internal/server/room_lifecycle.go:86-127 | a scan and sweep remove a restored seat unseen for more than 30 s, however recent the restart |
| `RoomTheorems.ForwardIsHonest` | internal/server/room_relay.go:96-217 | whatever is forwarded: the claimed source is the IP of the one client mapped at the sender, never one in challenge state, and the targets are exactly the other addressed clients or exactly the addressed holder of the destination |
| `RoomTheorems.PendingNeverRelays` | internal/server/room_relay.go:128-135 | a client in challenge state never relays |
| `RoomTheorems.MemberIsRelayed` | internal/server/room_relay.go:141-217 | a mapped member with an accepted token is forwarded to all targets, and the room does not change |
| `RoomServer.Room.constructor` | internal/server/room.go:135-182 | a new room is the empty model room with octets 0, 1 and 255 reserved |
| `RoomServer.Room.DecrementConn` | internal/server/room.go:405-413 | count down, entry removed at the last one |
| `RoomServer.Room.CleanupPending` | internal/server/room_auth.go:38-51 | entry, pending count and per-IP count of a pending client go together |
| `RoomServer.Room.CheckCapacityAndDuplicate` | internal/server/room_auth.go:63-76 | full, duplicate or free, as the model decides |
| `RoomServer.Room.FindPlaceholder` | internal/server/room_status.go:204-214 | finds some matching placeholder, and none iff there is none |
| `RoomServer.Room.FindPending` | internal/server/room_auth.go:292-312 | the scan finds some matching pending entry, and none iff there is none |
| `RoomServer.Room.DoRegisterClient` | internal/server/room_auth.go:218-250 | performs the model's admission with the bitmap's least free octet |
| `RoomServer.Room.DoSendAuthChallenge` | internal/server/room_auth.go:257-277 | performs the model's challenge issue |
| `RoomServer.Room.HandleRegister` | internal/server/room_auth.go:78-213 | performs exactly the model step and reply |
| `RoomServer.Room.HandleAuthResponse` | internal/server/room_auth.go:279-408 | performs exactly the model step and reply |
| `RoomServer.Room.HandleKeepAlive` | internal/server/room_lifecycle.go:17-27 | performs exactly the model step |
| `RoomServer.Room.HandleDisconnect` | internal/server/room_lifecycle.go:29-61 | performs exactly the model step |
| `RoomServer.Room.HandleRebind` | internal/server/keepalive_server.go:180-232 | performs exactly the model step and answer |
| `RoomServer.Room.HandleRelay` | internal/server/room_relay.go:96-217 | performs exactly the model step; the addresses chosen are those of the model's targets |
| `RoomServer.Room.RelayAndSend` | internal/server/room_relay.go:96-217 | the same, then sends to all targets of a broadcast and to the targets of a unicast that the bandwidth limiter allows |
| `RoomServer.Room.CollectTargets` | internal/server/room_relay.go:164-177 | the target choice yields exactly the model's target set and their addresses |
| `RoomServer.Room.StaleScan` | internal/server/room_lifecycle.go:86-105 | the two scan loops record what the model's scan records |
| `RoomServer.Room.StaleSweep` | internal/server/room_lifecycle.go:111-139 | the two recheck loops perform exactly the model's sweep |
| `RoomServer.Room.TakeSnapshot` | internal/server/room_status.go:158-183 | the saved entries and bitmap are the model's snapshot |
| `RoomServer.Room.LoadEntries` | internal/server/persist.go:95-140 | the restore loop performs exactly the model's restore |
| `IpBitmap.MarkUsed` | internal/server/room.go:187-194 | adds exactly one octet to the set the words stand for |
| `IpBitmap.MarkFree` | internal/server/room.go:196-203 | removes exactly one octet |
| `IpBitmap.ScanWord` | internal/server/room.go:208-219 | clearing the lowest set bit ends at the word's least usable free octet, or shows there is none |
| `IpBitmap.NextAvailable` | internal/server/room.go:205-222 | the least free octet in 2..254, and none iff there is none |
| `Subnets.OverlapsIffIntersect` | internal/server/subnet.go:78-89 | the three tests find exactly the networks that share an address, for all prefix lengths |
| `Subnets.Net24Hosts` | internal/server/subnet.go:36-39 | the addresses of a /24 are its 256 hosts |
| `Subnets.Net24sApart` | internal/server/subnet.go:36-39 | two /24s share an address iff they are the same |
| `Subnets.AllocationUnique` | internal/server/subnet.go:26-45 | the allocated network does not depend on the order of the rooms |
| `Subnets.AllocatedIsApart` | internal/server/subnet.go:33-45 | an allocated /24 is unused, in 2..254, and shares no address with any local network |
| `Subnets.SubnetOverlapsAny` | internal/server/subnet.go:78-89 | true iff some local network overlaps |
| `Subnets.AllocateSubnet` | internal/server/subnet.go:8-46 | returns the first /24 after the highest in use that meets no local network, and none iff there is none up to 254 |
| `Subnets.HighestOctet` | internal/server/subnet.go:21-31 | the maximum of 1, the base's octet and the rooms' octets |
| `MultiRoom.NextKeeps` | internal/server/server.go:563-606 | joins, room steps and idle removal keep rooms consistent, networks apart and the room limit |
| `MultiRoom.LiveRoomsDisjoint` | internal/server/server.go:551-606 | over every run from an empty server: live /24s pairwise disjoint and disjoint from every local network, each virtual IP held in at most one room, at most maxRooms rooms |
| `MultiRoom.LiveRoomsConfigured` | internal/server/server.go:581-591 | over every run from an empty server every room has the server's password, 254 places and 3 per IP |
| `MultiRoom.JoinMakesRoom` | internal/server/server.go:557-606 | a join makes an empty room on the allocated network iff the id is fit and new, the server has a place and there is a network; other rooms stay as they are |
| `MultiRoom.CleanupSpares` | internal/server/keepalive_server.go:89-107 | a room survives idle removal, unchanged, iff it has clients, is "default", or was active |
| `MultiRoom.OneHolder` | internal/server/keepalive_server.go:163-178 | a virtual IP belongs to at most one room |
| `MultiRoom.FindHolder` | internal/server/keepalive_server.go:163-178 | finds the holder in any visiting order, and it is the only one |
| `MultiRoom.Rooms.FindOrCreate` | internal/server/server.go:557-606 | finds the room or creates it on the allocated /24, refusing bad ids, a full server and exhausted networks |
| `MultiRoom.Rooms.CleanupIdleRooms` | internal/server/keepalive_server.go:89-107 | removes exactly the empty idle rooms other than "default" |
| `Protocol.DecodeIffEncoded` | internal/protocol/protocol.go:87-131 | a packet decodes to a message iff it is that message's encoding |
| `Protocol.DecodeCheckedIffEncoded` | internal/protocol/protocol.go:96-150 | the same with the checksum |
| `Protocol.HopKeepsMessage` | internal/server/server.go:466-503 | data packets survive both hops, whichever decoder the room's password selects |
| `WireLayout.PacketLayout` | internal/protocol/protocol.go:87-94 | version 1, type, payload |
| `WireLayout.ChecksumLayout` | internal/protocol/protocol.go:142-150 | the checksum of all before it stands in the last four bytes, low byte first |
| `WireLayout.ServerTakes` | internal/server/server.go:466-503 | the server takes a message iff it is its checked encoding or, in a room with encryption, its plain one, which must be checked all the same for registrations, auth responses, NAT probes and rebinds |
| `WireLayout.DataLayout` | internal/protocol/messages_data.go:96-118 | each field of a data packet at its byte: addresses, version 1, flags, the token if its flag is set, the data |
| `WireLayout.DataReading` | internal/protocol/messages_data.go:149-173 | a data packet is refused iff shorter than its own header; otherwise each field is the bytes at its place, by format |
| `WireLayout.SealedLayout` | internal/crypto/crypto.go:110-152 | version, the counter low byte first, the direction tag, the ciphertext |
| `WireLayout.ReceivedIff` | internal/client/recv_data.go:59-91 | with a cipher, data that begins with version 1 is delivered iff its counter is admitted and it opens; other data is delivered as it came |
| `WireLayout.PeerLayout` | internal/protocol/messages_peer.go:106-126 | each field of a peer at its byte |
| `WireLayout.ListLayout` | internal/protocol/messages_peer.go:106-135 | the number of IPv4 peers stands first, the NAT types, when one is known, last |
| `WireLayout.TooManyRefused` | internal/protocol/messages_peer.go:137-150 | a list is refused as too long iff its first two bytes say more than 256 |
| `DataFormat.UnmarshalUndoesMarshal` | internal/protocol/messages_data.go:96-173 | reading undoes writing, with and without a token |
| `DataFormat.MarshalUndoesUnmarshal` | internal/protocol/messages_data.go:149-173 | a packet of the current format is what its reading writes |
| `DataPath.BuildDataHeader` | internal/client/route.go:16-36 | writes exactly the encoded head over a stale buffer, whatever the flags |
| `DataPath.BuildDataPacket` | internal/client/route.go:40-54 | equals the checked encoding of the marshalled payload, byte for byte |
| `DataPath.BuildEncryptedDataPacket` | internal/client/route.go:57-74 | equals the unchecked encoding around the sealed packet, under the cipher's next nonce; nil iff the buffer cannot hold it |
| `DataPath.EncryptTo` | internal/crypto/crypto.go:138-152 | appends version, nonce and ciphertext iff they fit; nil appends nothing |
| `DataPath.DecryptInto` | internal/crypto/crypto.go:166-189 | opens iff long enough, of the right version and admitted; the window changes before the text is opened |
| `DataPath.OpenUndoesSeal` | internal/crypto/crypto.go:117-189 | a sealed packet opens to its plaintext iff the window admits its counter |
| `DataPath.PlainDelivery` | internal/client/recv_data.go:59-91 | sender, relay and receiver deliver the same nonempty bytes |
| `DataPath.EncryptedDelivery` | internal/client/recv_data.go:167-198 | in a passworded room the receiver gets the plaintext iff its window admits the counter |
| `EndToEnd.BuiltPacketIsForwarded` | internal/server/room_relay.go:141-197 | whatever a member's builder wraps, a consistent room forwards unchanged to exactly its targets |
| `EndToEnd.PlainPacketArrives` | internal/server/room_relay.go:192-217 | an addressed member receives the bytes sent to it, through all codecs and the room |
| `EndToEnd.EncryptedPacketArrives` | internal/server/room_relay.go:192-217 | the same through seal and open |
| `PayloadPool.DataPayload.Fill` | internal/protocol/messages_data.go:181-217 | fills a reused object exactly as the plain decoder would, whatever its arrays held |
| `PayloadPool.Pool.Get` | internal/protocol/messages_data.go:72-81 | hands out a reset object nobody else uses |
| `PayloadPool.Pool.Put` | internal/protocol/messages_data.go:83-94 | resets and returns an object |
| `PayloadPool.Pool.Unmarshal` | internal/protocol/messages_data.go:177-218 | for every history of the pool agrees with UnmarshalData and leaves every object in use alone |
| `Broadcast.WideSumFolds` | internal/client/recv_data.go:48-54 | summing in 32 bits and folding is the one's-complement sum of section 1 of RFC 1071, without overflow |
| `Broadcast.Fold` | internal/client/recv_data.go:52-54 | the fold loop ends, at the 16-bit representative of the sum |
| `Broadcast.SumWords` | internal/client/recv_data.go:47-51 | the loop computes the word sum, below 2^32 |
| `Broadcast.OrNotBits` | internal/client/recv_data.go:36-39 | network bits under the mask, ones elsewhere |
| `Broadcast.ChecksumCompletes` | internal/client/recv_data.go:44-55 | for every header of 12 bytes or more that is all there, the stored complement makes it sum to 0xFFFF |
| `Broadcast.ShortHeaderUnrepaired` | internal/client/recv_data.go:47-55 | a shorter header keeps the sum it had |
| `Broadcast.HeaderSumIff` | internal/client/recv_data.go:44-55 | a header within the packet sums to 0xFFFF iff it has 12 bytes or more or did so before |
| `Broadcast.DeterminedIff` | internal/client/recv_data.go:40-51 | the result is a function of packet and subnet iff the header length is within the packet |
| `Broadcast.RewriteSettles` | internal/client/recv_data.go:26-43 | the result is a limited broadcast again iff the directed address is the same |
| `Broadcast.RewriteBroadcast` | internal/client/recv_data.go:22-57 | rewrites iff limited IPv4 broadcast with an IPv4 subnet; only bytes 10-11 and 16-19 change, destination network or not-mask; a header within the packet sums to 0xFFFF iff it has 12 bytes or more or did so before; the checksum over the buffer's stale bytes otherwise |
| `ReplayWindow.Window.Check` | internal/crypto/crypto.go:194-226 | true iff the counter was never admitted and is less than 64 behind every admitted one; bitmap and counter go on standing for the set of all admitted counters |
| `ReplayWindow.FullyAdmitted` | internal/crypto/crypto.go:194-226 | a delivery is admitted in full iff it repeats none and none comes 64 or more behind an earlier one |
| `ReplayWindow.NeverTwice` | internal/crypto/crypto.go:218-221 | an admitted counter is refused after any further delivery |
| `ReplayWindow.StragglersStayRefused` | internal/crypto/crypto.go:213-216 | a counter 64 or more below an admitted one stays refused, whoever sends it |
| `ReplayWindow.NonceSource.MakeNonce` | internal/crypto/crypto.go:110-115 | the i-th nonce is the start plus i plus one, modulo 2^64, and the direction tag |
| `ReplayWindow.CounterOfNonce` | internal/crypto/crypto.go:176-177 | the receiver reads back the sender's counter |
| `ReplayWindow.NoncesDistinct` | internal/crypto/crypto.go:110-115 | fewer than 2^64 consecutive packets carry distinct nonces |
| `ReplayWindow.OneSenderAdmitted` | internal/crypto/crypto.go:194-226 | one sender's packets before wrap, each once and none 64 behind, are all admitted by a fresh window |
| `SendQueue.PassIsPermutation` | internal/server/sendqueue.go:160-212 | a pass writes exactly the multiset it took |
| `SendQueue.PassKeepsHighOrder` | internal/server/sendqueue.go:160-212 | high packets leave in the order they came |
| `SendQueue.PassIsStablePartition` | internal/server/sendqueue.go:160-212 | with at most 64 lows a pass is the stable highs-first partition |
| `SendQueue.HighsLeaveFirst` | internal/server/sendqueue.go:32-37 | one pass sends all highs before all lows iff it began with a low, met at most 64 lows, or met no further high |
| `SendPriority.PassLenUnique` | internal/server/sendqueue.go:160-212 | there is exactly one place where a pass over a channel without arrivals stops |
| `SendPriority.HighsLeaveFirstIff` | internal/server/sendqueue.go:32-37 | emptying a channel by passes sends every high before every low iff, after whole passes of 65 highs, the last high stands before the 64th low, or a leading high is followed by few enough lows and highs for one pass |
| `SendPriority.LowsBeforeHigh` | internal/server/sendqueue.go:193-211 | 64 lows in front of one high: the high leaves last |
| `SendServer.Sender.RunUntilEmpty` | internal/server/sendqueue.go:124-214 | the loop without arrivals writes exactly what its passes give, and leaves the channel empty |
| `SendQueue.RunConserves` | internal/server/sendqueue.go:124-254 | over every run, arrivals at any receive, direct broadcast writes amid a pass: everything accepted is written once or still queued, and highs written then queued are highs accepted, in order |
| `SendQueue.LowsOfHighPass` | internal/server/sendqueue.go:160-192 | in a pass begun by a high the first 64 lows leave last and any further ones before them, each group in order |
| `SendQueue.LowsKeepOrder` | internal/server/sendqueue.go:193-211 | over every run of passes that meet no high, low packets leave in the order they were accepted |
| `SendQueue.BroadcastsKeepOrder` | internal/server/sendqueue.go:139-154 | broadcasts that went through their channel leave in the order they were accepted |
| `SendQueue.DrainedIsWritten` | internal/server/sendqueue.go:227-254 | once drained, everything ever accepted has been written exactly once, highs in order |
| `SendServer.Sender.Send` | internal/server/sendqueue.go:73-104 | accepted iff there is room, or the packet is high and a pass makes room in time; refused packets change nothing; the channel never exceeds its capacity |
| `SendServer.Sender.SendBroadcast` | internal/server/sendqueue.go:108-118 | never dropped: queued, or written at once when the channel is full |
| `SendServer.Sender.MainBranch` | internal/server/sendqueue.go:160-212 | the labelled loops and both buffers perform exactly one pass of the queue model, which goes on until its batch is full or the channel is empty and no further |
| `SendServer.Sender.BroadcastBranch` | internal/server/sendqueue.go:143-159 | writes exactly the packets taken, in order: 65, or all there are |
| `SendServer.Sender.Drained` | internal/server/sendqueue.go:227-254 | everything left is written, the main channel first |
| `AddressText.AtoiUndoesDecimal` | internal/protocol/messages_peer.go:71-78 | decimal text reads back, for all of int64 |
| `AddressText.ParseUndoesDotted` | internal/protocol/messages_peer.go:62-70 | dotted text reads back for every IPv4 address |
| `AddressText.ParseIffDotted` | internal/protocol/messages_peer.go:162-168 | exactly the dotted forms are read as IPv4 addresses |
| `AddressText.ParseUndoesAddrText` | internal/protocol/messages_peer.go:61-80 | an IPv4 endpoint's text reads back through SplitHostPort, Atoi and ParseIP, for every port |
| `AddressText.AddrTextShort` | internal/protocol/messages_peer.go:113-120 | the text fits its length field |
| `PeerList.RoundTripWithTail` | internal/protocol/messages_peer.go:82-197 | with anything after the list, reading undoes writing iff NAT types were sent or the extra bytes read are zero |
| `PeerList.RoundTrip` | internal/protocol/messages_peer.go:82-197 | reading undoes writing for up to 256 IPv4 peers, names under 65536 bytes, nil or IPv4 addresses; others are filtered |
| `PeerList.CheckedRoundTrip` | internal/protocol/messages_peer.go:137-197 | the same through the checked codec and real address text |
| `PeerList.UncheckedRoundTrip` | internal/protocol/messages_peer.go:189-195 | through the unchecked decoder it holds iff types were sent or the first checksum bytes are zero |
| `PeerList.TruncatedRefused` | internal/protocol/messages_peer.go:137-187 | a list cut short anywhere before its NAT types is refused |
| `PeerList.Compact` | internal/protocol/messages_peer.go:85-104 | the in-place compaction equals a plain filter and leaves the tail alone |
| `PeerList.Marshal` | internal/protocol/messages_peer.go:82-135 | the patched buffer is the list's encoding |
| `PeerList.Unmarshal` | internal/protocol/messages_peer.go:137-197 | the offset loop parses exactly the list, with its errors |
| `PeerTable.ListedExactly` | internal/client/recv_peer.go:76-141 | after a peer list the table's keys are the listed IPs without our own |
| `PeerTable.StepSafe` | internal/client/recv_peer.go:100-113 | from a table where every confirmed peer was heard at its current address, a step leads to such a table iff it is not a list that moves a confirmed peer by way of no address |
| `PeerTable.RunSafe` | internal/client/recv_data.go:116-159 | over runs whose lists keep known addresses, every confirmed peer was heard at its current address |
| `PeerTable.DirectOnlyWhereHeard` | internal/client/route.go:85-126 | on such runs a packet leaves outside the server only to the current address of its peer, after a packet claiming that peer came from there, the peer's address in every state since |
| `PeerTable.HeardIff` | internal/client/recv_data.go:116-159 | the evidence kept step by step is that some packet claiming the peer came from what was its address in every later state |
| `PeerTable.DirectOnlyUnicast` | internal/client/route.go:116-126 | within a session such a packet is never broadcast, multicast or for the server |
| `PeerTable.ConfirmedGoesDirect` | internal/client/route.go:104-122 | once a packet from a peer's current address is accepted, unicast to that peer goes to that address through any further packets and clean-ups that keep it |
| `PeerTable.DataConfirmsIff` | internal/client/recv_data.go:94-162 | a direct data packet confirms a peer iff it carries data, comes from the address of the peer it claims and, without encryption and with a session token, has its token flag set and that token at payload[10..26] (9..25 in the old format) |
| `PeerTable.PunchConfirmsIff` | internal/client/recv_peer.go:16-54 | a hole punch confirms a peer iff it carries its IP, comes from its address and is within the rate |
| `PeerTable.DirectChanges` | internal/client/recv_data.go:94-162 | a confirming packet marks that peer as direct and changes nothing else; any other direct packet changes nothing |
| `PeerTable.SessionStays` | internal/client/register.go:255-273 | a session keeps its own IP, server, subnet, token and encryption until the next assignment |
| `PeerTable.ListedOnce` | internal/client/recv_peer.go:87-124 | a peer listed once takes over address and name from its entry, and stays confirmed unless one address replaced another |
| `PeerTable.ListedStaysNinetySeconds` | internal/client/peer.go:52-77 | a peer named by a list is there after it, and a cleaning keeps it iff it comes at most 90 s later |
| `PeerTable.CleanKeepsTheRest` | internal/client/peer.go:52-77 | a cleaning removes exactly the expired peers and leaves all else as it was |
| `PeerTable.NilThenOtherIsUnheard` | internal/client/recv_peer.go:102-110 | nil and then another address leads to sending where nobody was heard |
| `PeerTable.Tunnel.HandlePeerInfo` | internal/client/recv_peer.go:57-141 | mark, update and sweep leave exactly the listed peers, unmarked, and the snapshot equal to the table |
| `PeerTable.Tunnel.HandleDirectData` | internal/client/recv_data.go:94-162 | confirms and delivers iff the source is known, at its current address, with the right token in rooms without encryption |
| `PeerTable.Tunnel.HandleDirectHolePunch` | internal/client/recv_peer.go:16-54 | confirms iff the sender is the peer's current address and the rate allows |
| `PeerTable.Tunnel.CleanStalePeers` | internal/client/peer.go:52-77 | removes exactly the peers unseen for more than 90 s |
| `PeerTable.Tunnel.Assigned` | internal/client/register.go:255-273 | a new session starts without peers |
| `RateLimit.Budget` | internal/server/tokenbucket.go:33-64 | bytes admitted and tokens left never exceed tokens held plus what the clock earned |
| `RateLimit.WindowBound` | internal/server/tokenbucket.go:33-64 | between any two calls at most the burst and what the forward moves of the clock earn, whatever came before |
| `RateLimit.ServerBound` | internal/server/tokenbucket.go:21-64 | at most burst + rate * (tj - ti) bytes between any two calls |
| `RateLimit.RefusedOnlyIf` | internal/server/tokenbucket.go:33-64 | a call is refused only if its size exceeds the burst, or the tokens held and what the time since is worth |
| `RateLimit.PassesIffFits` | internal/server/tokenbucket.go:33-64 | over every run with a clock that does not go back, a call passes iff it is within the burst and, for the creation and every earlier call, the bytes let through since plus its size are at most the burst and what the time since is worth |
| `RateLimit.ServerPassesIff` | internal/server/tokenbucket.go:21-64 | the same for a bucket of a given rate: burst + rate * (tj - ti) |
| `RateLimit.QuietRefills` | internal/server/tokenbucket.go:52-64 | after a long enough pause a call passes iff it is within the burst |
| `RateLimit.TokenBucket.Allow` | internal/server/tokenbucket.go:33-42 | answer and new state are the model's |
| `RateLimit.SentSinceCreation` | internal/client/ratelimit.go:33-78 | for any linear worth of time, cut to whole tokens |
| `RateLimit.ClientBound` | internal/client/ratelimit.go:21-78 | at most burst + rate * (t - t0) bytes since creation, with fast path, clipping and truncation |
| `RateLimit.ClientRefusedOnlyIf` | internal/client/ratelimit.go:33-78 | a call is refused only if it exceeds the burst, or comes within a token of what is held and the time since, at most a second, is worth |
| `RateLimit.SentInWindow` | internal/client/ratelimit.go:49-68 | from any call on, at most one second's worth more than the burst and the time after |
| `RateLimit.WindowBoundedIff` | internal/client/ratelimit.go:33-78 | from a moment on at most burst + rate * elapsed passes, whatever is asked, iff the limiter has no tokens, or its tokens and the unclaimed time, at most a second, are worth no more than the burst |
| `RateLimit.TwiceTheBurstAtOnce` | internal/client/ratelimit.go:38-45 | twice the burst can pass in one instant |
| `RateLimit.ClientSendLimiter.Allow` | internal/client/ratelimit.go:33-78 | fast and slow path give the model's answer and state |

## Left out

- Sockets, TUN devices, Windows calls, firewall, status page, translations, logging, metrics, install scripts: I/O only.
- The insides of ChaCha20-Poly1305, HMAC, HKDF, CRC32 and the random generators.
- Interleavings inside tryMigrateAddrMap and handleRebind: each is one step, because their recheck tests presence and not identity.
- "Every addressed client is in the address map" and unconditional uniqueness of names: neither is an invariant of the code.
- Fields no modelled decision reads: NAT types and round-trip times of clients, metrics, dirty marks; a room's last activity appears as the set of idle rooms.
- The registration rate counter behind `rateOk`, the hole-punch rate limit, and which buckets the bandwidth limiter keeps: its answer is a parameter.
- The JSON state file and its address text: saved entries come parsed, an unparsable address as none.
- IPv6 addresses as text and in the client's routing; virtual IPs in the room are IPv4, as the server allocates them.
- addrToRoom, the map from addresses to rooms of a multi-room server, and its cleanup.
- MultiRoom.Rooms: holds rooms as values of the room model, not as objects; a room already removed from the server is no longer followed.
- PeerTable.Tunnel: holds peers as records in a map; that table and snapshot share the peer objects appears as updating both at once.
- SendServer.Sender.MainBranch: channels are sequences, and what is offered before each receive is a finite input, so a pass that never ends is not covered; nor is a queue of capacity 0.
- SendServer.Sender.RunUntilEmpty: the choice between main and broadcast channel is left out; broadcasts are low and may leave between any two passes.
- RateLimit.ClientSendLimiter.Allow: calls do not overlap; the compare-and-swap against the mutex is not modelled.
- RateLimit.TokenBucket.Allow: floating point is exact real arithmetic.
- DataPath.BuildDataPacket: a token flag passed with an all-zero token is excluded, because the code then slices past the end of its packet and panics; every caller passes no flags.
- Unencrypted direct delivery between clients: tokens are per client, so only the relay path is proved to deliver.
- AddrStrLen, a capacity hint; NAT classification, reconnect backoff, configuration files, ring buffers, sharded counters: only easy members.
