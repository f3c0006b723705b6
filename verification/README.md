# DisFree: packet NAT, flow manager, proxy handoff and OpenVPN wire layer

DisFree is an OpenVPN client with a per-flow NAT and a temporary "tunnel, then hand back" switch for one
application. This project models its hard core in Dafny and proves what that core promises, for every input and
every interleaving:

- **Packet NAT** (`packetnat.go`): in-place address rewriting, full checksum recomputation in a real 32-bit
  accumulator, TCP option walking with MSS clamping, and the round trip from an outbound packet through the tunnel
  to the reply handed back. Modules `Checksum`, `PacketNat`, `NatChecksums`, `MssClamp`, `NatRoundTrip`; the packet
  builder and the second checksum routine of `dataprobe.go` are in `PacketBuilder`.
- **Windows flow manager** (`windows_discord.go`): five tables and their handles under every interleaving of locked
  sections, opens and closes (`FlowTables`, `FlowSystem`, `FlowManager`), which flow its replies find, whom a packet is
  looked up to and whether it can still be injected (`FlowFound`, `FlowDelivery`, `FlowReceiver`), the SYN gate
  and which CONNECT lets which SYN through (`SynGate`, `SynMarks`), and the shared packet-id counter (`PacketIds`).
- **Linux proxy and dialer** (`linux_bootstrap_proxy.go`): the mode switch (`ProxyMode`), the request/response dialer
  (`VpnDialer`, `DialerWaits`), the direct, VPN, direct handoff (`Handoff`), and the handoff and the proxy
  together (`Bootstrap`).
- **OpenVPN wire layer**: control packets (`ControlPacket`), the byte stream over them (`ControlStream`,
  `StreamInBytes`), the data channel (`DataChannel`), the TLS 1.0 PRF and key split (`ByteXor`, `KeyDerivation`), the
  key-method record (`KeyMethodText`), and the PUSH_REPLY exchange (`ControlText`, `PushReply`, `PushExchange`).

`dafny verify dfyconfig.toml` checks all of it.

How the model is built:

- Code that changes a packet, a map or a stream is a `method` on an `array`, a class with the same fields, or a loop,
  each proved equal to a specification function; the properties are lemmas about those functions.
- A concurrent object is a state, a set of steps (each locked section, atomic operation, channel operation or foreign
  call is one step, and the step datatypes name the source lines), and a run: any sequence of enabled steps. Theorems
  about runs quantify over all of them.
- Library cryptography is a parameter: HMAC is any function with a fixed positive output length, AES-GCM any
  seal/open pair with a 16-byte overhead where opening undoes sealing. Sockets, clocks, WinDivert handles and child
  processes are tokens or parameters of steps.
- A slice whose bounds cross is a Go panic, and a panic in any of these goroutines ends the process. The model gives
  such packets the status `Panicked`, and the packet's passage the outcome `Crashed`, apart from `Dropped`.

Properties that do not hold of the program, each with a concrete run or input and the exact condition under which it
holds:

- A packet is sent or dropped: not if its total length is set and ends inside the header, for then the slice at
  `packetnat.go:112` panics. `PanicsIff` says for which packets, `OutboundCrashesIff`, `InboundCrashesIff`,
  `DeliveryCrashesIff` and `GateCrashesIff` what that means in each direction, and `CrashHappens` gives a 24-byte reply
  to a live flow.
- A live flow is found by its replies: not after a second flow with the same reverse key has come and gone
  (`SharingLosesReplies`). Over a run, every flow is always found if and only if no two live flows ever share a
  reverse key (`FoundIffNeverShared`); a single flow is found exactly while no other flow with its reverse key has been
  installed or removed since its own installation (`FoundIffUndisturbed`).
- A flow that was looked up can be injected into: not if it was removed meanwhile (`RemovedUnderTheReceiver`), and not
  if it was installed by a capture whose port had been unprotected (`SharedFlowOnClosedHandle`). `HeldHandleOpenIff`
  says exactly when the handle is still open.
- The proxy stays direct after the handoff: not if the launch line has not been handled by then
  (`SessionBeforeLaunch`). It stays direct in every continuation if and only if the one-time activation has run when
  the switch back is made (`AfterDirect`, `VpnAfterDirect`).
- A Windows packet id is not 0: the retry after 0 can yield 0 again, though not within 2^33 - 1 additions
  (`ZeroIdHappens`, `IdsNonZero`). `ZeroIdIff` says when; `encryptDataV2` refuses such a packet.
- No nonce is used twice under one key: on Windows not once ids have been used 2^32 times, for the counter steps over 0
  and goes on from 1 (`NonceReuseHappens`). A nonce comes back exactly then (`NonceRepeatsIff`), which a sender can
  tell from its packet count. The Linux sender stops there instead (`BridgeSends`).
- A dialled connection is one to the address asked for: not if the address is longer than the child's request buffer
  (`PaddedPortMisdialled`: port 8080 of any host, padded with zeros, arrives as port 808; the condition is in
  `DialerCorrelates`).
- What is read from the control stream is a prefix of what was written: not if a Read takes anything after one that
  ended with a failed acknowledgement (`ReadPastFailedAck`). The bytes are a prefix, whatever was written, exactly if no
  Read does (`BytesIntactIff`; `StreamJoined` has the bytes, `StreamIntactIff` the packets).
- A control packet that is written can be read back: not with 65 to 255 acknowledgements. `ParseMarshal` says exactly
  which packets survive the wire.

## Model

| member | source | states |
|---|---|---|
| Checksum.ChecksumWords | packetnat.go:75-84 | the loop returns the start value plus the exact sum of the big-endian words, modulo 2^32, a lone last byte counting as a high byte |
| Checksum.FinishChecksum | packetnat.go:86-91 | the folding loop terminates with the complement of the end-around-carry fold |
| Checksum.FoldKeepsResidue | packetnat.go:86-91 | folding keeps the residue modulo 65535 and reaches 0 from 0 only |
| Checksum.FoldEndsInTwoRounds | packetnat.go:86-91 | for every uint32 the folding loop runs at most twice |
| Checksum.ComplementVerifies | packetnat.go:86-91 | writing the complement (or 0xffff for 0) into a zeroed field makes the whole sum verify |
| Checksum.SameResidueSameChecksum | packetnat.go:86-91 | two positive sums that differ by a multiple of 65535 have one checksum |
| Checksum.FinishMeans | packetnat.go:86-91 | the checksum brings the sum to a multiple of 65535, and is 0xffff only for a sum of 0 |
| PacketNat.RecalcChecksums | packetnat.go:93-139 | the array holds exactly the specified packet for every verdict, including the errors after the header checksum was written |
| PacketNat.RewriteSource | packetnat.go:57-64 | replaces the source address and recalculates; a missing address or a non-IPv4 packet leaves the packet alone |
| PacketNat.RewriteDestination | packetnat.go:66-73 | the same for the destination address |
| PacketNat.FlowInBytes | packetnat.go:28-54 | which packets have a flow, and which header bytes its protocol, addresses and ports are, in both directions |
| NatChecksums.HeaderSumExact | packetnat.go:106 | the uint32 header sum never wraps: it equals the unbounded word sum and is positive |
| NatChecksums.PseudoSumExact | packetnat.go:124-128 | for packets of at most 65535 bytes the pseudo-header accumulator equals the unbounded sum of addresses, protocol, length and transport words |
| NatChecksums.RecalcFrame | packetnat.go:93-139 | only the two checksum fields are ever written, and the verdict of a second call is the same |
| NatChecksums.PanicsIff | packetnat.go:101-112 | the transport slice has crossed bounds exactly when the total length is set, fits the slice and ends inside the header |
| NatChecksums.RecalcVerifies | packetnat.go:93-139 | after every successful call header and transport sums verify, and a UDP checksum is not 0 |
| NatChecksums.RecalcAgrees | packetnat.go:93-139 | packets that differ in checksum bytes only are recalculated to the same packet |
| NatChecksums.RecalcIdempotent | packetnat.go:93-139 | recalculating twice is recalculating once |
| NatChecksums.RewriteTwice | packetnat.go:57-73 | of two rewrites of one address only the last matters |
| NatChecksums.RewriteBack | packetnat.go:57-73 | rewriting an address and back restores a normalised packet byte for byte |
| NatChecksums.RewriteIsIncremental | packetnat.go:57-73 | a full recomputation writes the header checksum and the TCP or UDP checksum that equation 3 in section 3 of RFC 1624 gives for the two changed words, a UDP 0 written as 0xffff |
| NatChecksums.ChangesInBytes | packetnat.go:93-139 | a byte that changes is byte 10 or 11 of the packet, 16 or 17 of its TCP header, or 6 or 7 of its UDP header |
| NatChecksums.DoneInBytes | packetnat.go:93-125 | in header bytes, exactly which packets are recalculated without an error |
| NatChecksums.PanicsInBytes | packetnat.go:101-112 | in header bytes, exactly which packets cross the slice bounds |
| NatChecksums.SumsInBytes | packetnat.go:105-137 | which bytes the two sums that verify afterwards run over: the header; both addresses, the protocol, the length and the segment |
| MssClamp.WalkOptions | packetnat.go:158-182 | the option loop stays in bounds, terminates, equals the recursive walk, and reports a change exactly when a byte changed |
| MssClamp.ClampTcpMss | packetnat.go:141-187 | result, verdict and packet for every input, recalculating exactly when the walk changed something |
| MssClamp.ClampOptionsMeaning | packetnat.go:158-182 | the option list read after the walk is the old list with every length-4 MSS value lowered to the limit |
| MssClamp.ClampPreservesMeaning | packetnat.go:141-187 | the same for the options of a whole clamped packet, whatever the verdict |
| MssClamp.ClampFrame | packetnat.go:141-187 | a byte that changes is an MSS value byte or a checksum byte |
| MssClamp.ClampPanicsIff | packetnat.go:183-185 | clamping panics exactly when a value was lowered in a packet whose lengths cross |
| MssClamp.ClampTwice | packetnat.go:141-187 | a second clamp changes nothing |
| MssClamp.ClampCommutesWithRewrite | windows_discord.go:551-554 | clamp then rewrite and rewrite then clamp give the same packet |
| MssClamp.ClampAndRewriteSucceedTogether | windows_discord.go:599-602 | one order succeeds exactly when the other does |
| MssClamp.ClampInBytes | packetnat.go:141-187 | every packet with a complete TCP header and the SYN bit, the second lowest of byte 13, has its options lowered to the limit, and no other packet is touched |
| MssClamp.VerdictInBytes | packetnat.go:142-157 | the verdict before the walk, in header bytes |
| MssClamp.WalkInBytes | packetnat.go:160-182 | the walk over options one at a time: 0 ends it, 1 is skipped, kind 2 with two value bytes is lowered to the limit, any other stays |
| MssClamp.WalkEndsInBytes | packetnat.go:168-174 | a truncated or ill-sized option ends the walk |
| MssClamp.OptionsInBytes | packetnat.go:160-182 | the same options as a receiver reads them |
| NatRoundTrip.OutboundFlow | windows_discord.go:544-557 | a tunnelled packet has the sender's flow key with the VPN address as local end, and its checksums verify |
| NatRoundTrip.InboundFlow | windows_discord.go:588-602 | a reply that is handed back has the flow's own local address, and its checksums verify |
| NatRoundTrip.OutboundOptions | windows_discord.go:551-554 | a SYN that leaves has the options it was captured with, every MSS value above 1180 lowered to 1180 |
| NatRoundTrip.InboundOptions | windows_discord.go:599-602 | the same for a SYN handed back |
| NatRoundTrip.OutboundBytes | windows_discord.go:551-554 | bytes 12 to 15 of what leaves are the VPN address, and no byte has changed but these, the checksum bytes and the MSS value bytes of a SYN |
| NatRoundTrip.InboundBytes | windows_discord.go:599-602 | the same for what is handed back, with the flow's local address at bytes 16 to 19 |
| NatRoundTrip.SentIff | windows_discord.go:551-556 | exactly which packets leave (recalculable, and of TCP only those with a complete header) and which replies are handed back (all recalculable ones) |
| NatRoundTrip.RewriteRefuses | packetnat.go:57-73 | without an IPv4 address or packet nothing is written, and with a bad header length only the address |
| NatRoundTrip.OutboundCrashesIff | windows_discord.go:551-556 | an outbound packet ends the process exactly when its lengths cross and, for TCP, its header passes the clamp's checks |
| NatRoundTrip.InboundCrashesIff | windows_discord.go:599-602 | a reply ends the process exactly when its lengths cross |
| NatRoundTrip.RoundTrip | windows_discord.go:137-147 | a reply mirroring a tunnelled packet has that flow's reverse key; it becomes a packet of exactly that flow if its checksums can be written and ends the process exactly if its lengths cross |
| NatRoundTrip.ReverseKeyForgetsLocalAddress | windows_discord.go:137-139 | two flows share a reverse key if and only if they differ at most in the local address |
| FlowTables.InstallKeeps | windows_discord.go:217-250 | installing a flow keeps flows and reverse in agreement |
| FlowTables.UnprotectKeeps | windows_discord.go:427-449 | so does dropping the last endpoint of a UDP port with all its flows |
| FlowTables.RemoveKeeps | windows_discord.go:523-531 | so does removing a flow |
| FlowTables.ProtectKeepsUdp | windows_discord.go:383-412 | the three UDP tables keep describing one relation between endpoints and captured ports, without the VPN's own port |
| FlowTables.UnprotectKeepsUdp | windows_discord.go:427-449 | the same when an endpoint goes away |
| FlowTables.InstallFound | windows_discord.go:217-250 | an installation that creates no shared reverse key leaves every flow found by its replies |
| FlowTables.IdentitiesDiffer | windows_discord.go:77-79 | two flow keys have one identity only if they are equal |
| FlowTables.InstallAdds | windows_discord.go:242-250 | only a new identity is entered, and only an IPv4 flow also under the protocol, remote address and ports its replies carry |
| FlowTables.RemoveTakes | windows_discord.go:523-531 | removing a flow takes away its entry and its own reverse key, and nothing else |
| FlowTables.ProtectAdds | windows_discord.go:387-412 | a new endpoint gets its port exactly when the port is captured already or the handle for it could be opened |
| FlowTables.LastEndpointIff | windows_discord.go:434-437 | an endpoint is its port's last exactly when no other endpoint has that port |
| FlowTables.UnprotectDrops | windows_discord.go:441-446 | when the last endpoint on a port goes, exactly the UDP flows with that local port go; the others stay as they were |
| FlowTables.UnprotectDropsReverse | windows_discord.go:441-446 | so do exactly the reverse entries of that protocol and local port |
| FlowTables.UnprotectTakes | windows_discord.go:427-449 | while another endpoint is on the port, no flow, reverse entry or handle goes; otherwise the handle of that port does |
| FlowSystem.RunKeepsInv | windows_discord.go:173-299 | in every state of every interleaving: reverse entries are live flows under their own key, the UDP tables agree, and every handle has its place |
| FlowSystem.HandlesConserved | windows_discord.go:639-663 | every opened handle is in exactly one place (a flow that owns it, the UDP table, one thread's hands, or closed), so none is closed twice or while still owned |
| FlowSystem.StepOverwritesNothing | windows_discord.go:217-224 | no step replaces the entry of a live flow |
| FlowSystem.FoundIffNeverShared | windows_discord.go:242-250 | over a run, every live IPv4 flow is always found through reverse if and only if no two live flows ever share a reverse key |
| FlowSystem.SharingLosesReplies | windows_discord.go:526-530 | a run in which a live flow that shares with nobody is no longer found |
| FlowFound.FoundIffUndisturbed | windows_discord.go:242-250 | flow by flow, over any run: a live IPv4 flow is found through reverse exactly while no flow with its reverse key has been installed or removed since its own installation |
| FlowFound.WasBorn | windows_discord.go:217-250 | every live flow was installed at some step and has stayed, unchanged, since |
| FlowFound.StepOne | windows_discord.go:523-531 | a step keeps a staying flow found or lost, and loses it exactly if it installs or removes another flow with its reverse key |
| FlowDelivery.DeliveredToItsFlow | windows_discord.go:584-602 | in every reachable state, whatever arrives: only a flow that is live at the lookup is chosen, and it is made a packet of exactly that flow whose checksums verify |
| FlowDelivery.ReplyReachesItsFlow | windows_discord.go:588-602 | while no reverse key has been shared, a reply to a tunnelled packet of a live flow is looked up to that flow and rewritten into its packet |
| FlowDelivery.DeliveryCrashesIff | windows_discord.go:588-602 | a packet from the tunnel ends the process exactly when it is looked up to some flow and its lengths cross |
| FlowDelivery.CrashHappens | windows_discord.go:588-602 | a two-step run whose live flow and a 24-byte reply end the process |
| FlowReceiver.HistoryKeepsInv | windows_discord.go:564-609 | with lookup and send as separate steps, in every interleaving a handle leaves its table only for the hands that close it |
| FlowReceiver.HeldHandleOpenIff | windows_discord.go:593-607 | the handle of the flow receiveVPN holds is open exactly while the owning table still has it or the thread that took it out has not closed it; otherwise the send fails and receiveVPN ends |
| FlowReceiver.TableHandleOpenIff | windows_discord.go:593-595 | a flow in the table that owns its handle has an open one; a shared flow exactly while its port's handle is open |
| FlowReceiver.SharedFlowOnClosedHandle | windows_discord.go:496-504 | a run in which a capture installs a live, findable flow on a closed handle, and its first reply ends receiveVPN |
| FlowReceiver.RemovedUnderTheReceiver | windows_discord.go:523-534 | a run from the start in which a flow is looked up for a TCP reply, then removed and closed, and the send ends receiveVPN |
| FlowReceiver.AnyHeldFlowCanBeRemoved | windows_discord.go:523-534 | the same from any reachable state in which receiveVPN holds a live flow of its own handle |
| FlowManager.FlowManager.InstallFlow | windows_discord.go:287-295 | the locked section installs unless the identity is taken, and returns the existing flow otherwise |
| FlowManager.FlowManager.ProtectPort | windows_discord.go:387-412 | the locked section for a new endpoint: the tables, and an open call exactly for a new endpoint on a port without a handle |
| FlowManager.FlowManager.UnprotectEndpoint | windows_discord.go:427-452 | the locked section for a closed endpoint, with the handle to close afterwards |
| FlowManager.FlowManager.DropFlowsOn | windows_discord.go:440-446 | the loop forgets exactly the flows of one UDP port and their reverse keys |
| FlowManager.FlowManager.RemoveFlow | windows_discord.go:523-534 | the locked section that removes one flow |
| FlowManager.FlowManager.TakeAll | windows_discord.go:639-663 | close empties every table and lists each owned flow handle and each UDP handle once |
| SynGate.IntentTable.Mark | windows_discord.go:89-109 | a CONNECT event renews one intent, for the exact local port or for any |
| SynGate.IntentTable.Poll | windows_discord.go:117-129 | one polling round consumes at most one live intent, the exact one first, and drops the expired ones it looked at |
| SynGate.AccountedStep | windows_discord.go:301-355 | every step keeps outcome i the outcome of packet i |
| SynGate.MarksStep | windows_discord.go:89-135 | intents in the table plus consumptions never exceed marks |
| SynGate.PollsStep | windows_discord.go:111-135 | packets let through by polls never exceed consumed intents |
| SynGate.GateAccounting | windows_discord.go:301-355 | over every run each received packet is handed back unmodified once, or tunnelled once in NATed form, or is the last before the loop stops or the process ends; each tunnelled packet was let through by a step of its own, a lookup of that very packet that found its flow or a poll that consumed a live intent for it; packets let through by intents never exceed CONNECT marks |
| SynGate.GateCrashesIff | windows_discord.go:342-349 | the gate ends the process exactly when it tunnels a SYN whose lengths cross and whose TCP header is complete |
| SynMarks.MarkedIsFound | windows_discord.go:89-129 | less than 3000 ms after a CONNECT, a poll for a packet to its remote end, from its local port or any if that was unknown, finds it |
| SynMarks.KeysAnnounce | windows_discord.go:81-87 | a poll looks for exactly the keys of the CONNECTs that announce its packet |
| SynMarks.IntentIsMarked | windows_discord.go:97-106 | over any run, an intent in the table runs out 3000 ms after the last CONNECT that marked it, and has been there since |
| SynMarks.EveryPollHasItsMark | windows_discord.go:111-129 | over any run, a packet that a poll lets through has a CONNECT of its own before it, to its remote end and from its local port or an unknown one, less than 3000 ms before the poll's clock reading; no CONNECT lets two packets through |
| SynMarks.AnnouncedIsLetThrough | windows_discord.go:111-129 | over any run, a poll for a packet announced less than 3000 ms before lets it through, unless another poll has used that announcement before |
| SynMarks.HandedBackAfterWait | windows_discord.go:325-334 | over any run, a TCP packet handed back after polling had no flow at its lookup and no live intent at its last poll, and had waited 8 ms or the bootstrap was off |
| SynMarks.HandedBackIff | windows_discord.go:313-334 | a packet is handed back exactly when the bootstrap is off, when it has no TCP flow, or when the polling gives up |
| SynMarks.StopsIff | windows_discord.go:305-353 | the loop ends exactly when a receive, a send, an installation or the rewrite fails |
| SynMarks.AnnouncedSynIsTunnelled | windows_discord.go:302-354 | for every TCP packet that can be sent, a run in which it is announced, received, polled for and tunnelled |
| PacketIds.BridgeSends | vpntun_linux.go:194-206 | the Linux sender encrypts under ids 1, 2, 3, ... and stops with an error exactly at the first failed write or on counter wrap |
| PacketIds.IdsRepeatFarApart | windows_discord.go:357-361 | whatever the interleaving, two uses of one id are at least 2^32 - 1 uses apart |
| PacketIds.NoncesDistinct | windows_discord.go:620-624 | any 2^32 - 1 consecutive uses have pairwise distinct nonces under one key |
| PacketIds.NonceRepeatsIff | windows_discord.go:357-361 | over every interleaving, two uses have one nonce under one key if and only if ids have been used at least 2^32 times |
| PacketIds.NonceReuseHappens | windows_discord.go:357-361 | one sender's 2^32nd packet has the nonce of its first |
| PacketIds.IdsNonZero | windows_discord.go:357-361 | no id in use is 0 within the first 2^33 - 1 additions |
| PacketIds.ZeroIdIff | windows_discord.go:358-361 | over every interleaving, some id in use is 0 exactly when some thread that is already adding again meets a multiple of 2^32 |
| PacketIds.ZeroIdHappens | windows_discord.go:358-361 | 2^33 additions by two threads after which a sender goes on with id 0 |
| ProxyMode.RunKeepsInv | linux_bootstrap_proxy.go:469-511 | in every interleaving, tracking precedes dialling, closing precedes untracking, and every stale client is still bound to be closed by some call |
| ProxyMode.NoStaleWhenQuiet | linux_bootstrap_proxy.go:469-526 | whenever no setMode is in flight, no open client was dialled under another mode than the current one |
| ProxyMode.ReturnedCallClosedAll | linux_bootstrap_proxy.go:469-483 | when a setMode call returns, everything dialled before its swap is closed, whatever other calls do |
| ProxyMode.LeadsKeepsInv | linux_bootstrap_proxy.go:469-483 | every sequence of steps from a good state, a setMode call run to its end among them, ends in a good state |
| ProxyMode.HttpProxy.TrackConn | linux_bootstrap_proxy.go:488-496 | the locked section on the active map is the Track or Untrack step of the run model |
| ProxyMode.HttpProxy.LoadMode | linux_bootstrap_proxy.go:520-526 | the load that chooses a client's path is the LoadMode step |
| ProxyMode.HttpProxy.SwapMode | linux_bootstrap_proxy.go:470-473 | the atomic swap is the Swap step |
| ProxyMode.HttpProxy.SnapshotActive | linux_bootstrap_proxy.go:474-479 | the locked copy loop lists exactly the active clients and is the Snapshot step |
| ProxyMode.HttpProxy.SetMode | linux_bootstrap_proxy.go:469-483 | with no step of others in between, a call is a sequence of those steps; a real switch leaves no active connection open and a repeated mode touches none |
| ProxyMode.HttpProxy.Close | linux_bootstrap_proxy.go:598-611 | an uninterrupted Close is a sequence of those steps and leaves no active connection open |
| ProxyMode.ReturnedCallClosedListed | linux_bootstrap_proxy.go:474-482 | in every interleaving, when a Close call, or a setMode call that changed the mode, has returned, every client in the map when it was listed is closed |
| ProxyMode.SwapNotes | linux_bootstrap_proxy.go:470-473 | a swap to another mode notes exactly the clients that have dialled |
| ProxyMode.ReturnedSwitchClosedDialled | linux_bootstrap_proxy.go:469-483 | over any run, when a setMode call that changed the mode has returned, every client that had dialled before its swap is closed |
| VpnDialer.RunKeepsInv | linux_bootstrap_proxy.go:55-176 | with fewer than 2^32 increments, ids, channels, addresses and connection places agree in every interleaving |
| VpnDialer.SendNeverBlocks | linux_bootstrap_proxy.go:96-108 | every send on a result channel meets an empty channel that has had no send |
| VpnDialer.DialerCorrelates | linux_bootstrap_proxy.go:55-94 | a channel gets at most one value; a returned connection was dialled for what the child read of the caller's own address, which is that address exactly if it fits the request buffer; it belongs to one caller and is not closed by the parent |
| VpnDialer.LongAddressMisdialled | linux_bootstrap_proxy.go:248-258 | a run that hands the caller of a longer address a connection to its cut-off form, whenever the child's dial of that form succeeds |
| VpnDialer.PaddedPortMisdialled | linux_bootstrap_proxy.go:248-258 | for any host of up to 253 bytes, an address of its zero-padded port 8080 whose cut-off form names port 808, and a run that hands its caller that connection |
| VpnDialer.UnwantedIsClosed | linux_bootstrap_proxy.go:96-108 | over any run, the connection a response brings reaches the channel registered under its id when it was taken, and is closed by the next delivery if there was none, whatever happens in between |
| DialerWaits.NoCallerForgotten | linux_bootstrap_proxy.go:77-108 | below 2^32 increments, in every interleaving: a waiting call's result is in its channel, or the channel is pending, with the reader or on Close's list; until the dialer is closed, no call that has returned is pending |
| DialerWaits.ZeroIsSkipped | linux_bootstrap_proxy.go:59-62 | an addition that yields 0 is made again, once |
| DialerWaits.ArrivesCutOff | linux_bootstrap_proxy.go:248-258 | the child reads the first 8187 characters of an address |
| VpnDialer.Dialer.AddId | linux_bootstrap_proxy.go:59-62 | each atomic addition is the AllocId step of the run model |
| VpnDialer.Dialer.RegisterCall | linux_bootstrap_proxy.go:63-66 | the locked insertion is the Register step |
| VpnDialer.Dialer.UnregisterCall | linux_bootstrap_proxy.go:77-79 | the locked deletion is the Unregister step |
| VpnDialer.Dialer.TakeChannel | linux_bootstrap_proxy.go:96-100 | the locked part of deliver is the TakePending step, and yields the channel the reader then holds |
| VpnDialer.Dialer.TakeAllChannels | linux_bootstrap_proxy.go:168-171 | the locked part of Close is the CloseTake step: every pending channel, each once |
| Handoff.HistoryIsPrefix | linux_bootstrap_proxy.go:613-631 | in every run the mode history is a prefix of direct, VPN, direct, and each switch is called at most once however often lines repeat |
| Handoff.AfterDirect | linux_bootstrap_proxy.go:707-717 | after the switch back the mode is direct if and only if the one-time activation had run by then or has not run yet; if it had run, the proxy stays direct in every continuation |
| Handoff.VpnAfterDirect | linux_bootstrap_proxy.go:691-696 | if it had not run, some continuation takes the proxy back to the VPN path |
| Handoff.HandoffStaysDirect | linux_bootstrap_proxy.go:689-727 | if the launch line is handled before the first session line, a finished handoff has history direct, VPN, direct and stays direct |
| Handoff.SessionBeforeLaunch | linux_bootstrap_proxy.go:613-631 | a run with the lines in the other order that ends handed off on the VPN path |
| Handoff.HandoffHappens | linux_bootstrap_proxy.go:689-717 | the handoff as it is meant takes the proxy to the VPN path and back |
| Bootstrap.RunKeepsInv | linux_bootstrap_proxy.go:689-717 | with the switches of the handoff as setMode calls of the proxy, both keep their invariants and agree on the mode in every interleaving |
| Bootstrap.AllDirectAfterHandoff | linux_bootstrap_proxy.go:711-716 | after a UseDirect call made with the activation run, whenever no setMode call is in flight, every open client that has dialled was dialled direct |
| ControlPacket.MarshalPacket | protocol.go:48-82 | the writer's bytes or error for every packet |
| ControlPacket.ParsePacket | protocol.go:84-129 | the parser's packet or error for every datagram |
| ControlPacket.ParseMarshal | protocol.go:48-129 | a packet that marshals is read back unchanged if and only if it is canonical; 65 to 255 acks marshal and never parse |
| ControlPacket.MarshalParse | protocol.go:48-129 | an accepted datagram with a non-zero opcode and no bytes after a pure ACK is the one wire form of its packet |
| ControlPacket.MarshalsIff | protocol.go:48-59 | exactly which packets have a wire form |
| ControlPacket.WirePrefix | protocol.go:62-74 | where the opcode, key id, session id, ack count, each ack and the remote session id lie |
| ControlPacket.WireBody | protocol.go:75-81 | where the packet id and the payload lie, and that a pure ACK, opcode 5, has neither |
| ControlPacket.ParsesIff | protocol.go:84-124 | exactly which datagrams are accepted: at most 64 acks, and nothing missing |
| ControlStream.ControlConn.Write | tlsprobe.go:98-121 | over the connection's life the datagrams are those of the chunks written, numbered consecutively from 1; the returned count is exactly the bytes sent, and an error means a failed write |
| ControlStream.ControlConn.Read | tlsprobe.go:123-163 | which event ends the call and how; the events consumed and heard; bytes returned plus bytes buffered are the accepted payloads in order, each accepted packet acknowledged once |
| ControlStream.ControlConn.Accept | tlsprobe.go:149-156 | a packet is acknowledged, and then its bytes become readable |
| ControlStream.AckedBeforeReadable | tlsprobe.go:149-156 | in the record of a connection, bytes become readable only right after the acknowledgement of their packet |
| ControlStream.ChunksCover | tlsprobe.go:103-108 | chunks are 1 to 1000 bytes long and concatenate to the input |
| ControlStream.StreamArrives | tlsprobe.go:98-163 | delivered in order and exactly once, what one end writes is what the other end accepts |
| ControlStream.ReaderSeesPrefix | tlsprobe.go:123-163 | after any number of datagrams the peer has accepted exactly the bytes of those chunks, a prefix of everything written |
| ControlStream.StreamJoined | tlsprobe.go:98-163 | of two connections, one reading what the other sent: while no Read hears anything after a failed acknowledgement, bytes returned and buffered are exactly those of the first datagrams, a prefix of everything written |
| ControlStream.BytesIntactIff | tlsprobe.go:149-151 | bytes returned and buffered are those of the chunks heard, and they are a prefix of what was written, whatever that was, if and only if no Read hears anything after one that ended with a failed acknowledgement |
| ControlStream.InitialIff | tlsprobe.go:123-163 | over any sequence of Reads, the datagrams heard are the first ones exactly while none is heard after a failure, and all of those taken exactly while none has failed |
| ControlStream.StreamIntactIff | tlsprobe.go:149-151 | with failed acknowledgements, the packets accepted are the first ones sent exactly while nothing was heard after a lost one |
| ControlStream.ReadPastFailedAck | tlsprobe.go:149-151 | a connection whose second Read returns bytes that are no prefix of those written |
| ControlStream.WritesJoin | tlsprobe.go:98-121 | successive writes reach the peer as their concatenated bytes, nothing lost or repeated at the seams |
| ControlStream.NoiseIgnored | tlsprobe.go:134-146 | unparseable or foreign-session datagrams and pure ACKs leave the accepted stream unchanged, wherever they arrive |
| ControlStream.AckMeans | tlsprobe.go:89-96 | an acknowledgement parses as a pure ACK of exactly that packet id |
| StreamInBytes.PacketsSent | tlsprobe.go:89-113 | a chunk is sent as opcode 4 and an acknowledgement as opcode 5, with the local session id |
| StreamInBytes.SentAt | tlsprobe.go:98-121 | datagram k of a connection carries chunk k under number k + 1, modulo 2^32 |
| StreamInBytes.ChunkAt | tlsprobe.go:102-108 | chunk i of a write is its bytes from 1000 i, 1000 of them or what is left |
| StreamInBytes.TakenIff | tlsprobe.go:135-161 | exactly which datagrams are taken as data, and which ask for new keys |
| StreamInBytes.ScanMeans | tlsprobe.go:130-162 | a Read passes over exactly noise and acknowledged empty packets, and ends at the first other event, in the way that event calls for |
| StreamInBytes.AckedInOrder | tlsprobe.go:149 | accepted packets are acknowledged one by one, in order |
| StreamInBytes.PayloadsFollow | tlsprobe.go:155 | each accepted payload follows those accepted before it |
| DataChannel.HeaderBytes | datachannel.go:17-28 | the header holds opcode 9, the key id and the 24-bit peer id |
| DataChannel.EncryptLayout | datachannel.go:62-96 | the wire order is header, packet id, tag, ciphertext, with header and packet id authenticated |
| DataChannel.EncryptSucceeds | datachannel.go:62-96 | encryption succeeds exactly on valid ids and key lengths |
| DataChannel.RoundTrip | datachannel.go:62-144 | decryption returns the same ids and payload for every non-empty payload; an empty one encrypts to 24 bytes that decryption rejects |
| DataChannel.DecryptInverts | datachannel.go:105-144 | an accepted packet is the one encryption of what it decrypts to |
| DataChannel.NoncesDiffer | datachannel.go:48-56 | under one key two nonces are equal if and only if the packet ids are |
| DataChannel.HeaderInBytes | datachannel.go:17-28 | the four header bytes |
| DataChannel.NonceInBytes | datachannel.go:48-56 | the nonce is the four packet id bytes and the first eight bytes of the HMAC key |
| DataChannel.DecryptsIff | datachannel.go:105-144 | exactly which packets are opened, under which nonce, with the tag behind the ciphertext and the first eight bytes authenticated |
| KeyDerivation.PHash | keymethod.go:188-202 | the loop terminates with the first n bytes of the chain HMAC(A(i) + seed) of section 5 of RFC 2246 |
| KeyDerivation.StreamOfBlocks | keymethod.go:188-202 | however many blocks are computed, the first n bytes are the same |
| KeyDerivation.StreamPrefix | keymethod.go:188-202 | shorter outputs are prefixes of longer ones |
| KeyDerivation.HalvesCover | keymethod.go:207-209 | the two secret halves are equally long, cover the secret and share exactly the middle byte of an odd one |
| KeyDerivation.Tls10Prf | keymethod.go:204-217 | the filled buffer is P_MD5 of the first half XOR P_SHA1 of the second |
| KeyDerivation.PrfPrefix | keymethod.go:204-217 | a shorter PRF output is a prefix of a longer one |
| KeyDerivation.DeriveKeys | keymethod.go:219-245 | the master secret and the four key fields, which concatenate to the 256-byte expansion although the expansion buffer ends all zero |
| KeyDerivation.KeySeedInjective | keymethod.go:227-232 | two key seeds agree only if all their parts do, and none equals a master seed |
| KeyDerivation.SeedLayout | keymethod.go:221-232 | each seed is its label, the client's random, the server's, and for the keys the client's session id and the server's, at these places |
| KeyDerivation.MasterInBytes | keymethod.go:220-225 | the master secret is 48 bytes of the PRF over the client's pre-master secret and the 85-byte seed with those parts |
| KeyDerivation.ExpansionInBytes | keymethod.go:227-233 | the keys are 256 bytes of the PRF over the master secret and the 101-byte seed with those parts |
| KeyDerivation.Labels | keymethod.go:222-228 | the bytes of the two labels |
| KeyDerivation.PrfByte | keymethod.go:207-215 | byte i of the PRF is the exclusive or of byte i of the MD5 stream of the first half and of the SHA-1 stream of the second |
| KeyDerivation.StreamByte | keymethod.go:188-202 | byte b of block k of a stream is that byte of the MAC of A(k + 1) and the seed, where A(0) is the seed and each next A the MAC of the last |
| ByteXor.XorLowest | keymethod.go:214 | the lowest bit of an exclusive or |
| ByteXor.XorRest | keymethod.go:214 | its other bits |
| ByteXor.XorTwice | keymethod.go:214 | it undoes itself |
| KeyMethodText.Writer.WriteString | keymethod.go:64-83 | appends the wire form, or refuses a NUL or an over-long string and leaves the buffer alone |
| KeyMethodText.Reader.ReadString | keymethod.go:85-104 | value or error, and exactly what stays unread |
| KeyMethodText.Reader.ReadServerRecord | keymethod.go:148-186 | the same for the whole record, checks in the source's order |
| KeyMethodText.StringRoundTrip | keymethod.go:64-104 | a written string is read back with the following bytes unread if and only if it is within the limit |
| KeyMethodText.StringUnique | keymethod.go:64-104 | a non-empty NUL-free string that is accepted came from its one wire form |
| KeyMethodText.RecordRoundTrip | keymethod.go:148-186 | a server record is read back exactly, the following bytes unread, if and only if its strings, each with its terminator, are within 8192, 1024, 1024 and 16384 bytes |
| KeyMethodText.StringInBytes | keymethod.go:64-83 | a string's two length bytes, its own bytes and the zero after them |
| KeyMethodText.WritableIff | keymethod.go:68-76 | exactly the NUL-free strings of at most 65534 bytes can be written |
| KeyMethodText.HeaderIff | keymethod.go:150-170 | exactly which bytes are taken for a record's header, and where its two randoms lie |
| KeyMethodText.StringIff | keymethod.go:85-104 | exactly which bytes are read as which string, and what stays unread |
| KeyMethodText.TextsInOrder | keymethod.go:172-184 | the four strings of a record are read in this order, each with its own limit |
| ControlText.TrimSpaceMeaning | pushprobe.go:67 | trimming removes exactly the leading and trailing white-space characters, ASCII and multi-byte |
| ControlText.OneByteSpaces | pushprobe.go:67 | the ASCII white-space characters |
| ControlText.TwoByteSpaces | pushprobe.go:67 | those of two UTF-8 bytes, by code point |
| ControlText.ThreeByteSpaces | pushprobe.go:67 | those of three, by code point |
| ControlText.ContainsIff | pushprobe.go:46 | a pattern is found exactly when it stands somewhere |
| PushReply.Reader.ReadMessage | pushprobe.go:17-30 | the text before the first NUL, or end of stream, or over-long, and exactly what stays unread |
| PushReply.Reader.ReadPushReply | pushprobe.go:32-59 | the collected replies or the error, after at most 16 messages |
| PushReply.FlattenPushOptions | pushprobe.go:61-75 | the trimmed items of all messages in order, without empty ones and continuation markers |
| PushReply.MessageRoundTrip | pushprobe.go:17-30 | a NUL-free message is read back, nothing after its terminator is, if and only if it is within the limit |
| PushReply.MessageEnds | pushprobe.go:17-30 | without a NUL in the first max + 1 bytes, the end of the stream or a message too long, and what stays unread |
| PushReply.OptionKept | pushprobe.go:66-72 | an item is dropped exactly when nothing but spaces is left of it or it marks a continuation |
| PushReply.BodyOfMessage | pushprobe.go:64-65 | what is split at commas is the message after PUSH_REPLY and one comma |
| PushExchange.ReplyFlattens | pushprobe.go:61-75 | flattening a composed reply gives what its items give |
| PushExchange.TailContains | pushprobe.go:46 | the substring test for the continuation marker holds exactly when an item starts with it |
| PushExchange.TurnUnderstood | pushprobe.go:39-56 | each message is classified as the server meant it and yields exactly its options |
| PushExchange.ExchangeRoundTrip | pushprobe.go:32-75 | options split over any exchange of size-bounded messages, with ignored messages between them, come back as the original list, the following bytes unread, if and only if there are at most 16 messages |
| PushExchange.FirstEndDecides | pushprobe.go:32-59 | whatever the server sends, the first message that ends the exchange decides it: AUTH_FAILED, RESTART or HALT, or a PUSH_REPLY without a continuation, with all replies so far; unless sixteen messages come before it |
| PushExchange.CutShort | pushprobe.go:32-59 | an exchange that nothing ends fails after sixteen messages, or where the stream ends or a message exceeds 262144 bytes |
| PushExchange.RefusedAtOnce | pushprobe.go:40-43 | a first message that starts with AUTH_FAILED ends it with a refused login, one that starts with RESTART or HALT with a stopped server |
| PacketBuilder.Checksum16 | dataprobe.go:66-79 | the one-pass routine computes the checksum of checksumWords and finishChecksum |
| PacketBuilder.BuildIPv4Udp | dataprobe.go:109-139 | the filled array, or an error exactly for a missing address or an over-long packet |
| PacketBuilder.BuiltFlow | dataprobe.go:109-139 | parseIPv4Flow reads back the addresses and ports a packet was built for |
| PacketBuilder.BuiltHeaderChecksum | dataprobe.go:130 | the header checksum is the one recalcIPv4TransportChecksums writes |
| PacketBuilder.RecalcFillsUdpChecksum | dataprobe.go:136 | recalculating a built packet only fills in the UDP checksum the builder leaves out, and the result verifies |
| PacketBuilder.AcceptedReplyFlow | dataprobe.go:150-192 | an accepted DNS reply is, to packetnat.go, an inbound UDP packet from port 53 to the expected port |
| PacketBuilder.BuiltReplyParses | dataprobe.go:109-192 | the parser accepts a built datagram if and only if it is an answer from port 53 to the query asked |
| PacketBuilder.BuiltInBytes | dataprobe.go:109-139 | every byte of a built packet but its header checksum |
| PacketBuilder.ReplyInBytes | dataprobe.go:150-192 | in bytes, exactly which packets are accepted as the reply, and what is read from them |

## Left out

- AES, GCM, HMAC, MD5, SHA, TLS, X.509 and provider trust: library code, used here as functions with stated assumptions.
- WinDivert, TUN creation, netlink, namespaces and file-descriptor passing: foreign calls, modelled as tokens and step outcomes.
- HTTP request parsing, copyDuplex, the HTTP API, endpoint ranking and every command-line function: input and output.
- parsePushedSession, findPushOption, buildDNSQuery and marshalClientKeyMethod: look-ups and concatenations without state.
- ControlStream.StreamJoined: takes in-order exactly-once delivery as its input, because the source has no retransmission, ordering or duplicate suppression; datagrams over the 8192-byte read buffer are not modelled as truncated.
- VpnDialer.DialerCorrelates: says nothing about liveness, nor about a connection delivered at the moment of a cancel or Close, which the source's select does not decide.
- FlowSystem.HandlesConserved: does not claim that all handles stay closed after close, because the manager has no closed flag and later steps may open more.
- PacketIds.BridgeSends: leaves out the keepalive timer and the receive direction; any payload counts as one send.
- KeyMethodText.Reader.ReadServerRecord: leaves out the pre-master field, which a server record does not carry.
- ProxyMode.HttpProxy.SetMode: is one call with no step of others in between; interleaved calls are the runs of ProxyMode.
- FlowReceiver.HeldHandleOpenIff: assumes of the driver that a send on a closed handle fails.
- VpnDialer: an answer that the child cannot send is the step ChildIgnores, the same as a request it ignores.
- Timing: poll intervals and deadlines are steps of a clock that never goes back; how long a step takes is not modelled.
