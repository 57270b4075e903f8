# cotton, verified

A Dafny model of the hard parts of the cotton crates (USB host stack and SSDP), with proofs.

* **USB transfers on the RP2040** (`Packets`, `TransferProtocol`, `TransferSafety`,
  `TransferResults`, `TransferProgress`, `TransferDriver`). The driver loop and the USB hardware
  share two register slots and take turns in any order. `TransferProtocol` is that protocol as a
  state machine: each statement of the driver loop that touches the shared registers is a step,
  and so is each thing the hardware or the device can do. `TransferSafety` proves its invariant
  over every interleaving, `TransferResults` draws the consequences, `TransferProgress` says which
  errors are reported and when a transfer can hang, and `TransferDriver` has the driver in its own form (packetisers and
  depacketisers with fields, the loop, the caller's buffer filled in place), proved to end where
  the protocol ends with what the bus does at each moment.
* **Bus topology and hubs** (`BitSets`, `Topologies`, `TopologyFormat`, `Wirings`, `HubProtocol`,
  `HubOutcomes`, `HubBus`, `HubTrouble`). The packed parent table, its in-place fixpoint disconnection, its
  recursive printer, and the enumeration protocol on a physical bus on which devices are plugged
  and unplugged between any two transfers. `HubProtocol` is that protocol as a state machine that
  takes one transfer at a step and records it, with what holds of every history; `HubOutcomes`
  says, from what the bus does, which event a signal must end in; `HubBus` has
  `device_events` and `handle_hub_packet` in their own form, proved to go exactly where the
  protocol goes on the same bus; `HubTrouble` is a history that goes wrong.
* **SSDP** (`RefreshTimers`, `Targets`, `Messages`, `EngineState`, `EngineRuns`,
  `EngineEvents`, `Engines`).
  `EngineState` says what each event does to the engine's state and which datagrams it sends,
  and no others; `EngineRuns` proves what holds at every moment of every run of such events;
  `EngineEvents` says from the events alone what is current, who is called back, when the next
  salvo is due and what those who receive its datagrams read;
  `Engines` is the engine as a class over a log of everything it sends, proved to make exactly
  those steps. Then the message codec and the retransmit timer.
* **Supporting structures** (`Pools`, `Descriptors`).

A 32-bit word used as a set is modelled by its bits, time is in whole milliseconds, and what a
caller or the environment chooses (what the device answers, what is plugged in, when the driver
is woken) is a parameter that the results range over. `dafny verify dfyconfig.toml` checks
everything.

## What is assumed of the environment

* The packet size is 1 to 64. The hardware works through the two slots alternately, only when
  started and only on a slot marked available; it completes on the last or a short packet. A
  device answers with at most a packet, and a handshake is never lost (a lost one shows up as one
  of the errors the hardware may report at any step).
* A device keeps one toggle per endpoint, which a successful CLEAR_FEATURE(ENDPOINT_HALT) resets.
* A device listens on address 0 from a reset of its port until SET_ADDRESS, and can be heard only
  through a hub that has an address. Hub ports are numbered from 1, and a hub reports truthfully
  what is on its port at that moment.
* Devices that share an address, should there ever be any, all obey what is sent to it.
* Register writes touch one slot at a time. buff_status shows a completed buffer when the driver
  has asked for that, as it does with double buffering; clearing it acknowledges one buffer, and
  if two have completed the second shows at once. Other endpoints' completions may show in it too.

## Where a promised property fails

* A variable-size OUT transfer of an odd number of full packets, from a buffer with nothing after
  them, indexes past the end of the buffer: `TransferResults.PanicsAtOnce` shows it,
  `TransferSafety.IndexesPastEnd` is the exact condition, and `TransferResults.PanicsOnly` says a
  run panics only under it and never succeeds under it.
* `bulk_out_transfer` reports the whole length although it cuts it to 16 bits: what it reports is
  what the device took if and only if the length is at most 65535 (`TransferResults.BulkOutCount`).
  Of 65536 bytes the device gets none (`TransferDriver.LongOutDropsAll`).
* `poll` is not ready on a CRC, bit-stuffing, overflow or data-sequence error, but clears it. On a
  transfer that can be indexed, a waiting driver is stuck for good if and only if the hardware has
  stopped on an error, the transfer is not complete, and either the error has been cleared or it
  is one of those, with no completed buffer left to show and no other endpoint to complete one
  (`TransferProgress.StuckExactly`). Every such transfer can get there
  (`TransferProgress.CanHang`); from any wait in which the hardware has not stopped it can still
  succeed (`TransferProgress.CanSucceed`).
* After a failed transfer the host's toggle is right if and only if an even number of packets had
  moved (`TransferResults.ToggleAfter`).
* A connection keeps the topology a forest if and only if it adds nothing (an impossible or
  occupied location, or no free address) or its parent is the root or present
  (`Topologies.ConnectKeepsForest`); location (0, 0) is answered with address 0,
  and no other is (`Topologies.ConnectAnswers`).
* After an error between a port reset and SET_ADDRESS a device can be left on address 0. The next
  port reset then puts a second one there if and only if it enables its port and does not take
  the first off again (`Wirings.LeftoverCollides`); `HubTrouble.Collide` is a history in which
  that happens.
* A final descriptor of only two bytes is not visited (`Descriptors.ParseComplete` has the exact
  condition).
* A search with MX 0 makes `on_data` divide by zero, and nothing else makes it panic
  (`Engines.Engine.OnData`; such a datagram is `EngineRuns.ZeroMxPanics`).
* A reply due to several searchers reaches them if and only if some interface that is up has an
  address; otherwise nothing is sent and the reply is forgotten all the same
  (`EngineRuns.WhoIsAnswered`; such a run is `EngineRuns.DroppedReplies`).
* With no slash after the authority `rewrite_host` drops the port number too, and of an IPv6
  literal it keeps what follows the first colon inside the brackets
  (`Targets.RewriteKeepsRest`); otherwise the port and path are kept.

## Model

| member | source | states |
|---|---|---|
| Packets.PlanTotal | cotton-usb-host/src/host/rp2040.rs:423-440 | the packets issued add up to the bytes asked for |
| Packets.PlanShape | cotton-usb-host/src/host/rp2040.rs:423-440 | all packets but the final one are full, exactly the final one is marked last, and how many there are |
| Packets.TransferPlan | cotton-usb-host/src/host/rp2040.rs:405-439 | the same for a whole transfer, with a zero-length packet exactly when the size is 0 or a variable-size transfer is a whole number of packets; the estimate at line 955 is the true count, or one more just for whole packets with no empty one after them |
| TransferSafety.CopyFailsWhen | cotton-usb-host/src/host/rp2040.rs:559-610 | which OUT packet cannot be copied: the empty one ending an odd number of full packets, in slot 1, from an exactly filled buffer |
| TransferSafety.FreeSlot | cotton-usb-host/src/host/rp2040.rs:996-1006 | the slot `prepare` looks at is free whenever fewer than two packets are in flight |
| TransferSafety.RetireGuard | cotton-usb-host/src/host/rp2040.rs:664-668 | what `retire` tests says exactly whether the oldest packet in flight has been processed, and its bytes are still in the slot |
| TransferSafety.RetireInBuffer | cotton-usb-host/src/host/rp2040.rs:675-691 | the copy is in bounds and leaves the buffer holding the received bytes cut to size, the rest untouched |
| TransferSafety.DriverKeeps | cotton-usb-host/src/host/rp2040.rs:992-1172 | every driver step keeps the invariant of the protocol |
| TransferSafety.ReceiveKeeps | cotton-usb-host/src/host/rp2040.rs:996-1101 | so does a packet arriving, whatever its length, with the PID the slot was armed with |
| TransferSafety.TransmitKeeps | cotton-usb-host/src/host/rp2040.rs:996-1101 | so does a packet going out, and what has gone out is a prefix of the buffer |
| TransferSafety.RunKeeps | cotton-usb-host/src/host/rp2040.rs:945-1172 | every state of every interleaving satisfies the invariant |
| TransferResults.NothingLostOrRepeated | cotton-usb-host/src/host/rp2040.rs:994-1152 | in every interleaving: in flight is prepared minus retired, at most two; packets are retired once each, in order; none is overwritten before it is retired |
| TransferResults.PidsInStep | cotton-usb-host/src/host/rp2040.rs:454-489 | PIDs alternate from the endpoint's toggle and always match the device's; no data-sequence error, no duplicate discarded; only the final slot is marked last |
| TransferResults.InSucceeds | cotton-usb-host/src/host/rp2040.rs:664-725 | after a successful IN the buffer holds the received packets concatenated and cut to size, `total()` is their length, and the transfer stopped at the first short or the last planned packet |
| TransferResults.OutSucceeds | cotton-usb-host/src/host/rp2040.rs:551-632 | after a successful OUT the device has taken exactly the buffer's first `size` bytes |
| TransferResults.BulkOutCount | cotton-usb-host/src/host/rp2040.rs:1519-1569 | the length reported is the length the device took if and only if it is at most 65535 |
| TransferResults.PanicsOnly | cotton-usb-host/src/host/rp2040.rs:595-610 | a run panics only on the transfer that cannot be indexed, and such a transfer never succeeds |
| TransferResults.PanicsAtOnce | cotton-usb-host/src/host/rp2040.rs:595-610 | a variable-size OUT of one full packet panics before the hardware is started |
| TransferResults.BufferingEnabled | cotton-usb-host/src/host/rp2040.rs:955-1015 | slot 1 is armed only if double buffering was enabled; without the buff_status interrupt every packet is prepared before the hardware starts |
| TransferResults.NeverStuck | cotton-usb-host/src/host/rp2040.rs:996-1152 | while the driver waits and the hardware has neither ended nor stopped, the hardware has a slot to work on, or there is a packet to retire whose completion `poll` sees and whose interrupt is enabled |
| TransferProgress.StuckExactly | cotton-usb-host/src/host/rp2040.rs:179-214 | a waiting driver never finishes, whatever follows, if and only if the hardware has stopped on an error that has been cleared unseen, or that `poll` ignores with nothing else to make it ready |
| TransferProgress.CanSucceed | cotton-usb-host/src/host/rp2040.rs:992-1172 | from any wait in which the hardware has not stopped there is a continuation to success |
| TransferProgress.CanHang | cotton-usb-host/src/host/rp2040.rs:187-197 | any transfer that can be indexed can get stuck: a CRC error, then a poll |
| TransferProgress.ErrorsReported | cotton-usb-host/src/host/rp2040.rs:1119-1141 | a wait that sees Timeout or Stall ends three steps on in Failed of that error; any other error, with no completed buffer shown, is cleared and the wait goes on |
| TransferProgress.WaitEnds | cotton-usb-host/src/host/rp2040.rs:179-214 | a completed transfer ends the wait, a completed buffer takes the driver round its loop, and nothing else does |
| TransferResults.ToggleAfter | cotton-usb-host/src/host/rp2040.rs:1503-1558 | after success the host's toggle equals the device's; after a failure exactly when an even number of packets moved |
| TransferResults.TogglesStayInStep | cotton-usb-host/src/usb_bus.rs:825-842 | over any series of successful transfers, and IN stalls each followed by `clear_halt`, host and device toggles agree between transfers |
| TransferDriver.Packetiser.constructor | cotton-usb-host/src/host/rp2040.rs:405-421 | a new packetiser is at the start of the plan |
| TransferDriver.Packetiser.NextPacket | cotton-usb-host/src/host/rp2040.rs:423-439 | the next packet, and when the zero-length flag is used up |
| TransferDriver.Packetiser.PrepareIn | cotton-usb-host/src/host/rp2040.rs:443-496 | the in-place update is the protocol's prepare step for IN |
| TransferDriver.Packetiser.PrepareOut | cotton-usb-host/src/host/rp2040.rs:551-632 | the in-place update is the protocol's prepare step for OUT, or its panic |
| TransferDriver.Depacketiser.RetireIn | cotton-usb-host/src/host/rp2040.rs:664-725 | the in-place update is the protocol's retire step for IN, the caller's buffer included |
| TransferDriver.Depacketiser.RetireOut | cotton-usb-host/src/host/rp2040.rs:743-764 | the in-place update is the protocol's retire step for OUT |
| TransferDriver.DrivenRuns | cotton-usb-host/src/host/rp2040.rs:945-1172 | the driver's steps, with anything the bus may do before each, are a run of the protocol |
| TransferDriver.SeenIsReported | cotton-usb-host/src/host/rp2040.rs:1119-1141 | a stall or timeout seen in a wait of a driven transfer is its result, whatever the bus does in between |
| TransferDriver.SilentDevice | cotton-usb-host/src/host/rp2040.rs:1119-1141 | a device that never answers its first packet: any transfer that can be indexed ends in Timeout |
| TransferDriver.Transfer.ControlTransferInner | cotton-usb-host/src/host/rp2040.rs:945-1172 | the loop ends exactly where the driver's steps take the protocol with what the bus does before each of them, and is given up only when its time is up |
| TransferDriver.BulkInTransfer | cotton-usb-host/src/host/rp2040.rs:1465-1517 | it ends as the protocol does with what the bus does, in time, and a stall or timeout that is seen is the error returned; success puts the bytes the device sent in the caller's array and the device's toggle in the endpoint; otherwise the toggle is left alone; it never panics |
| TransferDriver.BulkOutTransfer | cotton-usb-host/src/host/rp2040.rs:1519-1569 | likewise; success means the device took the data and the toggles agree; it panics only on the transfer that cannot be indexed |
| TransferDriver.LongOutDropsAll | cotton-usb-host/src/host/rp2040.rs:1537-1568 | 65536 bytes: success, and the device has been sent one empty packet |
| BitSets.BitSet.Set | cotton-usb-host/src/bitset.rs:25-28 | adds the number to the set |
| BitSets.BitSet.Clear | cotton-usb-host/src/bitset.rs:31-34 | removes the number from the set |
| BitSets.BitSet.SetAny | cotton-usb-host/src/bitset.rs:40-48 | adds the least absent number; None exactly when all 32 are present |
| BitSets.BitSet.Contains | cotton-usb-host/src/bitset.rs:51-54 | membership |
| BitSets.BitIterator.Next | cotton-usb-host/src/bitset.rs:68-76 | produces and removes the least member; None exactly when empty |
| BitSets.Drain | cotton-usb-host/src/bitset.rs:65-77 | iteration yields the members once each, in increasing order |
| Topologies.DownstreamLeast | cotton-usb-host/src/topology.rs:149-161 | what hangs below a port is the least set holding the device there and every child of a member, for any table, malformed ones included |
| Topologies.Topology.DeviceDisconnect | cotton-usb-host/src/topology.rs:162-199 | returns exactly that set, zeroes exactly those entries, in at most 33 passes |
| Topologies.Topology.DeviceConnect | cotton-usb-host/src/topology.rs:117-147 | an occupied location keeps its address; a hub gets the least free one below 16, another device the greatest; None only for bad numbers or when none is free |
| Topologies.Topology.IsPresent | cotton-usb-host/src/topology.rs:104-106 | presence, false out of range |
| Topologies.RoomForHubs | cotton-usb-host/src/topology.rs:117-147 | a new hub is numbered 1 to 15, and a device only once 16 to 31 are all in use; the new entry says the hub and port it was given |
| Topologies.ConnectAnswers | cotton-usb-host/src/topology.rs:117-147 | on a forest, the answer is 0 exactly for location (0, 0); otherwise the address is at that location; a new address was nobody's |
| Topologies.ConnectKeepsForest | cotton-usb-host/src/topology.rs:117-147 | a connection keeps the forest if and only if the location is impossible or occupied, no address is free, or the parent is the root or present |
| Topologies.RemoveKeepsForest | cotton-usb-host/src/topology.rs:162-199 | a disconnection keeps the forest and never reports address 0 |
| Topologies.RootDisconnectEmpties | cotton-usb-host/src/usb_bus.rs:550-553 | with only root port 1 used, disconnecting it empties the table |
| Topologies.RootConnectSucceeds | cotton-usb-host/src/usb_bus.rs:519-523 | with only root port 1 used, the root connection always gets a non-zero address |
| Topologies.RunKeepsForest | cotton-usb-host/src/topology.rs:97-200 | all of this over every run of connections under present parents and disconnections |
| TopologyFormat.SubtreeShrinks | cotton-usb-host/src/topology.rs:44-53 | what lies below a device strictly shrinks at each recursive call, so the printer terminates on every forest |
| TopologyFormat.FmtInner | cotton-usb-host/src/topology.rs:27-57 | the recursive printer with its two loops writes the specified text |
| TopologyFormat.DebugListsEveryDevice | cotton-usb-host/src/topology.rs:26-60 | reading that text back gives every present device exactly once, under its own parent, and nothing else |
| TopologyFormat.DebugInOrder | cotton-usb-host/src/topology.rs:26-60 | that text keeps numbers apart, has a space just between siblings and no empty list, and lists each device's children in increasing order |
| Wirings.InStepUnique | cotton-usb-host/src/usb_bus.rs:1109-1217 | while table and bus agree, no two attached devices share an address |
| Wirings.HappeningKeeps | cotton-usb-host/src/usb_bus.rs:1118-1122 | plugging and unplugging at any moment keeps them in agreement |
| Wirings.ResetKeeps | cotton-usb-host/src/usb_bus.rs:1178-1181 | so does a port reset, which puts only that port's device on address 0 |
| Wirings.AssignKeeps | cotton-usb-host/src/usb_bus.rs:743-767 | so does SET_ADDRESS, which leaves address 0 quiet |
| Wirings.DisconnectKeeps | cotton-usb-host/src/usb_bus.rs:1167-1175 | forgetting everything below a port takes no address from a device still attached |
| Wirings.ConnectKeeps | cotton-usb-host/src/usb_bus.rs:1196-1203 | giving out an address disturbs nobody else's |
| Wirings.LeftoverCollides | cotton-usb-host/src/usb_bus.rs:1118-1122 | with one device left on address 0, the next port reset puts two there if and only if it enables its port and leaves the first alone |
| HubProtocol.PortResetKeeps | cotton-usb-host/src/usb_bus.rs:1178-1181 | resetting a port on a quiet bus leaves only what is on that port on address 0 |
| HubProtocol.StepKeeps | cotton-usb-host/src/usb_bus.rs:1109-1217 | each transfer, and what the host does about it, keeps the invariant of the place the host is at, as long as the history is clean |
| HubProtocol.BeginKeeps | cotton-usb-host/src/usb_bus.rs:502-556 | so does turning to the next signal |
| HubProtocol.HistoryKeeps | cotton-usb-host/src/usb_bus.rs:474-566 | at every moment of every bus history with no error or exhaustion between a port reset and its SET_ADDRESS: every transfer to address 0 has had exactly one device listening, no two devices share an address, nobody is left on address 0 between events, and the root connection has not failed |
| HubProtocol.CleanByEvents | cotton-usb-host/src/usb_bus.rs:1109-1217 | a history is clean if and only if no event is an error between a port reset and its SET_ADDRESS; errors before or after do no harm |
| HubProtocol.HistoryMeans | cotton-usb-host/src/usb_bus.rs:1140-1215 | each event of a clean history means what it says: the mask is what was downstream, the connected device has its address and is at its place in the table |
| HubProtocol.NotEnabledSilent | cotton-usb-host/src/usb_bus.rs:1185-1189 | nothing can be heard on a port that is not enabled after its reset |
| HubProtocol.RootGone | cotton-usb-host/src/usb_bus.rs:550-554 | the root is reported gone exactly if nothing is there, and the table is then empty |
| HubOutcomes.UnplugReported | cotton-usb-host/src/usb_bus.rs:1167-1175 | a signal that comes to a port with a change of connection and nothing on it, where the two transfers work, ends in Disconnect of exactly what was downstream, and the table is cleared of it |
| HubOutcomes.PlugReported | cotton-usb-host/src/usb_bus.rs:1176-1213 | one that comes to a port with a change of connection and a device on it that comes up enabled, where every transfer works, ends in Connect, or HubConnect if the device is a hub, with its address in the table |
| HubOutcomes.PassedOver | cotton-usb-host/src/usb_bus.rs:1140-1189 | a port with nothing reported, another change, or a device that does not come up enabled is passed over for the next, with the table unchanged |
| HubOutcomes.RootReported | cotton-usb-host/src/usb_bus.rs:502-556 | the root: with nothing on it, Disconnect of all 32 addresses and an empty table; with a device on it and every transfer working, Connect or HubConnect |
| HubOutcomes.NothingReported | cotton-usb-host/src/usb_bus.rs:1140-1217 | a packet's signal ends in Nothing only if every port it reported was come to and passed over, and in another event only if some port it reported was not |
| HubOutcomes.ErrorsMean | cotton-usb-host/src/usb_bus.rs:1109-1217 | a signal ends in an error, always with hub 0 and port 1, if and only if a transfer failed or there was no place for a device, or the packet was empty; the host panics exactly when there is no place on the root |
| HubBus.UsbBus.NewDevice | cotton-usb-host/src/usb_bus.rs:677-741 | the two transfers to address 0 are the protocol's, and so is what is read |
| HubBus.UsbBus.SetAddress | cotton-usb-host/src/usb_bus.rs:743-767 | the transfer and the change of address are the protocol's |
| HubBus.UsbBus.OnRoot | cotton-usb-host/src/usb_bus.rs:502-556 | it goes where the protocol goes on that signal, table, bus and record of transfers included |
| HubBus.UsbBus.OnHubPort | cotton-usb-host/src/usb_bus.rs:1140-1215 | so does the body of the loop over the ports, to its event or to the next port |
| HubBus.UsbBus.OnPacket | cotton-usb-host/src/usb_bus.rs:1109-1217 | so does the loop |
| HubBus.Run | cotton-usb-host/src/usb_bus.rs:474-566 | any signals on any bus make a history of the protocol, one event to each signal; it is clean if and only if no event is a harmful error, and then all of the above holds |
| HubTrouble.Collide | cotton-usb-host/src/usb_bus.rs:1109-1217 | a history with two such errors: two devices end on address 0, and both have listened to one transfer |
| RefreshTimers.PeriodBounds | cotton-ssdp/src/refresh_timer.rs:84-88 | a gap is between 6000 and 802550 ms, under half of max-age 1800 s |
| RefreshTimers.FirstSalvos | cotton-ssdp/src/refresh_timer.rs:80-92 | the four salvos after a reset, from the four bytes of the seed |
| RefreshTimers.WhichGapIsLong | cotton-ssdp/src/refresh_timer.rs:80-92 | the fourth gap after a reset is the long one, and every fourth from there; the others are under nine seconds |
| RefreshTimers.FourSalvos | cotton-ssdp/src/refresh_timer.rs:80-92 | from any phase, four updates advance by 818000 plus ten times the four seed bytes |
| RefreshTimers.SalvoCycles | cotton-ssdp/src/refresh_timer.rs:80-92 | so do any four consecutive updates, however many came before |
| RefreshTimers.RefreshTimer.Reset | cotton-ssdp/src/refresh_timer.rs:64-67 | starts again at the given instant in phase 0 |
| RefreshTimers.RefreshTimer.UpdateRefresh | cotton-ssdp/src/refresh_timer.rs:80-92 | no effect when early; otherwise one period on from where it was, not from now |
| RefreshTimers.RefreshTimer.UpdateAt | cotton-ssdp/src/refresh_timer.rs:80-92 | after any calls, the instant depends only on start, seed, phase and the number of effective ones |
| Targets.TargetMatchMeans | cotton-ssdp/src/engine.rs:20-40 | exactly which candidates a search accepts: all, itself, or a later version of the same type |
| Targets.TargetMatchPreorder | cotton-ssdp/src/engine.rs:20-40 | acceptance is reflexive and transitive, and "ssdp:all" accepts everything |
| Targets.LaterVersionsMatch | cotton-ssdp/src/engine.rs:20-40 | of types written with their version after the last colon, a search accepts just those with the same base and a version no lower |
| Targets.RewriteKeepsRest | cotton-ssdp/src/engine.rs:42-60 | a URL without "://" is left alone; otherwise the scheme is kept, the text up to the first colon or slash goes, and the rest is kept if there is a slash in it |
| Targets.RewriteLastWins | cotton-ssdp/src/engine.rs:42-60 | rewriting with an IPv4 address and then another is rewriting with the other |
| Targets.V4Plain | cotton-ssdp/src/engine.rs:50-52 | an IPv4 address as text has neither colon nor slash |
| Targets.DecimalReads | cotton-ssdp/src/engine.rs:30-36 | a number written in decimal reads back as itself if it is in range and not otherwise, with or without a plus sign |
| Targets.DecimalDigits | cotton-ssdp/src/engine.rs:30-36 | with no leading zero there is only one way to write a number |
| Targets.NoNumber | cotton-ssdp/src/engine.rs:30-36 | nothing, a sign alone, and anything with a character that is no digit are not numbers |
| Messages.Parse | cotton-ssdp/src/message.rs:36-104 | the line-by-line loop computes the specified reading of a packet |
| Messages.TextParses | cotton-ssdp/src/message.rs:36-104 | any start line and sound headers read back as exactly those |
| Messages.CaseIgnored | cotton-ssdp/src/message.rs:44-50 | texts whose header names differ only in case, letter by letter, parse alike |
| Messages.LowerCaseResponse | cotton-ssdp/src/message.rs:44-50 | a response with the headers st, Usn and location is read |
| Messages.LinesAre | cotton-ssdp/src/message.rs:39-44 | lines ended by CRLF or LF, the last perhaps by nothing, are read as those lines |
| Messages.TrimStrips | cotton-ssdp/src/message.rs:44-50 | white space on both sides of a value goes and nothing else |
| Messages.InterpretMeans | cotton-ssdp/src/message.rs:52-103 | which start line and headers make each of the four messages, in both directions; anything else is bad data |
| Messages.ErrorsAre | cotton-ssdp/src/message.rs:36-43 | UnexpectedEof exactly for an empty packet; InvalidData for what is not UTF-8 |
| Messages.MessageCursor.WriteStr | cotton-ssdp/src/message.rs:122-133 | writes all of a piece or, if it does not fit, none |
| Messages.MessageCursor.Write | cotton-ssdp/src/message.rs:138-147 | a message is cut off before the first piece that does not fit |
| Messages.WrittenWhole | cotton-ssdp/src/message.rs:122-133 | a message that fits is written whole |
| Messages.WrittenCut | cotton-ssdp/src/message.rs:122-133 | one that does not is cut after the last piece up to which it fits |
| Messages.Utf8Reads | cotton-ssdp/src/message.rs:123 | the length of a character is that of an encoding that reads back as the character |
| Messages.PiecesText | cotton-ssdp/src/message.rs:136-224 | the pieces of every builder, put together, are its start line and headers in order |
| Messages.SearchText | cotton-ssdp/src/message.rs:136-148 | the whole text of a search, header by header |
| Messages.ResponseText | cotton-ssdp/src/message.rs:151-171 | that of a response |
| Messages.NotifyText | cotton-ssdp/src/message.rs:174-199 | that of an announcement |
| Messages.ByeByeText | cotton-ssdp/src/message.rs:202-224 | that of a farewell |
| Messages.SearchRoundTrip | cotton-ssdp/src/message.rs:136-148 | parsing inverts `build_search`, with MX 5 |
| Messages.ResponseRoundTrip | cotton-ssdp/src/message.rs:151-171 | parsing inverts `build_response` |
| Messages.NotifyRoundTrip | cotton-ssdp/src/message.rs:174-199 | parsing inverts `build_notify` |
| Messages.ByeByeRoundTrip | cotton-ssdp/src/message.rs:202-224 | parsing inverts `build_byebye` |
| Messages.ForeignSearch | cotton-ssdp/src/message.rs:85-97 | a search from elsewhere with any MX below 256 is read as it is |
| EngineState.ByeByeReads | cotton-ssdp/src/engine.rs:602-643 | the farewell reads back with the right type and name although the arguments change names twice on the way |
| EngineState.AliveReads | cotton-ssdp/src/engine.rs:91-114 | an announcement that fits reads back as the advertisement, with the sending address in its URL |
| EngineState.WithoutIpMeans | cotton-ssdp/src/engine.rs:565-571 | one occurrence of the address goes, the others stay |
| EngineState.DelayBounds | cotton-ssdp/src/engine.rs:368-374 | a reply is due 10 to min(1000 MX, 5000) + 9 ms after the search: 10 and what whole windows of that length leave of the seed |
| EngineRuns.AlwaysCovered | cotton-ssdp/src/engine.rs:160-686 | at every moment of every run, each advertisement has been announced from each current address, and each subscription searched for, since the later of the events that made the two current |
| EngineRuns.RepliesStand | cotton-ssdp/src/engine.rs:364-416 | at every moment of every run, the three-valued reply state says exactly whether none, one or several senders have asked since the last flush or renewal, and is due when the first of them was promised |
| EngineRuns.WhoIsAnswered | cotton-ssdp/src/engine.rs:185-213 | at a timeout that finds the reply due, each of those senders is answered if and only if there is just one or some address is current; nobody is then waiting |
| EngineRuns.DroppedReplies | cotton-ssdp/src/engine.rs:187-192 | a run in which two are waiting, nothing is sent, and the reply is forgotten |
| EngineRuns.ZeroMxPanics | cotton-ssdp/src/engine.rs:368-370 | a datagram that makes the remainder divide by zero |
| EngineEvents.CurrentByEvents | cotton-ssdp/src/engine.rs:482-571 | at every moment of every run an address is current if and only if its interface was joined by a multicast link event and not deleted since, the latest multicast link event said up, and the address, an IPv4 one, was added since and not deleted since |
| EngineEvents.ByeByeCalls | cotton-ssdp/src/engine.rs:355-363 | a datagram that `build_byebye` writes calls back ByeBye with its type and name: once for each subscription that accepts the type, in order, and nobody else |
| EngineEvents.NotifyCalls | cotton-ssdp/src/engine.rs:344-354 | likewise one that `build_notify` writes calls back Alive |
| EngineEvents.ResponseCalls | cotton-ssdp/src/engine.rs:417-429 | likewise one that `build_response` writes calls back Alive |
| EngineEvents.SearchCalls | cotton-ssdp/src/engine.rs:364-416 | a search calls nobody back |
| EngineEvents.SalvoByEvents | cotton-ssdp/src/engine.rs:175-236 | at every moment of every run the next salvo is due when the start or last reset, the seed and the number of salvos since put it |
| EngineEvents.AnnouncementHeard | cotton-ssdp/src/engine.rs:289-301 | a subscription or advertisement: those listening to the multicast address read the search or announcement, from every current address |
| EngineEvents.WithdrawalHeard | cotton-ssdp/src/engine.rs:671-685 | a withdrawal: they read the farewell with the right type and name; of an unknown name nothing is sent |
| EngineEvents.SalvoHeard | cotton-ssdp/src/engine.rs:175-257 | a salvo, a refresh, and an address becoming current: they read every advertisement and a search for every subscription, or for everything |
| EngineEvents.ReplyHeard | cotton-ssdp/src/engine.rs:195-211 | a single searcher reads the reply, from the address it asked, for the type it asked for or, if it asked for everything, the advertisement's own |
| EngineEvents.NothingSent | cotton-ssdp/src/engine.rs:335-571 | data received, a deleted link or address, and a timer reset send nothing |
| EngineEvents.ConstantsAgree | cotton-ssdp/src/message.rs:136-199 | HOST is the multicast address and port written out; max-age is the age that gaps between salvos are under half of |
| Engines.Engine.SendOnAll | cotton-ssdp/src/engine.rs:116-129 | sent from every address of every interface that is up, and from nowhere else |
| Engines.Engine.SendAll | cotton-ssdp/src/engine.rs:452-470 | each address announces every advertisement and searches for every subscription, or for everything, and sends nothing else |
| Engines.Engine.Advertise | cotton-ssdp/src/engine.rs:646-664 | announced from everywhere current and nothing else sent; replaces any of that name, with no reply needed |
| Engines.Engine.Deadvertise | cotton-ssdp/src/engine.rs:671-685 | removed, with a farewell from everywhere current; nothing sent for an unknown name |
| Engines.Engine.Subscribe | cotton-ssdp/src/engine.rs:289-301 | added, and searched for from everywhere current; nothing else sent |
| Engines.Engine.OnNewLink | cotton-ssdp/src/engine.rs:482-514 | the interface table after it; exactly the addresses that become current are introduced |
| Engines.Engine.OnDelLink | cotton-ssdp/src/engine.rs:526-535 | the interface goes even if leaving the group fails; nothing is sent |
| Engines.Engine.OnNewAddr | cotton-ssdp/src/engine.rs:542-558 | a new IPv4 address of a known interface is added; it is introduced exactly if it becomes current |
| Engines.Engine.OnDelAddr | cotton-ssdp/src/engine.rs:565-571 | one occurrence of the address leaves that interface; nothing is sent |
| Engines.Engine.Refresh | cotton-ssdp/src/engine.rs:239-257 | everything is sent again from everywhere current, and nothing else |
| Engines.Engine.FlushAll | cotton-ssdp/src/engine.rs:185-213 | every reply that is due is made, to its one searcher or from everywhere current; the rest are untouched; nothing else is sent |
| Engines.Engine.HandleTimeout | cotton-ssdp/src/engine.rs:175-214 | a salvo that is due renews everything and moves the timer on one period and phase; every reply that is due is made and forgotten; nothing else is sent |
| Engines.Engine.PollTimeout | cotton-ssdp/src/engine.rs:217-231 | the least of the refresh instant and all reply instants |
| Engines.Engine.CatchUp | cross/rp2040-w5500/src/bin/rp2040-w5500macraw-ssdp-rtic.rs:258-261 | the caller's loop is a series of timeouts that ends, within one call more than the whole six-second periods overdue, with nothing due |
| Engines.Engine.CallSubscribers | cotton-ssdp/src/engine.rs:303-318 | exactly the subscriptions whose type accepts the notification are called, in order |
| Engines.Engine.OnSearch | cotton-ssdp/src/engine.rs:375-415 | what a search does to every advertisement's reply state |
| Engines.Engine.OnData | cotton-ssdp/src/engine.rs:335-430 | who is called, in order, and what is scheduled for each kind of message; nothing is sent; it panics exactly on a search with MX 0, with nothing changed |
| Engines.Engine.ResetRefreshTimer | cotton-ssdp/src/engine.rs:233-236 | the next salvo is due at once, in phase 0; nothing else changes |
| Engines.Engine.Handle | cotton-ssdp/src/engine.rs:160-686 | whatever the event, it is a step of the specification or, for a search with MX 0, a panic |
| Engines.Run | cotton-ssdp/src/engine.rs:160-686 | a new engine taken through any events is a run, so everything current is covered and every pending reply stands for those who have asked |
| Pools.Pool.AllocInternal | cotton-usb-host/src/async_pool.rs:115-124 | the least free number; None exactly when all are live |
| Pools.Pool.DeallocInternal | cotton-usb-host/src/async_pool.rs:126-135 | the number is free again, and the latest task left pending is woken |
| Pools.Pool.TryAlloc | cotton-usb-host/src/async_pool.rs:165-170 | a fresh number below the total, or None exactly when all are live |
| Pools.Pool.Poll | cotton-usb-host/src/async_pool.rs:87-95 | the same, and a task left pending is registered with the pool full |
| Descriptors.ParseDescriptors | cotton-usb-host/src/wire.rs:336-374 | on any bytes the walk stays in bounds, ends, and makes the specified callbacks |
| Descriptors.WalkVisitsAll | cotton-usb-host/src/wire.rs:336-374 | on well-formed descriptors it visits each it reaches, once, in order |
| Descriptors.ParseComplete | cotton-usb-host/src/wire.rs:339-345 | it makes every callback if and only if the last descriptor is longer than its header or has none to make |
| Descriptors.ItemsEndpoints | cotton-usb-host/src/usb_bus.rs:316-327 | from bytes laid out as the USB specification has them, the endpoints found are just those between the chosen configuration and the next, each with its direction and number; descriptors of a wrong size or another type make no difference |
| Descriptors.SpecificConfiguration.OnConfiguration | cotton-usb-host/src/usb_bus.rs:316-318 | whether the section is the chosen one |
| Descriptors.SpecificConfiguration.OnEndpoint | cotton-usb-host/src/usb_bus.rs:319-327 | the endpoint joins the bitmap of its direction, in the chosen section only |
| Descriptors.Configure | cotton-usb-host/src/usb_bus.rs:666-674 | the bitmaps are exactly the endpoints in the chosen configuration's section |
| Descriptors.UsbDevice.Open | cotton-usb-host/src/usb_bus.rs:147-180 | opens exactly the device's own non-zero endpoints, each at most once |

## Left out

- Raw register addresses, delays, interrupt masking and waker registration in the RP2040 driver; that a wake-up is never lost is not claimed.
- Packetiser, Depacketiser and Transfer: the traits' two implementations are one class with a direction; the driver is polled at any time, not only when an interrupt wakes it.
- Toggles after a timeout, CRC or similar error, and after a stall on an OUT endpoint: the code neither updates nor resets them.
- The control-transfer wrapper round the loop (a SETUP packet and a status stage of fixed form), interrupt pipes (one packet at a time), and the table of hub pipes (one slot a hub).
- HubProtocol: setting up a hub after it has its address is only a number of transfers that may fail; descriptor contents other than the hub class are not modelled.
- Targets of fewer than 64 bits, where a version number of a type has a lower limit; no proof depends on it.
- Wake-ups for several waiters of a pool at once: there is a single waker slot.
- Decoding UTF-8: a packet is its text or nothing; lengths are counted in UTF-8 bytes.
- Messages that do not fit their buffer: how they are cut is modelled, what a cut one parses to is not.
- The order in which the engine visits its maps, and multicast group membership beyond whether joining and leaving succeed.
- cotton-scsi, cotton-usb-host-msc, cotton-netif, cotton-w5500, cotton-unique, the UDP socket modules, Service and AsyncService, and the cross and systemtests directories: fixed layouts, I/O or thin wrappers.
