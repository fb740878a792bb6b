# adb-tcp-bridge: verified model

A bridge daemon that serves the ADB transport protocol on TCP ports, one bridge per device, on top of an ADB or an
HDC server. This project models its four stateful parts in Dafny and proves what they promise.

* **The stream multiplexer** (`Multiplexer`, `StreamInvariant`, `CloseDiscipline`, `FlowControl`, `RequestsByID`,
  `HonestClient`, `LocalIDs`, `IDWrap`, `StreamIntegrity`, `LateAck`, `Handshaking`, `Openings`,
  `OutboundIDs`, `Closings`). One client connection carries many streams. The
  read loop, the streams' goroutines, the reverse listeners, the closer and the client are steps of one machine; all statements
  are about every run of it. `Wire` and `Emissions` refine the shared connection to single `Write` calls, `Adbwire` to
  bytes. `Line` is the session's side of the connection: every packet written is recorded with its writer, and the bytes
  on the connection are those of the record. `Service` holds the session and the stream objects, the read loop and the
  goroutine bodies as imperative code, and proves that they take only the machine's steps, and put exactly the machine's
  packets on that connection, while other goroutines act between any two statements.
* **The daemon's lifecycle** (`BridgeTable`, `ManagerRuns`, `FailureClock`, `Handoff`, `Upgrade`, `InheritFds`). The bridge table
  as a class and under every interleaving of its actors; the failure clock against whole histories; the restart as a
  machine of two processes, their descriptor tables, the ready pipe and a failure or crash at every step; `Upgrade` holds
  the old process's code, with its list of files, and proves that it takes only that machine's steps.
* **The HDC data path** (`HdcChannel`, `Protobuf`, `FilePush`, `Sync`, `BufferedPipe`, `ShellQuote`, `Forward`).
* **The reverse forwards** (`Reverse`): the mapping table, its listeners and the device's own table.

Round trips say that both sides of a format agree; `WireFormats` says what the formats are, byte by byte.

`Bytes` and `Streams` hold machine words, byte strings and the two ends of a connection.

## Reading the statements

* A connection to read from holds the bytes still to come and how it ends; one to write to takes some number of bytes
  and then fails for ever. That a failed `Write` is final is the one assumption made of a connection (`Streams`, `Wire`).
* `Sent`, `Torn` and `Refused` are the outcomes of a packet write: whole, cut by a failing `Write`, or turned away
  because the session is closed or the connection has failed.
* Outcomes of dialing, timeouts, randomness, device answers and reads of any size are free choices, or are given as
  arguments (`Luck` in `Upgrade`, `words` and `quiet` in `Forward`); the statements hold for all of them. `HonestClient` is the only place that restricts the client: it answers no OPEN or WRTE twice.
* In the multiplexer a stream is known by the order of its creation, so that reused local IDs can be told apart; `log`
  fields record what a stream did and are read by no step. An unregistered stream is registered by the goroutine that
  created it, which is the condition `Fresh` on those two steps.
* `info.State` is always "running" in the source, so a serial is taken if it is in the table.
* A stream "gave up" a write (`gaveUp`) when it found no remote ID to send it to, or was closed while waiting for its token.
* In the restart, "dropped" bridges are those reaped, exited or stopped since the snapshot; statements about sockets are
  for the others. The deferred closes of a failed handoff are one step with the end of the handoff.
* A fresh port for `tcp:0` is one the device's table did not hold; the agreement of the tables rests on it, because
  otherwise the eviction of the resolved socket would kill the forward just made.

## Where the code does not do what one might expect

* A stream can be opened, with a remote ID, and never send CLSE (`LateAck.OpenedAfterSilence` has such a run). That
  happens if and only if finish finds the stream unopened while the read loop, which looked it up before it left the map,
  is about to hand it an OKAY (`LateAck.ClosedUnlessRaced`).
* After 2^32 - 1 streams local IDs are given out again, and an OKAY meant for an old stream can reach a new one, whose
  own token is then thrown away even though the client answered every request once (`IDWrap.DropAfterWrap`).
* The ready byte does not keep the new daemon alive: if it dies after writing it, the sockets are lost
  (`Handoff.LateDeathLosesControl`); they are lost in no other way (`Handoff.LostOnlyByLateDeath`).
* A new daemon that returns an error after it became ready removes the socket file on its way out, also
  when the old daemon then serves on (`Handoff.ErrorReturnRemovesSocketFile`; `Handoff.AllOrNothing` states exactly when
  the file is gone).
* A new daemon serves Start as soon as it is ready, so it may listen on bridges of its own before the old one is gone
  (`Handoff.StartsBeforeOldIsGone`).
* A payload change goes unnoticed if the sent checksum is zero (`Adbwire.CorruptionRejected`).
* A pull whose connection ends right after a frame's length is reported as complete (`HdcChannel.CleanEnd`,
  `HdcChannel.CutAfterLengthLooksClean`).
* A `killforward-all` leaves listeners open if and only if a device call before the last one returns an error
  (`Reverse.ReverseManager.KillAll`, `Reverse.LeakAfterFailedCall`); a refusal by the device does not stop it.
* A push to a path so long that its configuration exceeds one 16 MiB frame is not understood by the device
  (`FilePush.DeviceDecodes`).

## Model

| member | source | states |
|---|---|---|
| `HonestClient.TokensAreConserved` | src/internal/bridge/service.go:189-255 | with a client that answers each OPEN and WRTE at most once, while no local ID was given out twice (up to 2^32 - 1 streams): `ack` drops no token, and a registered stream that has not begun to finish waits exactly when one request, OKAY in flight, OKAY being handed over or token of its own is outstanding |
| `IDWrap.NoDropsUntilWrap` | src/internal/bridge/service.go:189-197 | that bound is exact: with such clients no run of at most n streams drops a token if and only if n <= 2^32 - 1 |
| `FlowControl.AtMostOneUnanswered` | src/internal/bridge/service.go:114-130 | with any client, in every run: the OPENs and WRTEs a stream has written exceed the OKAYs taken for its ID since its registration by at most one |
| `StreamInvariant.RunKeepsInv` | src/internal/bridge/session.go:106-146 | the invariant of all streams and of the service map holds in every state of every interleaving |
| `StreamInvariant.StepKeepsInv` | src/internal/bridge/service.go:43-147 | every step a stream's goroutine takes alone keeps its invariant: control, addresses, buffer and token count |
| `StreamInvariant.SaidKeepsInv` | src/internal/bridge/service.go:235-255 | so does every packet it writes, whatever the outcome of the write |
| `CloseDiscipline.AtMostOneClose` | src/internal/bridge/service.go:210-227 | in every run a stream writes one greeting at most, then WRTEs, then at most one CLSE, and is out of the service map when it writes the CLSE |
| `CloseDiscipline.FinishedStreamHasClosed` | src/internal/bridge/service.go:210-227 | in an open session with a whole connection a finished stream has written its CLSE last, or finish chose silence; a silent stream wrote at most an OPEN, and one still unopened and without remote ID was silent (when silence breaks the promise: `LateAck.ClosedUnlessRaced`) |
| `CloseDiscipline.SilenceWasDecided` | src/internal/bridge/service.go:215-218 | silence was chosen in a state in which the stream was found unopened after a zero remote ID had been loaded |
| `LateAck.ClosedUnlessRaced` | src/internal/bridge/service.go:210-227 | exactly when the close discipline holds: once no OKAY is being handed to it, a finished stream has closed, or was never opened and has no remote ID, if and only if the read loop was not about to hand it an OKAY when finish found it unopened; otherwise it stays opened with that OKAY's remote ID and no CLSE |
| `LateAck.FinishedHasDecided` | src/internal/bridge/service.go:215-218 | every finished stream has such a moment of decision |
| `LateAck.OpenedAfterSilence` | src/internal/bridge/service.go:189-197 | a run in which an OKAY looked up before the removal opens the stream, with a remote ID, after finish chose silence |
| `StreamIntegrity.ForwardedIsPrefixOfRead` | src/internal/bridge/service.go:91-112 | in every run the WRTE payloads of a pumping stream are, end to end, a prefix of what its conn gave, and each has from 1 byte to the maxPayload in force at an earlier moment, when its pump started |
| `StreamIntegrity.BufferIsLimit` | src/internal/bridge/service.go:92 | the pump's one buffer has exactly the size of the payload limit negotiated when the pump started, whatever is negotiated later |
| `StreamIntegrity.ForwardedByID` | src/internal/bridge/service.go:91-112 | the same for all WRTEs with the stream's ID on the connection as long as no ID was given out twice; and nothing is missing when the buffer is empty |
| `StreamIntegrity.AllForwarded` | src/internal/bridge/service.go:91-112 | in an open session with a whole connection a finished stream has forwarded every byte its conn gave, unless it gave up a write for want of a remote ID or because it was closed while waiting for a token |
| `StreamIntegrity.DeliveredIsPrefixOfWritten` | src/internal/bridge/session.go:248-261 | in every run the bytes a conn accepted are a prefix of the payloads of the client's WRTEs for that ID since registration, and all of them when the read loop is idle |
| `RequestsByID.RunKeepsAskedByOwner` | src/internal/bridge/session.go:272-282 | while IDs are distinct, the OPENs and WRTEs with an ID were all written by the one stream that has it |
| `LocalIDs.RunKeepsNumbered` | src/internal/bridge/session.go:272-282 | the n-th stream created has the ID 1 + n mod (2^32 - 1) |
| `LocalIDs.DistinctUntilWrap` | src/internal/bridge/session.go:272-282 | no ID has been given out twice if and only if at most 2^32 - 1 streams were created |
| `LocalIDs.MapIsReliable` | src/internal/bridge/session.go:284-300 | if no stream outlives 2^32 - 2 later ones, putService overwrites nothing, removeService deletes its caller's own entry, and a stream in use is found under its ID |
| `Wire.StepRefinesEmission` | src/internal/bridge/session.go:302-309 | every single Write is no step, a close, or exactly one allowed emission of the packet-level machine |
| `Wire.WireIsPacketPrefix` | src/internal/adbwire/packet.go:104-121 | for every interleaving of writers the bytes sent are a prefix of whole packets in the order of the lock |
| `Wire.ClientReadsWholePackets` | src/internal/adbwire/packet.go:66-121 | decoding the bytes sent at any moment gives exactly the packets written whole |
| `CloseDiscipline.OnlyLastIsCut` | src/internal/bridge/session.go:302-309 | in every run only the last packet on the connection can have been cut short, and then the connection has failed |
| `Openings.OpenedKeepsItsID` | src/internal/bridge/session.go:189-201 | in every run, a stream of the client's was asked for by one of its OPENs, with the stream's name, after the client was let in, and is local exactly if the name begins with the ASCII letters `reverse:`; if the OPEN's arg0 is not 0, it is the stream's remote ID ever after, every packet the stream writes goes to it, from the stream's own ID or, as the one CLSE of a stream never opened, from 0; on a whole connection it has closed when it is finished, and it has given up a write only if it was closed while it waited |
| `Openings.EachOpenHasItsStream` | src/internal/bridge/session.go:189-201 | in every run each OPEN taken has made exactly one stream, or was refused, before the client was let in or without a final zero, and ended the read loop |
| `Openings.ConfirmsToItsID` | src/internal/bridge/session.go:248-261 | every OKAY of the read loop goes from the ID of the stream it has just delivered to, to that stream's remote ID, which is the OPEN's arg0 if that is not 0 |
| `OutboundIDs.DataGoesToFirstID` | src/internal/bridge/service.go:189-197 | in every run all WRTEs of a stream that the bridge opens go to the first ID other than 0 from which the client has acknowledged it since its registration, whatever it acknowledges later; in the map it has that ID as soon as the read loop has dealt with the OKAY |
| `Closings.ClosedOnlyWhenAsked` | src/internal/bridge/session.go:263-270 | in every run of an open session a stream in the map that is not finishing is closed if and only if the read loop has dealt with a CLSE for its ID since its registration; outside the map it is closed by its own finish or by such a CLSE only |
| `Handshaking.EachIsAnswered` | src/internal/bridge/session.go:106-187 | in every run the read loop has answered each SYNC, CNXN and AUTH it has taken, in order, and nothing else but OKAYs to WRTEs: SYNC with 1 and the client's arg1; CNXN and accepted AUTH with the version and limit settled by then and the device's name; CNXN under authentication with a challenge of 20 bytes; only of the last packet the answer can be missing, while it is under way or after it ended the loop |
| `Handshaking.RunKeepsShake` | src/internal/bridge/session.go:106-127 | in every run version, payload limit and authorization are what the packets taken have settled: the least of the last CNXN's version and 0x01000000, the least of the last nonzero limit and 65536 (4096 before there is one), and authorized exactly after a CNXN without authentication, or a signature or public key with it |
| `Handshaking.EveryCnxn` | src/internal/bridge/session.go:180-187 | every CNXN sent carries what some first part of the client's packets has settled, a version of at most 0x01000000, a limit from 1 to 65536, and the device's name with a zero after it |
| `Handshaking.DispatchAnswers` | src/internal/bridge/session.go:106-146 | for each packet what it settles, when it has an answer and which, and that the loop ends with it exactly if it is a CNXN without random bytes for its challenge, an AUTH of another kind, a refused OPEN or an unknown command |
| `Handshaking.StopsForCause` | src/internal/bridge/session.go:80-96 | the read loop ends only when reading fails, with such a packet, or when a write or a delivery fails |
| `Service.Service.Run` | src/internal/bridge/service.go:43-70 | the body of run, with others acting between any two statements, on the stream, the connection, the payload limit and the map: after a successful dial the packets on the connection in the stream's name are an OKAY, WRTEs that carry the dialed connection's bytes, all of them unless a write was given up or nothing more could be written, and at most one CLSE, last; no WRTE exceeds the one buffer, whose size was the payload limit; they are the machine's record, the last is the CLSE unless finish chose silence or nothing more could be written, and the stream is out of the map. If its remote ID was not 0 at the start, all of them go to that ID, from the stream's own (the CLSE of one never opened from 0), it was not silent, and it gave up only because it was closed while it waited |
| `Service.Service.RunOutbound` | src/internal/bridge/service.go:72-86 | the same for an outbound stream, which begins with its OPEN |
| `Service.Service.SendPayloadAndClose` | src/internal/bridge/service.go:135-147 | the same for a locally answered stream, the remote ID included; its packets are one OKAY, one WRTE with exactly the reply, and the CLSE; less than OKAY and WRTE only if the write was given up or nothing more could be written |
| `Service.Service.Pump` | src/internal/bridge/service.go:91-112 | the read loop over one array of the size that maxPayload has at the start: what is written on the connection are WRTEs of at most that size that carry, end to end, what the conn gave: all of it, or a prefix if a write was given up (no remote ID, or closed while waiting) or nothing more could be written |
| `Service.Service.PumpOnce` | src/internal/bridge/service.go:94-111 | one round: the slice read is the payload of the WRTE written, and the array is filled again only after a token was taken; the pump stops only when the conn has ended, a write was given up or nothing more could be written |
| `Service.Service.SendWriteAndWaitAck` | src/internal/bridge/service.go:235-255 | the WRTE is on the connection under the stream's remote ID, or was withheld for want of a remote ID or of a connection; true only if it was written and a token taken, false only if it was given up or nothing more could be written |
| `Service.Service.SendOpenAndWaitAck` | src/internal/bridge/service.go:114-130 | the OPEN is on the connection, or nothing more can be written; true only if a token followed |
| `Service.Service.AwaitAck` | src/internal/bridge/service.go:124-129 | the select takes the token or sees the close |
| `Service.Service.Finish` | src/internal/bridge/service.go:210-227 | close, removal from the map under its own ID, then one CLSE on the connection, or silence, or nothing on a connection that takes no more; the stream is not in the map afterwards, whatever others have registered, removed or drained |
| `Service.Service.Say` | src/internal/bridge/session.go:302-309 | a packet handed to the session is the machine's next packet of this stream, and goes out in its name, whole or cut, or is turned away |
| `Service.Service.Ack` | src/internal/bridge/service.go:189-197 | the remote ID is kept unless it was 0, the stream is opened, and there is a token, one at most; these are the machine's three steps |
| `Service.Service.Close` | src/internal/bridge/service.go:199-208 | closes once, and with it a conn attached by then |
| `Service.Service.Write` | src/internal/bridge/service.go:149-158 | without a conn nothing is taken; with one, a prefix, and all on success |
| `Service.HistoryKeepsInv` | src/internal/bridge/service.go:43-147 | any history of a stream keeps the stream invariant, and what it wrote is what its record says |
| `Service.Session.Run` | src/internal/bridge/session.go:63-97 | the packets handled are, in order, those the client's bytes decode to: all of them, or up to one refused, which then was an OPEN, AUTH, challenge or command that ends the loop, or could not be delivered or answered; none before it was of that kind; handshake, ID counter and the streams of the map are what the machine's dispatch of these packets makes of them, but for the stream a refused packet was for; then the session is closed with all its streams and an empty map |
| `Service.Session.HandlePacket` | src/internal/bridge/session.go:106-146 | SYNC is answered with SYNC, CNXN and AUTH settle version, limit and authorization and are answered with CNXN or a challenge, with the values given for `HandleCnxn` and `HandleAuth`; an OPEN let through adds one stream with the packet's name and arg0 as its remote ID, and no other effect; OKAY, WRTE and CLSE have their effect on the addressed stream and on no other; it fails only for a packet that ends the loop, or one not delivered or answered |
| `Service.Session.HandleStreamPacket` | src/internal/bridge/session.go:189-270 | OPEN, OKAY, WRTE and CLSE each have their own effect on the new or the addressed stream, and on no other; only a WRTE taken whole is answered |
| `Service.Session.HandleCnxn` | src/internal/bridge/session.go:112-127 | the version becomes the least of the packet's and 0x01000000, the limit, unless the packet's is 0, the least of the packet's and 65536; the answer on the connection is CNXN with both and the device's name and a zero, or AUTH(1, 0) with the random bytes |
| `Service.Session.HandleAuth` | src/internal/bridge/session.go:161-178 | a signature (2) or public key (3) authorizes and is answered with that CNXN; other methods are refused; without authentication nothing is answered |
| `Service.Session.HandleOpen` | src/internal/bridge/session.go:189-201 | refused before authorization or without a final zero; otherwise one service under the next ID, with the packet's arg0 as its remote ID, the payload without the zero as its name, local exactly if that begins with `reverse:`, and not yet opened, closed, attached or acknowledged |
| `Service.Session.HandleOkay` | src/internal/bridge/session.go:239-246 | acknowledges the addressed stream, or does nothing |
| `Service.Session.HandleWrite` | src/internal/bridge/session.go:248-261 | the addressed conn takes the payload and then the OKAY is written, whole or cut or turned away; or it takes a prefix and nothing is written |
| `Service.Session.HandleClose` | src/internal/bridge/session.go:263-270 | closes the addressed stream, or does nothing |
| `Service.Session.StartService` | src/internal/bridge/session.go:232-237 | one new service of the kind, name and remote ID given, filed under the ID just allocated, as its goroutine expects it; the others are as before |
| `Service.Session.StartedIsAtStart` | src/internal/bridge/session.go:232-237 | a service just started meets what the bodies of its goroutine require |
| `Service.Session.AllocateLocalID` | src/internal/bridge/session.go:272-282 | returns the counter and moves it on past 0 |
| `Line.Line.WritePacket` | src/internal/bridge/session.go:302-309 | the record of emissions grows by exactly this packet of exactly this writer, whole or cut, or by nothing on a closed session or failed connection |
| `Line.Line.ClientReadsRecord` | src/internal/adbwire/packet.go:66-121 | decoding what is on the connection gives exactly the packets the record calls whole |
| `Service.Session.Close` | src/internal/bridge/session.go:311-333 | after it nothing is registered and every service that was is closed, otherwise unchanged |
| `WireFormats.PacketLayout` | src/internal/adbwire/packet.go:104-121 | the bytes of every packet: the words command, arg0, arg1, length and byte sum, each least significant byte first, then four bytes that are 255 minus those of the command, then the payload |
| `WireFormats.PacketIsRead` | src/internal/adbwire/packet.go:66-102 | a stream begins with a packet if and only if it has 24 bytes of which the last four complement the first four, a length of at most 16 MiB and as many bytes after the header, and a checksum that is 0 or their sum; it is then read as those words and bytes |
| `WireFormats.CommandNames` | src/internal/adbwire/packet.go:21-30 | each command is the four ASCII letters of its name |
| `Adbwire.DecodeAllEncodeAll` | src/internal/adbwire/packet.go:66-121 | for any packets of up to 16 MiB and any bytes after them: reading all gives the packets, then what the rest holds, and leaves its remains |
| `Adbwire.DecodeEncode` | src/internal/adbwire/packet.go:66-121 | one packet is read back and the bytes after it are left |
| `Adbwire.DecodeCut` | src/internal/adbwire/packet.go:66-102 | a packet cut anywhere is not read as a packet |
| `Adbwire.ChecksumIsByteSum` | src/internal/adbwire/packet.go:54-60 | the 32-bit checksum of up to 16 MiB never wraps: it is the integer sum |
| `Adbwire.CorruptionRejected` | src/internal/adbwire/packet.go:90-99 | a changed payload byte is rejected if and only if the sent checksum is not zero |
| `Adbwire.Checksum` | src/internal/adbwire/packet.go:54-60 | the loop computes the byte sum modulo 2^32 |
| `Adbwire.ReadPacket` | src/internal/adbwire/packet.go:66-102 | reads and fails exactly as the decoder, consuming the same bytes |
| `Adbwire.WritePacket` | src/internal/adbwire/packet.go:104-121 | two writes that leave the packet's encoding, or as much of it as the connection takes |
| `ManagerRuns.LeavesOnce` | src/internal/daemon/manager.go:129-180 | in every interleaving: one item per serial under its own serial, and an item leaves the table at most once |
| `ManagerRuns.RemovedBy` | src/internal/daemon/manager.go:163-177 | over a whole run an item in the table at one time is out of it at a later time if and only if in between a remover named its serial or its own goroutine exited: no other exit has removed it |
| `ManagerRuns.OutsideIsEnding` | src/internal/daemon/manager.go:249-380 | an item outside the table is cancelled, about to be cancelled by its remover, or through with serving |
| `ManagerRuns.OpenListenersAreTheTable` | src/internal/daemon/manager.go:146-162 | when nothing is under way the open listeners are exactly those of the table: losers of a Start race have closed theirs |
| `ManagerRuns.ServingBridgeListens` | src/internal/daemon/manager.go:129-180 | a bridge that serves uncancelled has its listener open |
| `BridgeTable.Manager.StartItem` | src/internal/daemon/manager.go:129-162 | registers the item, or refuses a taken serial and closes the listener |
| `BridgeTable.Manager.ServeExit` | src/internal/daemon/manager.go:163-177 | removes the entry only if it is still this item |
| `BridgeTable.Manager.Stop` | src/internal/daemon/manager.go:249-267 | takes out and cancels exactly the named item |
| `BridgeTable.Manager.StopAll` | src/internal/daemon/manager.go:294-315 | empties the table and cancels every item |
| `BridgeTable.Manager.OnBackendResult` | src/internal/daemon/manager.go:319-334 | moves the named clock as the history says and no other |
| `BridgeTable.Manager.ReapExpired` | src/internal/daemon/manager.go:353-380 | takes out and cancels exactly the expired items |
| `BridgeTable.Manager.Snapshot` | src/internal/daemon/manager.go:237-246 | every item once, its record with its own listener, serials distinct |
| `FailureClock.ClockIsFirstFailure` | src/internal/daemon/manager.go:319-334 | for every history: a clock shows t if and only if the first failure since the latest success or registration was at t |
| `FailureClock.ReapRemovesExactlyTheExpired` | src/internal/daemon/manager.go:353-363 | a reap removes a serial if and only if that failure is at least cleanAfterFailure old |
| `Handoff.SocketsStayOpen` | src/internal/daemon/upgrade_unix.go:36-161 | over all interleavings, crashes and repeated restarts: a handed-over socket of a bridge not dropped is open exactly while the old process has not begun to exit or the new one lives, and without a crash the old one lets go only after the new one took over |
| `Handoff.HandedOffAfterTakeover` | src/internal/daemon/upgrade_unix.go:130-161 | whenever the old process has confirmed, is exiting or has exited in good order, there was an earlier or present moment of the same handoff in which the new process was ready and listened on every socket handed over and on no other |
| `Handoff.LostOnlyByLateDeath` | src/internal/daemon/upgrade_unix.go:143-161 | after such an exit a handed-over socket is lost if and only if the new process died after that moment |
| `Handoff.AllOrNothing` | src/internal/daemon/upgrade_unix.go:208-242 | without a crash of the old process: back to serving with no trace of the handoff, or gone after the new process took over every socket handed over and nothing else; unless it died after that, it still listens on them, on bridges it has started itself since, and on nothing else; the socket file is there unless a new process removed it when it returned an error |
| `Handoff.RunKeepsInv` | src/internal/daemon/handler.go:102-114 | the tables of both processes match their progress in every run; requests are accepted exactly while no handoff runs |
| `Handoff.LateDeathLosesControl` | src/internal/daemon/upgrade_unix.go:143-161 | a run in which the new process dies after its ready byte and the control socket is lost |
| `Handoff.StartsBeforeOldIsGone` | src/internal/daemon/server.go:101-124 | a run in which the new process listens on a bridge of its own before the old one is gone |
| `Handoff.ErrorReturnRemovesSocketFile` | src/internal/daemon/server.go:81-86 | a run after which the old daemon serves on without its socket file |
| `Upgrade.Server.Handoff` | src/internal/daemon/upgrade_unix.go:36-161 | the body of handoff, with the new process, the reaper and late requests acting between any two statements, and the outcomes of the fallible steps given: the handoff succeeds if and only if the ready byte was there to be read, after every step had succeeded; it fails only if one of the steps failed, a listener was closed meanwhile, or there was no byte when the pipe was read. Then the daemon is back to serving with nothing left behind and no new process alive; else it is about to exit after the new process was ready and listened on every socket handed over |
| `Upgrade.Server.Prepare` | src/internal/daemon/upgrade_unix.go:36-122 | the new process is started unless a step before that failed or a listener was closed meanwhile; every failing step leads back to serving with the duplicates closed, otherwise the new process gets control, the bridges in snapshot order and the write end |
| `Upgrade.Server.AwaitReady` | src/internal/daemon/upgrade_unix.go:130-146 | confirms if and only if the deadline could be set, it had not passed, and the byte was in the pipe; and then the new process had taken over |
| `Upgrade.Server.KillAndWait` | src/internal/daemon/upgrade_unix.go:131-142 | after giving up the new process is dead before requests are accepted again |
| `Upgrade.Server.Dispatch` | src/internal/daemon/handler.go:51-114 | Start and Stop are turned away if and only if a restart is on, a Restart is accepted if and only if none is, unknown requests are refused and all others served; only a Restart changes whether one is on |
| `InheritFds.ParsePrinted` | src/internal/daemon/upgrade_unix.go:92-95 | parsing the printed list of n descriptors gives 3, 4, ... and nothing else |
| `InheritFds.EverySerialKeepsItsListener` | src/internal/daemon/upgrade_unix.go:208-242 | for any snapshot: control first, ready pipe last, and every record is adopted with its own bridge's listener |
| `InheritFds.RestorableUnlessUnusable` | src/internal/daemon/upgrade_unix.go:208-242 | a snapshot can be restored as a whole if and only if every record can be used |
| `WireFormats.NumberIsDecimal` | src/internal/daemon/upgrade_unix.go:92-95 | a descriptor is printed in decimal digits without a leading zero |
| `WireFormats.ListIsCommaSeparated` | src/internal/daemon/upgrade_unix.go:92-95 | and the list is those numbers with a comma between them |
| `InheritFds.ParseInheritFds` | src/internal/daemon/upgrade_unix.go:188-202 | accepts exactly the lists of two or more numbers from 3 up |
| `InheritFds.RestoreInherited` | src/internal/daemon/upgrade_unix.go:208-242 | succeeds exactly on restorable input; pairs record i with descriptor i + 1 up to where it fails |
| `InheritFds.CollectFiles` | src/internal/daemon/upgrade_unix.go:52-83 | control, the listeners in snapshot order, the ready pipe |
| `InheritFds.FdSpec` | src/internal/daemon/upgrade_unix.go:91-101 | the joined numbers from 3 |
| `InheritFds.RestoreStates` | src/internal/daemon/upgrade_unix.go:177-183 | the records in snapshot order |
| `FilePush.PushFile` | src/internal/hdcserver/file_transfer.go:12-101 | a push that succeeds sent the configuration, the whole file in chunks of at most 49152 bytes each under the number of bytes before it, and the close, with the device's three answers in between; one that fails lacked an answer, could not read its file or found the channel full |
| `FilePush.SendChunks` | src/internal/hdcserver/file_transfer.go:60-80 | the chunk loop over one buffer sends the whole file, whatever sizes its reads return, unless the file cannot be read or the channel takes no more |
| `FilePush.DeviceGetsTheFile` | src/internal/hdcserver/file_transfer.go:133-143 | stripping command and 64-byte head from the data commands gives the file |
| `FilePush.DeviceDecodes` | src/internal/hdcserver/channel.go:134-173 | the device decodes exactly the commands of a push if and only if the configuration command, with its paths, fits one frame |
| `Protobuf.VarintRoundTrip` | src/internal/hdcserver/file_transfer.go:156-162 | every uint64 takes at most ten bytes and is read back with the bytes after it untouched |
| `Protobuf.FieldsRoundTrip` | src/internal/hdcserver/file_transfer.go:145-154 | any list of fields is read back in order, whatever follows |
| `Protobuf.AppendVarint` | src/internal/hdcserver/file_transfer.go:156-162 | the loop appends the value's varint |
| `Protobuf.EncodeTransferConfig` | src/internal/hdcserver/file_transfer.go:115-131 | a reader recovers all thirteen fields and nothing is left |
| `Protobuf.EncodeTransferPayload` | src/internal/hdcserver/file_transfer.go:133-143 | the head always fits 64 bytes and is read as the index and, twice, the length |
| `WireFormats.VarintLayout` | src/internal/hdcserver/file_transfer.go:156-162 | a varint holds the value to base 128, least significant first, with the high bit set in each byte but the last |
| `WireFormats.FieldLayout` | src/internal/hdcserver/file_transfer.go:145-154 | a field is one byte of eight times its number, plus 2 for a blob, then the varint, or the length and the bytes |
| `WireFormats.FrameLayout` | src/internal/hdcserver/channel.go:162-173 | a frame is its length in four bytes, most significant first, and the payload |
| `WireFormats.FrameIsRead` | src/internal/hdcserver/channel.go:144-160 | a stream begins with a frame if and only if that length is at most 16 MiB and as many bytes follow |
| `WireFormats.CommandLayout` | src/internal/hdcserver/channel.go:134-142 | a command is a frame of its code in two bytes, least significant first, and its payload |
| `HdcChannel.FramingIsTransparent` | src/internal/hdcserver/channel.go:144-173 | however bytes are cut into frames, the same bytes come out |
| `HdcChannel.FrameRoundTrip` | src/internal/hdcserver/channel.go:144-173 | a frame is read back if it is within 16 MiB, refused otherwise |
| `HdcChannel.CleanEnd` | src/internal/hdcserver/channel.go:144-160 | a stream ends in EOF exactly between two frames or right after the length of a nonempty one |
| `HdcChannel.CutAfterLengthLooksClean` | src/internal/hdcserver/channel.go:144-160 | any frames of which the last is cut right after its length read as a clean stream without the last |
| `HdcChannel.ReadHdcFrame` | src/internal/hdcserver/channel.go:144-160 | reads one frame or its fault |
| `HdcChannel.WriteHdcFrame` | src/internal/hdcserver/channel.go:162-173 | writes the frame whole, or fails |
| `HdcChannel.ChannelConn.Read` | src/internal/hdcserver/channel.go:92-106 | bytes returned and bytes buffered are the payloads of the frames consumed; an error comes only after all of them |
| `HdcChannel.ChannelConn.ReadFull` | src/internal/hdcserver/sync.go:242-247 | fills the array exactly if that many bytes are still to come |
| `HdcChannel.ChannelConn.ReadCommand` | src/internal/hdcserver/channel.go:120-132 | the code and payload of the next frame |
| `HdcChannel.ChannelConn.WriteCommand` | src/internal/hdcserver/channel.go:134-142 | one command frame |
| `HdcChannel.CommandsRoundTrip` | src/internal/hdcserver/channel.go:120-142 | commands within the limit are read back in order |
| `Sync.SentChunksAreTheFile` | src/internal/hdcserver/sync.go:195-218 | for every DATA* DONE sequence the content is the concatenated payloads, and what follows is left |
| `Sync.WholeIsDataDone` | src/internal/hdcserver/sync.go:195-218 | and nothing else has a content: whatever is read as whole is a sequence of DATA requests of at most 16 MiB and a DONE, with that content |
| `WireFormats.SyncLayout` | src/internal/hdcserver/sync.go:403-411 | a header is its four ASCII letters and the number in four bytes, least significant first |
| `WireFormats.RequestIsRead` | src/internal/hdcserver/sync.go:381-401 | a stream begins with a request if and only if it has eight bytes and, but for a DONE, a length of at most 16 MiB and as many bytes |
| `Sync.HandleSend` | src/internal/hdcserver/sync.go:171-225 | OKAY only if the requests were DATA* DONE and the bytes put on the channel are commands whose data, heads stripped, is exactly their content, provided the configuration command fits one frame; no OKAY only if the requests, an answer of the device or the channel failed |
| `Sync.ReceiveFile` | src/internal/hdcserver/sync.go:195-218 | the temporary file is the payloads in order |
| `Sync.HandleRecv` | src/internal/hdcserver/sync.go:227-274 | DONE if and only if the channel's bytes start with the marker and it ends in EOF; the DATA payloads, of 1 to 65536 bytes, are then the bytes after the marker |
| `Sync.CopyChunks` | src/internal/hdcserver/sync.go:256-273 | one DATA per read over one buffer, until the channel ends |
| `Sync.PulledFileArrives` | src/internal/hdcserver/sync.go:403-411 | a client reads the pulled file back from the reply |
| `Sync.AnyFramingPulls` | src/internal/hdcserver/sync.go:241-273 | for any framing of marker and file the pull succeeds with the file |
| `Sync.ReadSyncRequest` | src/internal/hdcserver/sync.go:381-401 | one request, the length of a DONE not being a length |
| `BufferedPipe.AnyRun` | src/internal/hdcserver/sync.go:27-82 | in every run of the two ends each has received, in order, a prefix of what the other wrote |
| `BufferedPipe.Conn.Read` | src/internal/hdcserver/sync.go:43-58 | bytes in order, no empty chunk, EOF only after the peer closed and all was delivered |
| `BufferedPipe.Conn.Write` | src/internal/hdcserver/sync.go:60-74 | all or nothing, nothing after the close |
| `BufferedPipe.Conn.Close` | src/internal/hdcserver/sync.go:76-82 | once; queued chunks stay readable |
| `ShellQuote.QuotedIsOneWord` | src/internal/hdcserver/sync.go:377-379 | a POSIX shell reads a quoted string as exactly itself, alone or as part of a word |
| `ShellQuote.PullCommandTokens` | src/internal/hdcserver/sync.go:276-281 | for every path the shell reads the pull command as the same 30 tokens: if the path is readable and a regular file, print one marker and its content, else print the other and the complaint; the path itself stands in each of its places |
| `WireFormats.MarkerIsPrinted` | src/internal/hdcserver/sync.go:276-281 | what the device prints for the first marker is what the pull looks for before the file |
| `Forward.OpenForward` | src/internal/hdcserver/forward.go:35-85 | over all answers: at most sixteen attempts, each with the next random port from 40000 to 60000, the given node, and a dial of the port just set up; the first two kinds of failure, a busy port and a failed dial, are followed by another attempt, and it fails if and only if one was refused, a connection closed without a byte, or the attempts or the random numbers ran out; every rule set up was removed once, except that of a returned connection |
| `Forward.OpenAndClose` | src/internal/hdcserver/forward.go:199-205 | after any number of closes, at least one, the rules in force are as before |
| `Forward.UndoneLeavesNothing` | src/internal/hdcserver/forward.go:53-78 | attempts that opened nothing leave the rules in force unchanged |
| `Forward.ForwardConn.Close` | src/internal/hdcserver/forward.go:199-205 | removes its rule the first time only |
| `Forward.EnsureForwardAlive` | src/internal/hdcserver/forward.go:90-109 | refuses exactly a connection that is closed without a byte before the probe's time is over; gives back the byte it probed |
| `Forward.PrefixConn.Read` | src/internal/hdcserver/forward.go:214-224 | the device's bytes in order, the probed one first |
| `Forward.RandomForwardPort` | src/internal/hdcserver/forward.go:182-189 | a port from 40000 to 60000 |
| `Reverse.ReverseManager.HandleAll` | src/internal/bridge/reverse.go:37-50 | after any commands: the mappings, under their own locals, with their remotes, are what the commands and the device's answers make of those before (a forward that is answered OKAY maps the socket resolved from the answer, one refused or failed unmaps it if the device was asked, killforward of a mapped socket unmaps it, killforward-all empties the table, nothing else changes it), each forwarded by the device to its listener; the open listeners are exactly those of the table if and only if no killforward-all met a call that returned an error before its last mapping; the device's table is the same table if and only if no extra socket is left on it |
| `Reverse.ReverseManager.Handle` | src/internal/bridge/reverse.go:37-50 | a command is what its prefix says: forward: puts the argument after the colon to the device, killforward: removes the mapping named after it, killforward-all empties the table, list-forward and unknown commands change nothing, and an unknown one answers FAIL |
| `Reverse.SpecIsSpelled` | src/internal/bridge/reverse.go:52-66 | a forward argument is understood if and only if it is an optional `norebind:`, a nonempty local without `;`, a `;` and a nonempty remote that does not begin with `*`, and then as these three |
| `Reverse.PickedPort` | src/internal/bridge/reverse.go:253-262 | for tcp:0 the socket stored is that of the port which the answer gives, after OKAY and four hexadecimal digits of its length |
| `Reverse.ReverseManager.Forward` | src/internal/bridge/reverse.go:52-109 | a command that is well spelled and not barred by norebind is put to the device under the new listener's port, and the device's answer is returned; exactly what the device accepted is stored, with that listener; any other changes nothing and answers FAIL; extra on the device is then what the eviction did not remove, without the socket just mapped |
| `Reverse.ReverseManager.Rebind` | src/internal/bridge/reverse.go:76-108 | the mapping is replaced on acceptance, gone on refusal, the new listener closed |
| `Reverse.ReverseManager.Evict` | src/internal/bridge/reverse.go:112-124 | takes out one mapping with its listener, and does nothing to a socket without one; the socket stays extra on the device exactly if its killforward is not carried out |
| `Reverse.ReverseManager.Kill` | src/internal/bridge/reverse.go:136-158 | removes exactly the named mapping and its listener and returns the answer of the device; without such a mapping it answers FAIL and changes nothing; the socket stays extra exactly if its killforward is not carried out |
| `Reverse.ReverseManager.KillAll` | src/internal/bridge/reverse.go:160-168 | empties the table; listeners leak if and only if one of the device's answers before the last mapping is an error, and OKAY is reported if and only if none is; nothing new stays on the device if all its answers were OKAY |
| `Reverse.LeakAfterFailedCall` | src/internal/bridge/reverse.go:160-168 | two mappings and a device whose first answer is an error: a listener stays open for no mapping |
| `Reverse.ReverseManager.CloseAll` | src/internal/bridge/reverse.go:170-185 | every listener of the table is closed whatever the device answers |
| `Reverse.ReverseManager.DrainMappings` | src/internal/bridge/reverse.go:189-199 | each mapping once, the table empty |

## Left out

- Liveness: no statement says that a goroutine, a restart or a device answer comes to its end in time.
- Service.Service.Run: the conn's Read returns either bytes or an error, not both at once; the machine of `Multiplexer` allows both.
- Service.Session.Close: closing the client connection is not modelled, and the reverse forwards are closed by `Reverse.ReverseManager.CloseAll`.
- Service.Session.Run: the streams' goroutines, which run beside the read loop, and the goroutine that closes the session when its context ends are steps of the machine only; `Service.Service.Say` and the bodies around it have the read loop and the other streams act between any two statements.
- Multiplexer: whether the backend conn of a stream is closed is not claimed, because `close` may run before `setConn`; `Service.Service.Close` says when it is.
- Multiplexer: an OKAY for a client's WRTE may follow the stream's CLSE; silence after CLSE is claimed for OPEN and WRTE only. The single WRTE of a locally answered stream has no size bound.
- Handoff: shutdown during a restart; the names of environment variables, arguments and log output; a connection accepted by a call of `Accept` already blocked when the flag is set.
- Upgrade.Server.Handoff: a crash of the old process and its exit are steps of the machine (`Handoff`) only.
- Handoff: the sockets of bridges the old process starts after the snapshot are not handed over by the source either, and are not claimed; a restart that the new process is asked for itself, before the old one is gone.
- BridgeTable.Manager.StartItem: building the server and binding the port are steps of `ManagerRuns`; `Status` and `List` only read.
- InheritFds.RestoreInherited: encoding of the restore records as JSON and base64; records are values, `usable` names those whose backend and server can be built.
- Sync.HandleSend: parsing of the path and mode, directory SEND, and what follows a failed SEND on the same connection.
- Sync.HandleRecv: the text of FAIL messages, and the check for an empty path before the channel is opened.
- FilePush.PushFile: making the remote directory, the text and quoting of the command that opens the channel, and the channel handshake.
- ShellQuote.PullCommandTokens: what the device's shell does with the tokens, and the scripts that use double quotes and expansions (stat and list).
- Forward.OpenForward: reading the HDC server's text answers as success or failure; a setup that took effect although its answer was lost.
- Reverse.ReverseManager.HandleAll: the text of the list, the reasons of failures, and commands handled at the same time.
- Reverse.Device: a device that restarts, or changes its table on its own.
- Host frames, shell packets, property parsing, error classification, Windows stubs, the command line and logging.
