# PineTime bridge: a verified model

A bridge on an ESP32 keeps a PineTime watch in step with a reminder server. It polls the server, uploads the enabled
reminders over Bluetooth, hands over one-off notifications, shows when the next reminder is due, and pushes firmware
updates with Nordic's Legacy DFU protocol. This project models those parts of the bridge and the server parts they lean
on, and proves what they promise, and where they do not keep the promise, exactly when.

Entities that the program updates in place are classes (`DfuClient`, `PsramBuf`, `PineTimeBridge`, `ReminderStore`,
`PairingStore`, `NotificationStore`). Each method of the first and the third is proved to move the object's abstract
value as the function of the same step does, so the run-level lemmas, which are about those functions, are about the
methods. Runs are sequences of events of a composed system: client with watch and two channels (`DfuProtocol`), bridge
with link and watch table (`SyncProtocol`), bridge with true time (`Supervision`), bridge with a server table
(`Notifications`, `Pairing`), bridge with watch (`UpdateOnBridge`).

| module | what it is about |
|---|---|
| `Bytes`, `Wrappers` | bytes, 32-bit words, little-endian encoding; a value that may be missing |
| `DfuClients`, `DfuProtocol`, `Download`, `UpdateOnBridge` | the firmware update: client, client against watch, download, the same inside the bridge |
| `WireFormat`, `Djb2` | the sync buffer and its hash |
| `Bridges`, `SyncProtocol`, `Runs` | the bridge's handlers, reminder sync as a protocol, putting its runs together |
| `Polling`, `Routing`, `TimeKeeping`, `PendingWrites` | what polls bring and when, which characteristic a write goes to, when the time is written, what the write counter counts |
| `Losses`, `BusyFlag`, `Recovery`, `EndToEnd` | single losses, one command at a time, recovery, server table to watch |
| `Supervision` | update time-out and grace period on a wrapping clock |
| `ReminderTable` | slot allocation and the listing |
| `Calendar`, `NextReminder`, `Upcoming` | the two schedules and their agreement |
| `Pairing`, `Notifications`, `MacAddress` | the update request token, notification hand-over, addresses |

`dafny verify dfyconfig.toml` checks everything.

## What does not hold

Some promises fail on some inputs; each has its exact condition or a concrete run.

- A disconnect with the only reminder command in flight, nothing queued and no counted write is not noticed: the hash
  stays cached over a watch that misses the command (`DropHarmlessIffNoticed`, `UnnoticedLosses`). A write the stack
  refuses and one that fails on the link are lost the same way, exactly if they are not redundant
  (`RefusedWriteHarmlessIff`, `FailedWriteHarmlessIff`).
- Any completion clears the busy flag. Two commands are in flight after a completion handled while one was
  (`PrematureOverlaps`, `TwoInFlight`), and only then (`OneCommandAtATime`).
- The busy flag survives a disconnect. If no completion does (`DropJamsIff`) and the reconnect writes no time, no command is
  sent again unless a time, alert or firmware write is issued (`ReconnectSteadyIff`, `JamIsForever`, `JamIsReachable`), and
  any such write clears the flag (`OtherWriteEndsJam`). In all other cases a noticed loss is made good (`SyncHeals`).
- Without the delete handle a batch leaves stale slots (`UploadsAloneSuffice`).
- The hash value 0 doubles as "never synced" (`ZeroHashIsNeverSent`, `HashCanBeTheSentinel`), and some time edits do not
  change the hash (`TimeEditCollision`).
- A grace period ends on time exactly if it did not begin at the clock reading 0 (`GraceEndsOnTime`,
  `GraceFromZeroNeverEnds`, `GraceFromZeroIsReachable`). The time-out of a session counts from the first loop() call that
  saw it active and did not read 0 (`StuckSessionsEnd`), so a session first seen at the reading 0 can outlive it
  (`ReadingZeroIsNotStored`, `SessionOutlivesTimeOut`). A session the time-out ends starts no grace period
  (`TimeOutStartsNoGrace`).
- Bridge and page disagree on some dated reminders (`OneReminderAgrees`): the bridge tests "daily" before "dated", the
  page the reverse (`DailyDatedDisagrees`); the page looks only at the current year (`NewYearDisagrees`), and carries a
  date that year lacks over to another day, which the bridge does not (`MissingDate`, `MissingDateDisagrees`).
- A notification is marked delivered even if the stack refused its write, and then never reaches the watch
  (`AlertedIffAccepted`); nor does one that was accepted, marked, and on the link when the link dropped
  (`DroppedAlertIsLost`). A lost marking post makes the bridge hand it over again (`HandedOncePerPost`).
- A download longer than its buffer counts as a success and is sent with pieces missing (`UpdateCarriesTheBody`,
  `MiddleGoesMissing`).
- The update client does not check an answer against its state, so the safety of `RunIsSafe` is that of a conformant watch
  (`AnswersAreUnchecked`, `ReceiptsAreUnchecked`, `CompleteWithoutTransfer`).
- The pending counter wraps, so 256 time and alert writes in flight look like none to a drop (`DropForgetsIffCounted`).
- With a poll interval under 10 s the delay of the first poll does not hold (`FirstPoll`).
- A lost clear of the update request starts the update again (`RoundStarts`).
- Comments speak of slots 0-19 and the struct's default version is 3; the code allocates and syncs 56 slots and writes
  version 2. The model follows the code.

## Model

| member | source | states |
|---|---|---|
| DfuProtocol.RunIsSafe | esphome/components/pinetime_bridge/dfu_client.cpp:157-226 | In every run of client, conformant watch and in-order channels, whatever the timing and the watch's verdicts: the watch never sees a protocol violation; the writes are always a prefix of one transcript holding each command once, in order; COMPLETE means the watch was announced exactly the image size, holds the init packet and exactly the image, and validated it; FAILED means the watch refused |
| DfuProtocol.RunMakesProgress | esphome/components/pinetime_bridge/dfu_client.cpp:191-331 | No deadlock and termination for every image size above 0: a run moves at most a computed number of messages; it is stuck exactly when both channels are empty, and then the update was activated or refused; without a refusal it was activated |
| DfuProtocol.ReceiptsStayAligned | esphome/components/pinetime_bridge/dfu_client.cpp:287-328 | The client's window and the watch's receipt interval stay aligned: a receipt under way after k handled ones acknowledges exactly 200(k+1) bytes or the whole image, and that is what the client has sent and the watch holds |
| DfuProtocol.StepKeeps | esphome/components/pinetime_bridge/dfu_client.cpp:263-331 | Each delivery, notification and tick keeps the phase invariant of client, watch and channels, and each message moved uses up the measure |
| DfuProtocol.WritesArePrefix | esphome/components/pinetime_bridge/dfu_client.cpp:157-226 | In every phase what has been written is a prefix of the transcript |
| DfuProtocol.WatchTakesPiece | esphome/components/pinetime_bridge/dfu_client.cpp:195-202 | The watch holding the pieces before the r-th, given the r-th, holds exactly the prefix of the image it covers, and answers only when a receipt is due or the image complete |
| DfuProtocol.DrainSends | esphome/components/pinetime_bridge/dfu_client.cpp:191-212 | The chunk loop stops exactly at the end of the window or of the image, having written exactly the pieces in between |
| DfuClients.ArbitraryNotifications | esphome/components/pinetime_bridge/dfu_client.cpp:191-212 | Under any sequence of events and arbitrary notification bytes: pieces since the rewind concatenate to the first bytes_sent_ bytes of the image, all but the last are 20 bytes, the window is at most 10, and there are at most 10(receipts+1) of them |
| DfuClients.StepKeeps | esphome/components/pinetime_bridge/dfu_client.cpp:228-261 | Any single event keeps the transfer invariant, and none makes an IDLE, COMPLETE or FAILED client write |
| DfuClients.ChunksConcat | esphome/components/pinetime_bridge/dfu_client.cpp:195-202 | The first q 20-byte pieces of any image concatenate to the prefix they cover |
| DfuClients.ChunkShape | esphome/components/pinetime_bridge/dfu_client.cpp:196-199 | Pieces are non-empty, full except the last, and there are exactly enough of them for the image |
| DfuClients.BothDownloaded | esphome/components/pinetime_bridge/dfu_client.cpp:100-135 | Over every sequence of events a client that is neither IDLE nor FAILED holds a non-empty image and a non-empty init packet, and an IDLE one has released both |
| DfuClients.StartNeedsBoth | esphome/components/pinetime_bridge/dfu_client.cpp:106-133 | A start gets as far as connecting if and only if both downloads are non-empty, which it then holds; else the client is FAILED and writes nothing over any run until the next start |
| DfuClients.QuietUntilStart | esphome/components/pinetime_bridge/dfu_client.cpp:234-235 | An IDLE, COMPLETE or FAILED client writes nothing over any run until the next start |
| DfuClients.ReportedLossStops | esphome/components/pinetime_bridge/dfu_client.cpp:244-256 | A failed write or a disconnect that is reported stops all writing until the next start |
| DfuClients.DiscoveryStartsIff | esphome/components/pinetime_bridge/dfu_client.cpp:137-155 | A discovery makes the client write if and only if it is CONNECTING and both handles were found; with one missing it fails |
| DfuClients.TickFills | esphome/components/pinetime_bridge/dfu_client.cpp:228-232 | After a tick a streaming client waits, with a full window or the whole image sent, also if a stray notification had stopped it waiting |
| DfuClients.StrayIsHarmless | esphome/components/pinetime_bridge/dfu_client.cpp:263-265 | A notification that is neither a whole response nor a whole receipt only stops the client waiting, and an empty one or one on another handle not even that |
| DfuClients.AnswersAreUnchecked | esphome/components/pinetime_bridge/dfu_client.cpp:267-321 | In every active state, not only in its own, a successful answer leads to the state after its opcode, and an answer with an error to FAILED |
| DfuClients.ReceiptsAreUnchecked | esphome/components/pinetime_bridge/dfu_client.cpp:322-330 | In every active state, not only while streaming, a whole receipt opens a new window and goes on sending the image |
| DfuClients.CompleteWithoutTransfer | esphome/components/pinetime_bridge/dfu_client.cpp:310-315 | Three events after which a client is COMPLETE with no byte of the image sent |
| DfuClients.DfuClient.Start | esphome/components/pinetime_bridge/dfu_client.cpp:100-135 | From any state: fresh counters, both downloads in place and CONNECTING, or FAILED at the first empty one |
| DfuClients.DfuClient.OnServicesDiscovered | esphome/components/pinetime_bridge/dfu_client.cpp:137-155 | Starts the protocol exactly when both handles were found, else fails |
| DfuClients.DfuClient.SendStartDfu | esphome/components/pinetime_bridge/dfu_client.cpp:157-172 | Exact two writes of the start phase, with the 32-bit size little-endian at offset 8 |
| DfuClients.DfuClient.SendInitPacket | esphome/components/pinetime_bridge/dfu_client.cpp:174-189 | Exact three writes of the init phase |
| DfuClients.DfuClient.SendFirmwareChunks | esphome/components/pinetime_bridge/dfu_client.cpp:191-212 | The in-place chunk loop refines the recursive drain on every field |
| DfuClients.DfuClient.HandleNotification | esphome/components/pinetime_bridge/dfu_client.cpp:263-331 | Whole new state for every notification, including malformed, short and unknown ones |
| DfuClients.DfuClient.HandleResponse | esphome/components/pinetime_bridge/dfu_client.cpp:267-321 | Whole new state for each answered opcode and result |
| DfuClients.DfuClient.Process | esphome/components/pinetime_bridge/dfu_client.cpp:228-232 | A tick sends only while streaming and not waiting |
| DfuClients.DfuClient.OnNotify | esphome/components/pinetime_bridge/dfu_client.cpp:234-242 | Only control-point notifications of an active session have an effect |
| DfuClients.DfuClient.OnWriteStatus | esphome/components/pinetime_bridge/dfu_client.cpp:244-250 | A failed write fails an active session and nothing else |
| DfuClients.DfuClient.OnDisconnect | esphome/components/pinetime_bridge/dfu_client.cpp:252-256 | A disconnect fails an active session and nothing else |
| DfuClients.DfuClient.Reset | esphome/components/pinetime_bridge/dfu_client.h:36-40 | Back to IDLE with both buffers released, the rest untouched |
| UpdateOnBridge.UpdateOnBridgeIsSafe | esphome/components/pinetime_bridge/pinetime_bridge.cpp:123-144 | An update inside the bridge, after any number of earlier ones and among loops, polls, reminder writes, discoveries and other notifications that neither drop the link nor see the session ended or timed out: the safety and the bound of RunIsSafe and RunMakesProgress hold of it |
| UpdateOnBridge.RunAlike | esphome/components/pinetime_bridge/pinetime_bridge.cpp:123-365 | Such a run of the bridge and the watch is, step for step, a run of the update client and the watch alone |
| UpdateOnBridge.EventMoves | esphome/components/pinetime_bridge/pinetime_bridge.cpp:126-144 | Every bridge event moves a started session only by a tick, a notification or the time-out's reset |
| UpdateOnBridge.StepAfter | esphome/components/pinetime_bridge/dfu_client.h:49-69 | The client's steps do not depend on what earlier sessions wrote |
| Download.DownloadFidelity | esphome/components/pinetime_bridge/dfu_client.cpp:55-64 | For every split of a body into data events the buffer never exceeds its capacity, and equals the body if and only if the body fits |
| Download.ReceivesSomething | esphome/components/pinetime_bridge/dfu_client.cpp:55-64 | Something is received if and only if some piece fits by itself |
| Download.UpdateBeginsIff | esphome/components/pinetime_bridge/dfu_client.cpp:88-130 | An update gets as far as connecting if and only if both transfers succeed with status 200 and bring a piece that fits; else it has FAILED; it has written nothing either way |
| Download.UpdateCarriesTheBody | esphome/components/pinetime_bridge/dfu_client.cpp:55-135 | Download and transfer composed, for every split of every body that leaves something in the buffers: an update the client calls COMPLETE has put the two buffers on the watch, and each is the response body if and only if that body fits (500000 and 1024 bytes) |
| Download.MiddleGoesMissing | esphome/components/pinetime_bridge/dfu_client.cpp:57-61 | A piece that does not fit is skipped and a shorter one after it kept, so an oversized image can be sent with a hole |
| Download.DownloadToPsram | esphome/components/pinetime_bridge/dfu_client.cpp:66-98 | The in-place download leaves the buffer of all events, or nothing on a transfer error, a status other than 200 or an empty body |
| Download.PsramBuf.OnData | esphome/components/pinetime_bridge/dfu_client.cpp:55-64 | A piece that fits is appended after what was there, one that does not is dropped whole |
| WireFormat.SyncBufferRoundTrip | esphome/components/pinetime_bridge/pinetime_bridge.cpp:1095-1109 | Decoding the count byte and records built by the sync gives back the same reminders in order, priority modulo 4 and message cut to 63 bytes |
| WireFormat.EncodeInjective | esphome/components/pinetime_bridge/pinetime_bridge.cpp:1095-1109 | Two lists of reminders give the same buffer if and only if they agree after that normalisation |
| WireFormat.RecordRoundTrip | esphome/components/pinetime_bridge/pinetime_bridge.cpp:47-61 | Every field of the 72-byte record is read back as written, up to the normalisation |
| WireFormat.EnabledIsFilter | esphome/components/pinetime_bridge/pinetime_bridge.cpp:1097-1100 | Exactly the enabled reminders are kept, with multiplicity |
| Djb2.SingleByteChange | esphome/components/pinetime_bridge/pinetime_bridge.cpp:1111-1115 | Changing one byte of the buffer, anywhere, changes the 32-bit hash if and only if it changes the byte |
| Djb2.FromInjective | esphome/components/pinetime_bridge/pinetime_bridge.cpp:1111-1115 | Two hash states never merge over a common suffix: 33 is a unit modulo 2^32 |
| Djb2.TimeEditCollision | esphome/components/pinetime_bridge/pinetime_bridge.cpp:1101-1119 | Moving one reminder's time leaves the hash unchanged if and only if (dh, dm) is (0,0), (1,-33) or (-1,33) |
| Djb2.ComputeHash | esphome/components/pinetime_bridge/pinetime_bridge.cpp:1111-1115 | The loop with its dropped shift bits computes the hash function the lemmas are about |
| Djb2.ShiftAdd | esphome/components/pinetime_bridge/pinetime_bridge.cpp:1114-1114 | The truncated shift and additions equal multiplication by 33 modulo 2^32 |
| Djb2.HashCanBeTheSentinel | esphome/components/pinetime_bridge/pinetime_bridge.cpp:1116-1119 | A concrete non-empty list whose hash is 0, the value that means never synced |
| Bridges.PineTimeBridge.constructor | esphome/components/pinetime_bridge/pinetime_bridge.h:129-199 | The state after boot |
| Bridges.PineTimeBridge.CollectEnabled | esphome/components/pinetime_bridge/pinetime_bridge.cpp:1097-1100 | The filter loop |
| Bridges.PineTimeBridge.BuildBuffer | esphome/components/pinetime_bridge/pinetime_bridge.cpp:1101-1109 | The buffer loop yields the encoding of the kept reminders |
| Bridges.PineTimeBridge.SyncRemindersToWatch | esphome/components/pinetime_bridge/pinetime_bridge.cpp:1095-1151 | Hash check, handle check, new hash and the batch appended behind what was queued, as one state change |
| Bridges.PineTimeBridge.ProcessNextCommand | esphome/components/pinetime_bridge/pinetime_bridge.cpp:625-661 | The head command is popped whether written, refused or without a handle; only an accepted one is in flight and sets busy |
| Bridges.PineTimeBridge.SyncTime | esphome/components/pinetime_bridge/pinetime_bridge.cpp:1187-1225 | Pending counter modulo 256 and the write, for every combination of handle, clock validity and acceptance |
| Bridges.PineTimeBridge.SendNotification | esphome/components/pinetime_bridge/pinetime_bridge.cpp:1227-1253 | Pending counter and the alert write |
| Bridges.PineTimeBridge.PollApi | esphome/components/pinetime_bridge/pinetime_bridge.cpp:1001-1093 | New reminders, then the delivery loop up to the first non-empty notification without an ANS handle |
| Bridges.PineTimeBridge.CheckPairingRequest | esphome/components/pinetime_bridge/pinetime_bridge.cpp:856-873 | A dfu request starts a session only from IDLE |
| Bridges.PineTimeBridge.SuperviseDfu | esphome/components/pinetime_bridge/pinetime_bridge.cpp:126-144 | The DFU block: continue and return, time out, or fall through |
| Bridges.PineTimeBridge.NoteDfuEnd | esphome/components/pinetime_bridge/pinetime_bridge.cpp:147-164 | The grace period begins when an end is seen |
| Bridges.PineTimeBridge.EndGrace | esphome/components/pinetime_bridge/pinetime_bridge.cpp:167-172 | The grace period ends and forces a full sync |
| Bridges.PineTimeBridge.PollIfDue | esphome/components/pinetime_bridge/pinetime_bridge.cpp:179-187 | Poll on the wrapped interval, sync only when IDLE and out of grace |
| Bridges.PineTimeBridge.RefreshWatch | esphome/components/pinetime_bridge/pinetime_bridge.cpp:208-221 | Periodic time write on an idle link |
| Bridges.PineTimeBridge.LoopOnce | esphome/components/pinetime_bridge/pinetime_bridge.cpp:123-237 | One loop() call is the composition of its stages in order |
| Bridges.PineTimeBridge.OnDisconnect | esphome/components/pinetime_bridge/pinetime_bridge.cpp:281-314 | Drops queue and hash if work was queued or counted, forgets counters and handles, keeps the busy flag |
| Bridges.PineTimeBridge.OnWriteDone | esphome/components/pinetime_bridge/pinetime_bridge.cpp:326-339 | Any completion clears busy and counts down, not below 0 |
| Bridges.PineTimeBridge.OnNotify | esphome/components/pinetime_bridge/pinetime_bridge.cpp:358-364 | Notifications reach the update client |
| Bridges.PineTimeBridge.DiscoverServices | esphome/components/pinetime_bridge/pinetime_bridge.cpp:576-622 | Handle update, then either the update takes over or time write, service use and sync |
| SyncProtocol.CacheAgreement | esphome/components/pinetime_bridge/pinetime_bridge.cpp:1111-1151 | In every reliable run from boot, over polls, superseding batches, sends, completions, reconnects and noticed drops, whatever the watch held: if the cached hash is not 0, it is that of the snapshot queued last, which the bridge held at some point of the run, and replaying in-flight then queued commands on the watch gives exactly that snapshot's records |
| SyncProtocol.SyncedWasHeld | esphome/components/pinetime_bridge/pinetime_bridge.cpp:1022-1043 | In every run, lossy or not, the snapshot queued last is one of the reminders polled earlier in the run |
| SyncProtocol.Quiescence | esphome/components/pinetime_bridge/pinetime_bridge.cpp:1095-1151 | With nothing queued or in flight and the hash unchanged, the watch holds exactly the current snapshot's records, or those of an earlier polled snapshot with a different buffer and the same hash |
| SyncProtocol.StepKeeps | esphome/components/pinetime_bridge/pinetime_bridge.cpp:123-365 | Every step keeps the write accounting, reliable or not; every reliable step keeps the agreement |
| SyncProtocol.WriteAccounting | esphome/components/pinetime_bridge/pinetime_bridge.cpp:281-339 | Over every run, losses and drops included: the pending counter never exceeds the writes and completions outstanding, only delete-alls and whole records are ever outstanding, and a queued command never meets a missing handle |
| SyncProtocol.QueueAdvances | esphome/components/pinetime_bridge/pinetime_bridge.cpp:642-660 | The head of the queue leaves it whether sent, refused or without a handle, so no command holds up those behind it; unless sent it touches neither link nor flag |
| SyncProtocol.DropHarmlessIffNoticed | esphome/components/pinetime_bridge/pinetime_bridge.cpp:289-296 | A disconnect keeps the agreement for every watch if and only if something is queued, the counter is not 0, or no reminder command is in flight |
| SyncProtocol.UnnoticedLosses | esphome/components/pinetime_bridge/pinetime_bridge.cpp:289-296 | Two runs from boot, a drop with the sole command in flight and a refused write, that leave a non-zero hash over a watch no snapshot explains; the first also leaves the busy flag set |
| SyncProtocol.UploadsAloneSuffice | esphome/components/pinetime_bridge/pinetime_bridge.cpp:1128-1149 | A batch queued without the delete handle makes the watch right if and only if the watch holds no slot outside the snapshot |
| SyncProtocol.BatchReplaces | esphome/components/pinetime_bridge/pinetime_bridge.cpp:1128-1149 | A batch that begins with delete-all leaves no trace of the watch's records or of any batch queued before it |
| SyncProtocol.UploadsOverlay | esphome/components/pinetime_bridge/pinetime_bridge.cpp:1138-1149 | Uploads without an erase overlay the old records, slot by slot |
| SyncProtocol.ZeroHashIsNeverSent | esphome/components/pinetime_bridge/pinetime_bridge.cpp:1116-1130 | With nothing synced, the sync check finds something to send if and only if there is an upload handle and the snapshot's hash is not 0, for every snapshot |
| SyncProtocol.UnluckyIsNeverSent | esphome/components/pinetime_bridge/pinetime_bridge.cpp:1116-1119 | A concrete non-empty snapshot that is never sent for that reason |
| SyncProtocol.SyncKeeps | esphome/components/pinetime_bridge/pinetime_bridge.cpp:1095-1151 | The sync check and its batch keep agreement and accounting |
| SyncProtocol.DropKeeps | esphome/components/pinetime_bridge/pinetime_bridge.cpp:281-314 | A noticed disconnect keeps the agreement |
| Polling.HoldsLastListed | esphome/components/pinetime_bridge/pinetime_bridge.cpp:1020-1035 | Over every run the bridge holds exactly the list of the last successful poll that a loop() call got to, or what it held before if there was none |
| Polling.PollSyncs | esphome/components/pinetime_bridge/pinetime_bridge.cpp:179-187 | A loop() call that gets to a poll out of grace with the upload handle known leaves the hash of the list now held in the cache, and, if it was another before, exactly that list's batch queued behind what draining left |
| Polling.CheckedIsCached | esphome/components/pinetime_bridge/pinetime_bridge.cpp:179-187 | Over every run, once the sync check has run at or after the last successful poll, the cached hash is none or that of what the bridge holds |
| Polling.PollsAreSpaced | esphome/components/pinetime_bridge/pinetime_bridge.cpp:180-181 | After a call that gets to a poll and until a discovery, the next call that gets to one is the first past the DFU block more than an interval later by the clock |
| Polling.DiscoveryForcesPoll | esphome/components/pinetime_bridge/pinetime_bridge.cpp:618-619 | A discovery of the reminder service makes the next poll due as soon as the clock reads more than the interval |
| Polling.PartialServiceIsUnused | esphome/components/pinetime_bridge/pinetime_bridge.cpp:609-622 | A discovery that does not find both upload and sync changes neither queue, cache nor poll timer |
| Polling.FirstPoll | esphome/components/pinetime_bridge/pinetime_bridge.cpp:103-104 | From boot a poll is due if and only if more than 10 s have passed, or, with a shorter interval, if interval and time passed do not make up 10 s yet |
| Routing.BootRoutes | esphome/components/pinetime_bridge/pinetime_bridge.cpp:625-661 | Over every run from boot in which discoveries find the watch's own handles, every reminder command on the link, decoded by the characteristic it was written to, does on the watch what its kind means |
| Routing.DiscoverySetsHandles | esphome/components/pinetime_bridge/pinetime_bridge.cpp:452-574 | After a discovery each handle is the one found, or what it was if none was found |
| PendingWrites.EventTallies | esphome/components/pinetime_bridge/pinetime_bridge.cpp:1187-1253 | Every event but a completion or a drop raises the pending counter by exactly the time and alert writes it puts on the link, modulo 256 |
| PendingWrites.DropForgetsIffCounted | esphome/components/pinetime_bridge/pinetime_bridge.cpp:287-296 | Before any completion, a drop with nothing queued forgets the cached hash if and only if the time and alert writes since the last drop are not a multiple of 256 |
| PendingWrites.CompletionsCountDown | esphome/components/pinetime_bridge/pinetime_bridge.cpp:339-339 | Each completion, of whatever write, counts down by one, not below 0 |
| TimeKeeping.LoopWritesTimeIff | esphome/components/pinetime_bridge/pinetime_bridge.cpp:208-221 | A loop() call past the DFU block writes the time if and only if the link is idle, more than 300000 ms have passed by the clock since the refresh timer was set, or since 0 if the call sees an update ended, and the write can be made; and it sets the timer if and only if the first two hold |
| TimeKeeping.RefreshesAreSpaced | esphome/components/pinetime_bridge/pinetime_bridge.cpp:211-212 | Over any run without connections, discoveries and ends of updates, the next refresh that writes the time comes more than 300000 ms after the last by the clock |
| TimeKeeping.ConnectionWritesTime | esphome/components/pinetime_bridge/pinetime_bridge.cpp:604-607 | A connection starts the timer, and a discovery that is not the update's writes the time whenever it can and restarts it |
| TimeKeeping.ActiveLoopWritesNoTime | esphome/components/pinetime_bridge/pinetime_bridge.cpp:130-139 | A call that runs the update writes no time and leaves the timer |
| Losses.LossChangesNothingIff | esphome/components/pinetime_bridge/pinetime_bridge.cpp:1128-1149 | With work before and behind it, losing one command changes nothing for any watch if and only if each slot it decides is decided again behind it, or was decided before it to the same content |
| Losses.LossHarmlessIffRedundant | esphome/components/pinetime_bridge/pinetime_bridge.cpp:625-661 | Losing one outstanding command, wherever it stands, keeps the cache agreement for every watch under exactly that condition |
| Losses.FailedWriteHarmlessIff | esphome/components/pinetime_bridge/pinetime_bridge.cpp:326-339 | A reminder write that fails on the link, whose completion the bridge takes like any other, is harmless if and only if each slot it decides is decided again by the work behind it |
| Losses.RefusedWriteHarmlessIff | esphome/components/pinetime_bridge/pinetime_bridge.cpp:651-660 | A queued command the stack refuses, whatever is in flight before it, is harmless if and only if it is redundant; being made good by later work suffices, and is necessary when nothing is in flight |
| Losses.ReplayForgets | esphome/components/pinetime_bridge/pinetime_bridge.cpp:1128-1149 | Two watches that differ only in slots the work decides end up the same |
| Losses.SlotKept | esphome/components/pinetime_bridge/pinetime_bridge.cpp:1128-1149 | A slot no command decides is left as it was |
| Losses.SlotDecided | esphome/components/pinetime_bridge/pinetime_bridge.cpp:1128-1149 | A slot some command decides ends up the same on every watch |
| Losses.NextBatchMakesGood | esphome/components/pinetime_bridge/pinetime_bridge.cpp:1128-1149 | A batch with a delete-all queued behind a lost command makes the loss good |
| BusyFlag.OneCommandAtATime | esphome/components/pinetime_bridge/pinetime_bridge.cpp:174-177 | From boot at most one command is in flight in every run in which no completion is handled while a command is in flight; and at most one write is outstanding beyond the time, alert and firmware writes issued |
| BusyFlag.OrderlyIsSerial | esphome/components/pinetime_bridge/pinetime_bridge.cpp:174-177 | The same from any state with at most one command in flight and the flag set for it |
| BusyFlag.PrematureOverlaps | esphome/components/pinetime_bridge/pinetime_bridge.cpp:338-339 | Conversely, a completion handled while a command is in flight, with another queued on a live link and the client IDLE, makes the next loop() call put a further command on the link |
| BusyFlag.TwoInFlight | esphome/components/pinetime_bridge/pinetime_bridge.cpp:338-339 | A run from boot that ends with two commands in flight: a poll of any non-empty snapshot whose hash is not 0, a connection, a discovery with its time write, two loop() calls around the time write's completion |
| BusyFlag.OneReminderOverlaps | esphome/components/pinetime_bridge/pinetime_bridge.cpp:338-339 | A concrete snapshot for that run |
| BusyFlag.OutstandingSinceDrop | esphome/components/pinetime_bridge/pinetime_bridge.cpp:281-314 | After a drop the count starts afresh: at most one write beyond the completions that survive it and the other writes issued since |
| BusyFlag.EventSendsBusily | esphome/components/pinetime_bridge/pinetime_bridge.cpp:338-339 | Each event but a completion: a command is sent only by setting the busy flag, the flag is never cleared, and nothing leaves the link |
| BusyFlag.JamIsForever | esphome/components/pinetime_bridge/pinetime_bridge.cpp:281-314 | A busy flag left set with nothing outstanding stays set, and no command reaches the watch, over every run of loops, polls, drops and reconnects that issues no time, alert or firmware write |
| BusyFlag.JamEndsOnlyByOthers | esphome/components/pinetime_bridge/pinetime_bridge.cpp:338-339 | So if the flag has cleared or the watch has changed, such a write was issued |
| BusyFlag.OtherWriteEndsJam | esphome/components/pinetime_bridge/pinetime_bridge.cpp:338-339 | And any such write clears the flag once it completes |
| BusyFlag.JamIsReachable | esphome/components/pinetime_bridge/pinetime_bridge.cpp:281-314 | One drop with a command in flight leads from boot to the jam |
| Recovery.SyncHeals | esphome/components/pinetime_bridge/pinetime_bridge.cpp:281-314 | From any state with something queued or counted or nothing cached, client IDLE, out of grace and a snapshot whose hash is not 0, whatever the watch holds: after a drop and a reconnect that finds the reminder service and does not lead to the jam, in every interleaving of loops, polls of the same reminders, completions, rediscoveries and other writes, moves made and remaining add up to three per command, two per other write and one per completion that survived the drop, some step can move while any remain, and once no command is outstanding the watch holds exactly the snapshot's records |
| Recovery.ReconnectSteadyIff | esphome/components/pinetime_bridge/pinetime_bridge.cpp:281-314 | Under the same conditions, that reconnect leads to the healing if and only if the busy flag is clear, some completion survived the drop, or the time is written; else to the jam |
| Recovery.DropJamsIff | esphome/components/pinetime_bridge/pinetime_bridge.cpp:281-314 | A drop leaves the bridge jammed if and only if the flag is set and no completion survives |
| Recovery.StepIsSteady | esphome/components/pinetime_bridge/pinetime_bridge.cpp:123-314 | Each such step keeps the system steady and uses up the measure, exactly |
| Recovery.SteadyCanMove | esphome/components/pinetime_bridge/pinetime_bridge.cpp:174-177 | No deadlock: while moves remain, a write can be carried out, a completion handled, or a loop() call sends the head of the queue |
| Recovery.ReconnectQueues | esphome/components/pinetime_bridge/pinetime_bridge.cpp:604-622 | The reconnect, whatever survives the drop and whatever becomes of the time write, queues delete-all and the whole snapshot exactly if the snapshot's hash is not 0, else nothing, and leaves the busy flag as it was |
| Recovery.TurnsHeal | esphome/components/pinetime_bridge/pinetime_bridge.cpp:281-314 | One schedule to the end: if the time is written after the reconnect, its completion and one loop() call and completion per command reach the healed state, whatever the busy flag |
| Recovery.QueueDrains | esphome/components/pinetime_bridge/pinetime_bridge.cpp:174-177 | With a free link, as many turns as queued commands empty the queue onto the watch in order, whatever the clock and polls that find nothing new |
| EndToEnd.RecoveryMatchesServer | esphome/components/pinetime_bridge/pinetime_bridge.cpp:281-314 | Server table to watch across a noticed loss: after any run from boot whose last successful poll listed the table, under the conditions of SyncHeals, after the reconnect and in every interleaving, the watch holds exactly the records of the at most 56 enabled rows of lowest slot as soon as no command is outstanding |
| EndToEnd.WatchMatchesServer | esphome/components/pinetime_bridge/pinetime_bridge.cpp:1095-1151 | Server table to watch: after a reliable run from boot whose last successful poll listed the table, with a sync check at or after it, nothing outstanding and a hash cached, the watch holds exactly the records of the at most 56 enabled rows of lowest slot, or those of an earlier polled snapshot whose hash collides |
| EndToEnd.RecordsAreExpected | server/store/sqlite.go:206-224 | Replaying the uploads of the listing's snapshot gives exactly the records of those rows, each under its slot |
| ReminderTable.AllocationIsFresh | server/handlers/handlers.go:208-240 | 409 if and only if the requested slot is 0 or taken and slots 0-55 are all used; otherwise the slot was free, is the requested one or the least, and every other row is unchanged: the upsert's conflict path is not taken |
| ReminderTable.RowsAreConserved | server/store/sqlite.go:188-237 | Over every sequence of handlers the number of rows is that at the start plus answered creates minus effective deletes, and every row stays under its own slot |
| ReminderTable.HandlersAreListed | server/handlers/handlers.go:195-287 | What each handler does to every user's listing, as a multiset of whole rows: an answered create adds the request under its slot, an update of a listed slot puts the request in that row's place and one of another slot changes nothing, a delete takes the row away, and other users' listings are untouched |
| ReminderTable.SnapshotIsLowestEnabled | server/store/sqlite.go:206-224 | The synced list is strictly increasing in slots, holds only enabled stored rows, and leaves one out only when it is full of lower slots |
| ReminderTable.ListFromIsSorted | server/store/sqlite.go:206-224 | The listing holds exactly the user's rows, in strictly increasing slot order |
| ReminderTable.ReminderStore.CreateReminder | server/handlers/handlers.go:195-243 | The handler with its used map and search loop answers and changes the table exactly as specified |
| ReminderTable.ReminderStore.UpdateReminder | server/handlers/handlers.go:245-268 | A missing row is not created |
| ReminderTable.ReminderStore.DeleteReminder | server/handlers/handlers.go:270-287 | Exactly the named row goes |
| ReminderTable.ReminderStore.Upsert | server/store/sqlite.go:188-204 | Insert or overwrite under the unique key |
| ReminderTable.ReminderStore.UsedBy | server/handlers/handlers.go:216-219 | The used map is exactly the user's occupied slots |
| Supervision.BatchesWaitForGrace | esphome/components/pinetime_bridge/pinetime_bridge.cpp:146-187 | In every run on the wrapping 32-bit clock, whatever it reads, an event that leaves any other queue than draining would have left comes more than 120000 ms of true time after an update was last seen COMPLETE or FAILED, out of grace, with the update client IDLE |
| Supervision.CommandsOnlyWhenIdle | esphome/components/pinetime_bridge/pinetime_bridge.cpp:174-177 | A queued command is written if and only if a loop() call past the DFU block finds the link connected with the service discovered, the flag clear, a command whose handle is known, and the stack accepting; it is the head of the queue, and the client is IDLE |
| Supervision.NoCommandsUntilRelinked | esphome/components/pinetime_bridge/pinetime_bridge.cpp:281-286 | After a drop no command is written over any run until a connection has been opened and a discovery made |
| Supervision.UpdatesStartFromIdle | esphome/components/pinetime_bridge/pinetime_bridge.cpp:868-873 | The pairing check begins an update if and only if one is requested and the client is IDLE |
| Supervision.StuckSessionsEnd | esphome/components/pinetime_bridge/pinetime_bridge.cpp:126-144 | In every run, a loop() call on an active session, less than 2^32 ms after the first call that saw it active and did not read 0, ends it if and only if more than 300000 ms of true time have passed since that call; before any such call, and otherwise, it only lets the update continue |
| Supervision.ReadingZeroIsNotStored | esphome/components/pinetime_bridge/pinetime_bridge.cpp:131-136 | A call that sees a new session and reads 0 stores no start, and no next call ends the session, however late |
| Supervision.SessionOutlivesTimeOut | esphome/components/pinetime_bridge/pinetime_bridge.cpp:131-136 | A run from boot in which a session is still running 300001 ms after it was first seen active |
| Supervision.TimeOutStartsNoGrace | esphome/components/pinetime_bridge/pinetime_bridge.cpp:133-136 | A session ended by the time-out starts no grace period |
| Supervision.GraceEndsOnTime | esphome/components/pinetime_bridge/pinetime_bridge.cpp:159-172 | In every run, a loop() call past the DFU block less than 2^32 ms after an update was last seen COMPLETE or FAILED is in grace if and only if at most 120000 ms of true time have passed or that sighting read 0 |
| Supervision.GraceFromZeroNeverEnds | esphome/components/pinetime_bridge/pinetime_bridge.cpp:159-172 | A grace period begun at the reading 0 does not end and no command is queued over any run of events of every kind, until another update is requested |
| Supervision.GraceFromZeroIsReachable | esphome/components/pinetime_bridge/pinetime_bridge.cpp:159-172 | A run from boot that begins one: an update that fails just before the clock wraps to 0 |
| Supervision.GraceEndForcesSync | esphome/components/pinetime_bridge/pinetime_bridge.cpp:167-187 | The loop() call that ends the grace period leaves no cached hash, or the whole current snapshot queued behind what was left |
| Supervision.ReadingsSubtract | esphome/components/pinetime_bridge/pinetime_bridge.cpp:132-168 | Wrapped differences of readings are true time differences modulo 2^32, and exact below 2^32 |
| Supervision.LoopKeepsInv | esphome/components/pinetime_bridge/pinetime_bridge.cpp:123-187 | Each loop() call keeps the timers equal to the wrapped true times they stand for |
| NextReminder.NextIsOptimal | esphome/components/pinetime_bridge/pinetime_bridge.cpp:734-786 | A pick is the earliest occurrence strictly after now of any enabled reminder on any future day, the first listed on ties; there is none only if every enabled reminder is dated, not daily and not due within the scanned days. An occurrence is a second at which the clock reads the reminder's hours and minutes and no seconds, on a day that is its date in some year, or of its weekday mask, or any day |
| NextReminder.OccursIs | esphome/components/pinetime_bridge/pinetime_bridge.cpp:748-768 | The scan's fire times on the scan's days are exactly those occurrences |
| NextReminder.UndatedAlwaysFires | esphome/components/pinetime_bridge/pinetime_bridge.cpp:741-771 | Every undated or daily reminder fires within the eight scanned days |
| NextReminder.ScanIsFirst | esphome/components/pinetime_bridge/pinetime_bridge.cpp:744-777 | The scan's first hit is the reminder's first occurrence after now, over all future days |
| NextReminder.GetNextReminder | esphome/components/pinetime_bridge/pinetime_bridge.cpp:734-786 | The scan over reminders returns the clock reading and the text of such an optimal occurrence, and nothing only if there is none in the scanned days |
| NextReminder.FirstFire | esphome/components/pinetime_bridge/pinetime_bridge.cpp:744-777 | The scan over days for one reminder returns its first hit |
| Calendar.DateRoundTrip | esphome/components/pinetime_bridge/pinetime_bridge.cpp:745-768 | Calendar date and day number determine each other, both ways |
| Calendar.MonthTable | esphome/components/pinetime_bridge/pinetime_bridge.cpp:745-768 | The first of each month as the day of the year, in common and leap years |
| Calendar.Anchors | esphome/components/pinetime_bridge/pinetime_bridge.cpp:766-768 | 1 January 1970 was a Thursday, weekdays follow each other, and which of four years are leap years |
| Upcoming.SchedulesAgree | server/web/index.html:528-571 | On every list of agreeable reminders, when the bridge finds a next reminder, the page's sorted list starts with the same reminder at the same time, ties included; when it finds none, the list holds nothing within the scanned days. Agreeable: undated; daily and dated, if this year's date is the next daily time; dated on a day this year has, if it is still to come or next year's is beyond the scanned days; on a day this year lacks, if the day it carries over to is not within the scanned days |
| Upcoming.OneReminderAgrees | server/web/index.html:528-571 | On a single enabled reminder the schedules agree if and only if it is agreeable |
| Upcoming.SameYearSuffices | server/web/index.html:539-543 | Dates this year has are agreeable when the scanned days lie in one year and the reminder is not also daily |
| Upcoming.DailyDatedAgreement | server/web/index.html:539-543 | For a reminder both daily and dated, bridge and page agree if and only if this year's date is the next daily time |
| Upcoming.DatedAgreement | server/web/index.html:539-543 | For every dated, not daily reminder bridge and page agree if and only if it is agreeable; one the bridge finds is on the page if and only if this year's date is still to come |
| Upcoming.MissingDate | server/web/index.html:539-543 | A date this year does not have is never found by the bridge; the page shows the day it carries over to if that is in the horizon |
| Upcoming.MissingDateDisagrees | server/web/index.html:539-543 | 31 April, seen on 28 April 1970 |
| Upcoming.NewYearDisagrees | server/web/index.html:539-543 | 2 January, seen on 30 December 1970 |
| Upcoming.DailyDatedDisagrees | server/web/index.html:539-544 | Daily and dated 1 April, seen on 1 January 1970 |
| Upcoming.SortIsStable | server/web/index.html:571-571 | The sort orders by date, permutes, and keeps equal dates in push order |
| Upcoming.BuildUpcoming | server/web/index.html:528-571 | The page's list is in order of time and shows exactly, and once each, every occurrence of an enabled repeating reminder in the next two weeks, the next occurrence of one that is neither repeated nor dated, and this year's date of a dated one, by the clock and the calendar |
| Upcoming.ListIsRight | server/web/index.html:528-571 | That, of the specification of the list |
| Upcoming.PushReminder | server/web/index.html:534-568 | What one reminder pushes is exactly the times the page is to show it, once each |
| Upcoming.PushDays | server/web/index.html:544-567 | The day loops, with and without the weekday mask and the safety counter |
| Pairing.StartsAreRequested | server/handlers/handlers.go:596-651 | In every interleaving of posts, polls, lost posts and server restarts, update starts are at most dfu requests plus lost clears |
| Pairing.RunPays | esphome/components/pinetime_bridge/pinetime_bridge.cpp:868-873 | Starts done or still owed never exceed requests plus lost clears |
| Pairing.PostThenGet | server/handlers/handlers.go:590-651 | What is read back after a post: another bridge's request is untouched, a refused post changes nothing, an accepted one shows its state, or idle once paired, and the address, passkey or failure text exactly in the states that carry one |
| Pairing.RoundStarts | esphome/components/pinetime_bridge/pinetime_bridge.cpp:868-873 | Each of the bridge's rounds on a pending request starts one update, and leaves the request pending if and only if the clear was lost: the bound is reached |
| Pairing.PairingStore.SetPairingState | server/handlers/handlers.go:596-651 | The handler's new table and answer for each state, refused posts included |
| Pairing.PairingStore.GetPairingState | server/store/sqlite.go:436-443 | The stored request, or idle |
| Notifications.PendingUntilHandedOver | server/store/sqlite.go:343-378 | In every run of the bridge's events, its own polling loop() calls included, in which only the bridge marks, each created row is still there with its text, and is pending until it has been handed over and marked |
| Notifications.AlertedIffAccepted | esphome/components/pinetime_bridge/pinetime_bridge.cpp:1079-1084 | A notification handed over whose marking post arrives: then and ever after its alerts on the link, carried out, failed or dropped are those accepted before, plus this one if and only if the stack accepts it; and the alerts recorded as on the link are those in the air, in order and text |
| Notifications.RunKeepsLedger | esphome/components/pinetime_bridge/pinetime_bridge.cpp:1236-1250 | In every run, with writes carried out, failing and dropped with the link, every accepted alert is in exactly one of those places |
| Notifications.DroppedAlertIsLost | esphome/components/pinetime_bridge/pinetime_bridge.cpp:281-314 | An alert a drop finds on the link is never carried out if its row is settled |
| Notifications.HandedOncePerPost | esphome/components/pinetime_bridge/pinetime_bridge.cpp:1079-1084 | Over every run a row is handed over exactly once for each of its marking posts that is lost, and once more if it is settled in the run |
| Notifications.SettledStays | esphome/components/pinetime_bridge/pinetime_bridge.cpp:1058-1092 | For a row no longer pending no further alert is accepted, and none is carried out once none is on the link |
| Notifications.EventDelivers | esphome/components/pinetime_bridge/pinetime_bridge.cpp:179-187 | Every event marks exactly the non-empty notifications its poll lists, with an ANS handle, and, drops aside, puts exactly the accepted ones' alerts on the link |
| Notifications.AlertReadsBack | esphome/components/pinetime_bridge/pinetime_bridge.cpp:1229-1237 | An alert's header and text read back, the text cut to 97 bytes, and two texts give the same alert if and only if they agree up to there |
| Notifications.StepConserves | esphome/components/pinetime_bridge/pinetime_bridge.cpp:1058-1092 | Each step keeps that, and marks nothing while the ANS handle is 0 |
| Notifications.DeliveryMarks | esphome/components/pinetime_bridge/pinetime_bridge.cpp:1066-1090 | The delivery loop marks exactly the non-empty listed notifications, in order, and writes exactly the accepted ones among them |
| Notifications.NotificationStore.ListPendingNotifications | server/store/sqlite.go:355-373 | Exactly the pending rows, each once, oldest first |
| Notifications.NotificationStore.MarkNotificationDelivered | server/store/sqlite.go:375-378 | Only the named row stops being pending |
| Notifications.NotificationStore.CreateNotification | server/store/sqlite.go:343-353 | A new pending row under an id never used before |
| MacAddress.MacRoundTrip | esphome/components/pinetime_bridge/pinetime_bridge.cpp:788-795 | Parsing the 17-character text of any address gives the address, modulo 2^48 |
| MacAddress.BdaRoundTrip | esphome/components/pinetime_bridge/pinetime_bridge.cpp:898-913 | The six bytes shifted together are the address, modulo 2^48 |
| MacAddress.Printed | esphome/components/pinetime_bridge/pinetime_bridge.cpp:788-795 | Each two-digit field of the text reads back as its byte |

## Left out

- The watch firmware: the DFU peer is a conformant Legacy DFU watch, with its verdicts and its choice to send a receipt
  for the last packet left open; the reminder table accepts every slot and changes only by the commands written to it.
- `write_char` results during an update are ignored by the program; delivery in order without loss is assumed there.
- The write-failure and disconnect branches of the update client are modelled, but the bridge forwards only
  notifications to it.
- Interleaving inside a handler: the Bluetooth task and the main task run whole handlers in some order here, and
  `CreateReminder` reads the listing and inserts in one step.
- The BLE stack: service discovery is "handles become known", with reminder, ANS and CTS handles in one record; each
  write is accepted or refused by an input; each accepted write completes, fails or is lost with the link.
- SyncProtocol.CacheAgreement: runs in which a queue write is refused, a reminder write fails on the link, a discovery
  finds the upload but not the delete handle, or a drop goes unnoticed are excluded, because there the property fails;
  the lemmas under "What does not hold" say when.
- UpdateOnBridge.UpdateOnBridgeIsSafe: a drop during an update is excluded; the client is not told of it, and the session
  runs into the time-out (`StuckSessionsEnd`).
- Recovery.SyncHeals: a snapshot whose hash is 0 is not sent (`ZeroHashIsNeverSent`), and reminder traffic waits while an
  update runs and in its grace period (`BatchesWaitForGrace`); those states are excluded.
- HTTP, JSON, SQL text, files, logging, heartbeats, discovery posts: a poll is any snapshot, or nothing. The 4096-byte
  receive buffer is part of "or nothing".
- Clock readings inside a handler are the event's reading; the poll intervals of pairing and discovery are inputs.
- Reads of battery, steps and uptime, acknowledgements, and the read-back of the list after a SYNC_ALL write, which is
  never queued.
- Passkey entry, GAP callbacks, reconnection back-off, and the bridge's own pairing posts other than the clear.
- MacAddress.MacRoundTrip: the scan is modelled on 17-character texts of six two-digit fields; `sscanf` also takes
  shorter fields and signs.
- Daylight saving and reminder times outside 00:00-23:59 in the agreement and optimality lemmas; the calendar is one of
  fixed offset, and the page's clock is cut to whole seconds.
- The page's sort is an insertion sort that is proved stable, standing for the built-in stable sort.
- Memory management of the download buffers, and a failed allocation; images are sequences of bytes.
- Several users and bridges, except where a key carries them; timestamps of rows; notification order within one second.
- Time write payload; speaker, tones, display and configuration code.
