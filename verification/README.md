# Sync-Fy: replication, wire protocol and failover

Sync-Fy keeps the files of a user's devices in step with a primary server, mirrors the server to
backups, and lets the backups elect a new primary when the old one dies. This project models that
machinery in Dafny and proves what it guarantees, bottom up:

1. **Bytes on the wire.** `TcpSocket` (partial `send` and `read` loops against an arbitrary operating
   system), `Header` (the 14-byte header and its shift loops), `Messages` (framing), `FileChunks`
   (64 KiB packets), `Payloads` (models over an abstract JSON library; `CodecExists` shows that the
   hypothesis on that library can be met), `FileTransfer` (both ends of a file transfer).
2. **Operations.** `BackupStream` (what a byte stream does to a backup and its current-user register)
   and `Monitors` (the sending monitors and the receiving handler as classes), `MonitorSteps` (their
   loops as steps of the engine).
3. **Replicas.** `Replication` (store, change log, queues, initial synchronisation and replicas as a
   step system over all interleavings), `ChangeQueues` (the queues as classes, tied to those steps)
   and `Convergence` (what every run guarantees).
4. **Failover.** `Registry` (connections, published node list, ids, reference counts, dirty flags),
   `Publishing` (the registry and the monitor's loop), `Election`, `ElectionBounds`, `ElectionReach` and
   `ElectionSpread` (the bully election with a clock and messages in flight: who wins, how long it takes and
   what it costs, when a challenge can still be answered, and how an election spreads),
   `BullyElection` and `ElectionMessages` (its loops and its exchanges), `Failover` (from one primary
   to the next).

Classes and loops of the program are classes and loops here; each method is specified by a function
(`SendMoved`, `WriteLoop`, `Dispatch`, `FanOut`, `AddBackup`, `Higher`, ...), and the theorems are about
those functions.

## Assumptions

- A kernel is an oracle: any call may move any number of bytes. Statements about whole messages assume
  that calls move at least one byte (`Willing`) until the peer's bytes are used up; what the end of the
  stream does (a zero-filled rest of the buffer, one close) is modelled. A receiver works on all the
  bytes its peer will ever send; reading while they are still arriving is a choice of shorter reads.
- A file does not change while it is being sent, and creating, listing and removing files succeed.
- The JSON library gives back the models it wrote (`Payloads.Faithful`), within `asUInt` and `asInt`.
- A change to the store and its enqueueing are one step, and so are a device's own change and the
  server's handling of it. The program does them in sequence without a common lock. One monitor works
  on one queue. A change on the channel of a device that is no longer registered, and a third device,
  throw in a thread and end the server: such steps are not enabled.
- In an election every listed backup stays reachable; a message is delivered and acted on within `delay`
  units; all backups hold the same list, with distinct ids, none of whose addresses is the word
  "localhost". `Failover` derives all but the delay from the registry and the wire, given that the flags
  are down and no peer address reads "localhost"; `ElectionReach` says exactly when a node that has
  stopped listening is never challenged. How long an election takes and costs is proved without any
  assumption on time or ids. Waiting on a clock nobody watches is not a step.
- A primary's lists are reset before its first accept, and every connection is removed once. The id,
  the lists and the files for one address travel on one stream.
- What a subscriber has on its disk when it joins is arbitrary: a client wipes its directory only when
  its process first watches it, and a backup never does. Nothing is assumed about how it got there.
- Popping a change and sending it are one step of the engine; the loops in `Monitors` send against a store
  that may be newer than the one they popped under, which is the change having come before the pop.
- Raising a flag and changing the list are one step, and so are sending a list and lowering its flag.

## Where the program does not do what it is for

- A subscriber that comes back with a file that was deleted meanwhile keeps it, because the initial
  synchronisation only creates (`Convergence.ReturningWithADeletedFile`, with a run in
  `Convergence.ReturningBackupKeepsDeletedFile`); `Convergence.ReturnIsExact` gives the exact condition.
- A device's upload is lost on that device when its own queue still holds a delete of the same file
  (`Convergence.OvertakenUploadIsLost`); `Convergence.OwnChangeIsExact` proves that this is the only way
  for a device's own change to come out wrong.
- Changes made through the command channel are not sent to backups;
  `Convergence.CommandsAreMissedByBackups` says exactly which of them are missed.
- These three are all there is: `Convergence.ComesRightExactlyWhen` decides every key of every subscriber
  from the run alone.
- A peer that closes without answering leaves a zeroed header, and zero is ALIVE: the close is taken for
  an answer (`ElectionMessages.AnswersAccepted`).
- A file transfer that is cut inside a packet writes zeros for what is missing, and can pass for complete
  (`FileTransfer.CutPayloadIsPadded`, `FileTransfer.CutHeaderPassesForComplete`).
- Ids are distinct within one primary's tenure only; `Failover.IdsAreReusedExactlyWhen` says when a
  successor hands one out again, and `Failover.AnIdIsReused` has one that does.
- With a timeout of two delays or less, in an election among any two or more nodes, every single one can
  end up its own primary (`ElectionBounds.SlowNetworkElectsEverybody`, exact by
  `ElectionBounds.TimeoutConditionIsExact`), and each of them can then be a successor
  (`Failover.SuccessorsAreTheListed`).
- A backup that was sent more than the winner when the primary died keeps it
  (`Convergence.UnsentUploadDividesBackups`); `Convergence.SurvivorsConvergeExactlyWhen` gives the condition.
- A backup that notices the death of the primary too late challenges a node that no longer listens
  (`ElectionReach.NoticingInTimeIsExact`).
- One client that does not answer ends a new primary's process (`Failover.RecoverAsPrimary`).

## Model

| member | source | states |
|---|---|---|
| Convergence.RunIsExact | server/src/primary/localMonitor/localMonitor.cpp:10-68 | in every reachable state, for every device and backup and every file of its business: sending what is left of the initial synchronisation and of the queue against the current store makes the replica right on that file if and only if the file is not recorded as lost |
| Convergence.DrainedIsView | server/src/primary/localMonitor/localMonitor.cpp:32-68 | in every state keeping the invariant, draining gives exactly the subscriber's part of the store if and only if nothing is lost |
| Convergence.ComesRightExactlyWhen | server/src/primary/localMonitor/localMonitor.cpp:10-68 | in every run, sending all that is left makes a key right on a subscriber if and only if the last step of the run that joined the subscriber or changed the key was not one of the three that spoil it |
| Convergence.RightAfterStep | server/src/primary/localMonitor/localMonitor.cpp:32-68 | one step, exactly: a join of the subscriber or a change of the key makes the key right unless it spoils it, and no other step makes a difference |
| Convergence.DevicesConverge | server/includes/primary/clientConnection/userConnection.hpp:113-141 | if a device itself never joins with a file that the server no longer has and never uploads a file whose newest change queued for it is a delete, then, whatever all other devices do on both channels, it always drains to the user's files, and holds them when idle with an empty queue |
| Convergence.OwnChangeIsExact | server/src/primary/clientMonitor/messageHandler.cpp:5-27 | a device's own change comes out right on it if and only if it is not an upload overtaken by a queued delete |
| Convergence.OvertakenUploadIsLost | server/src/primary/clientMonitor/messageHandler.cpp:5-27 | from any state with two devices, one of them idle: a delete by the other, an upload by the first and one pop leave the first idle without the file the server holds |
| Convergence.IdleIsExact | server/src/primary/localMonitor/localMonitor.cpp:17-24 | a subscriber with nothing left to receive equals the server on its business if and only if nothing is lost |
| Convergence.ReturnIsExact | server/includes/primary/backupConnection/backupMonitor.hpp:71-91 | a subscriber that joins with files on its disk comes right on a key if and only if the key is not among them or is still in the store |
| Convergence.StaysLost | server/includes/primary/backupConnection/backupMonitor.hpp:71-91 | a key that came out wrong stays wrong through every run in which the subscriber does not leave and the key does not change |
| Convergence.ReturningWithADeletedFile | server/includes/primary/backupConnection/backupMonitor.hpp:71-91 | a subscriber leaves with a file, a device deletes it, the subscriber returns with its disk: under any further run short of a change of that file it ends up without what the server has |
| Convergence.ReturningBackupKeepsDeletedFile | server/includes/primary/backupConnection/backupMonitor.hpp:71-91 | a run from an empty registry in which a backup that mirrored the store ends idle with a file the server no longer has |
| Convergence.BackupsConverge | server/includes/primary/backupConnection/backupMonitor.hpp:20-91 | a backup that brings back no deleted file and misses no command drains to the whole store of all users, whenever and however often it joins, and holds it when idle |
| Convergence.DataChannelSpoilsNothing | server/src/primary/clientMonitor/messageHandler.cpp:5-27 | with changes through the data channel only, a run spoils nothing for a backup if and only if whatever it brings back when it joins is still in the store |
| Convergence.SurvivorsConvergeExactlyWhen | server/src/main.cpp:155-161 | the primary dies at any moment: a survivor that returns to the winner with its disk as it is drains to its part of the winner's files if and only if the winner has every file that it has |
| Convergence.SurvivorComesRightExactlyWhen | server/src/main.cpp:155-161 | and under any further run a file comes right on it if and only if the last step that changed the file or rejoined the survivor did not spoil it, or, while there was none, if the winner has it or the survivor has not |
| Convergence.SurvivorsConverge | server/src/main.cpp:155-161 | in particular a survivor that was up to date with a winner that was up to date has lost nothing and goes on converging |
| Convergence.UnsentUploadDividesBackups | server/src/main.cpp:155-161 | a run from an empty server at whose end one backup has been sent an upload and the other, which wins, has not: the first does not converge |
| Convergence.CommandsAreMissedByBackups | server/src/primary/command/messageHandler.cpp:19-33 | in every state keeping the invariant a backup comes right on a command's file if and only if the command is not missed, that is unless no create or delete still queued or listed carries it along; one that is up to date with nothing left to receive misses exactly the commands that change the store |
| Convergence.MissedCommandRun | server/src/primary/command/messageHandler.cpp:19-33 | a run from an empty server that leaves a backup idle without a file made through the command channel |
| Convergence.DrainingHappens | server/src/primary/localMonitor/localMonitor.cpp:10-43 | from every reachable state a monitor left alone comes to its end in steps of its own, with exactly the replica that draining promises |
| Convergence.WhoMayAct | server/src/primary/localMonitor/localMonitor.cpp:10-43 | nobody waits for anybody else: when a send, a change, a join or a leave is possible |
| Convergence.ChangesAreDeliveredInOrder | server/includes/primary/clientConnection/userConnection.hpp:113-141 | changes popped followed by changes queued are exactly the log since the subscriber joined, filtered by user and by not being its own: nothing lost, duplicated or reordered |
| Convergence.BackupHoldsPrimaryStore | server/includes/primary/backupConnection/backupMonitor.hpp:93-120 | at any moment of any run a backup that consumes, on top of the disk it joined with, the bytes of what was sent to it, list and id updates interleaved anywhere, holds the engine's replica; with nothing left to receive, that is the primary's file or absence of a file for exactly the keys that the run did not spoil, and the whole store if it spoilt none |
| Replication.InvStep | server/src/primary/localMonitor/localMonitor.cpp:10-68 | every step keeps scope, delivery order, replay on top of the disk of what was sent to backups, exactness of the lost set, and the cap of two devices |
| Replication.MonitorStepKeeps | server/src/primary/localMonitor/localMonitor.cpp:32-68 | listing a directory, sending a listed file and popping a change leave what draining will give unchanged |
| Replication.TouchedExact | common/include/messages/fileMessageHandler.hpp:183-235 | a change of the store by anyone keeps the lost set exact for every subscriber |
| Replication.DrainHead | server/src/primary/localMonitor/localMonitor.cpp:17-24 | sending the head of the queue and draining the rest is draining the queue |
| ChangeQueues.DeviceQueuesFanOut | server/src/primary/clientMonitor/messageHandler.cpp:5-27 | a change step pushes to the device queues of its user as the two addFileChange overloads do, and to no other user's |
| ChangeQueues.BackupQueuesFanOut | server/includes/primary/backupConnection/backupConnectionHandler.hpp:110-118 | a change step pushes to all backup queues from the data channel and to none from the command channel |
| ChangeQueues.DeviceQueuesComeAndGo | server/includes/primary/clientConnection/userConnection.hpp:42-78 | a device joins and leaves the engine exactly when addClientConnection and removeClientConnection let it, with their effect on the user's queues |
| ChangeQueues.UserConnection.AddClientConnection | server/includes/primary/clientConnection/userConnection.hpp:42-68 | an existing queue, a new empty one, or refusal at two devices; other queues untouched |
| ChangeQueues.UserConnection.RemoveClientConnection | server/includes/primary/clientConnection/userConnection.hpp:74-78 | exactly that address goes |
| ChangeQueues.UserConnection.AddFileChangeFrom | server/includes/primary/clientConnection/userConnection.hpp:113-127 | every queue but the sender's gets the change at its end; an unknown sender changes nothing |
| ChangeQueues.UserConnection.AddFileChange | server/includes/primary/clientConnection/userConnection.hpp:134-141 | every queue gets the change at its end |
| ChangeQueues.AtomicQueue.Push | common/include/atomic/atomicQueue.hpp:37-41 | appends |
| ChangeQueues.AtomicQueue.Pop | common/include/atomic/atomicQueue.hpp:48-58 | takes the oldest element, or reports the exception |
| ChangeQueues.AtomicQueue.TryPop | common/include/atomic/atomicQueue.hpp:65-75 | takes the oldest element, or leaves the reference as it was |
| Monitors.SendFileChange | server/includes/primary/backupConnection/backupMonitor.hpp:93-120 | puts on the wire the user prefix on a backup's socket and none on a device's, then the file as it is now, nothing if it vanished, or the delete |
| Monitors.LocalMonitor.MonitorChanges | server/src/primary/localMonitor/localMonitor.cpp:10-43 | with everybody else writing files and pushing changes in between: the listing, each file as it is when its turn comes, then at most one queued change per turn, in order, and the rest stays queued |
| Monitors.BackupMonitor.MonitorChanges | server/includes/primary/backupConnection/backupMonitor.hpp:20-58 | with everybody else writing, pushing and raising flags in between: the listing, then per turn at most one change and each list whose flag is up, which it lowers, until a turn finds the socket dead and closes it |
| Monitors.BackupMessageHandler.HandleMessage | server/includes/backupMessageHandler.hpp:91-165 | the dispatch on one message with the stream behind it, for any reads: view, rest of the stream, reply and close as specified |
| Monitors.BackupMessageHandler.MonitorMessages | common/include/messages/messageHandler.hpp:89-128 | the whole loop does to the view what the stream means, however the reads cut it |
| Monitors.Replicate | server/includes/primary/backupConnection/backupMonitor.hpp:20-58 | both ends, each with its own fragmentation and everybody else at work: the backup ends with the user-tagged operations applied directly, answers nothing and leaves no byte unread |
| MonitorSteps.StepsAreTurns | server/src/primary/localMonitor/localMonitor.cpp:17-24 | what any run of the engine, others joining and leaving at will, records as sent to a subscriber that stays connected is its listing, each file as of its moment, and then what a loop popping once per turn sends when it finds the same changes and store |
| Monitors.IdleTurnsSendNothing | server/src/primary/localMonitor/localMonitor.cpp:17-24 | what a loop sends is what its turns that find something to pop send |
| MonitorSteps.SentIsWhatCameFirst | common/include/atomic/atomicQueue.hpp:37-75 | what a loop sends are the changes that came first, in order, one for each turn that finds something |
| MonitorSteps.RestIsWhatCameLast | common/include/atomic/atomicQueue.hpp:37-75 | and what stays queued are all the others, in order: nothing is dropped |
| MonitorSteps.DeviceIsSentItsFiles | server/src/primary/localMonitor/localMonitor.cpp:32-43 | the initial synchronisation of a device sends every listed file of its user as it is at that moment, or nothing of it, and never a delete |
| MonitorSteps.BackupIsSentAllFiles | server/includes/primary/backupConnection/backupMonitor.hpp:71-91 | the initial synchronisation of a backup sends every listed file of every user likewise |
| MonitorSteps.MonitorSendsWhatTheEngineRecords | server/includes/primary/backupConnection/backupMonitor.hpp:20-58 | the files that the loop of BackupMonitor puts on the wire are the engine's, with idle turns, raised flags, lists and a dead socket anywhere |
| MonitorSteps.LocalMonitorSendsWhatTheEngineRecords | server/src/primary/localMonitor/localMonitor.cpp:10-43 | the files that the loop of LocalMonitor puts on the wire are the engine's, with idle turns anywhere |
| MonitorSteps.EveryRunIsMet | server/includes/primary/backupConnection/backupMonitor.hpp:20-58 | for every run of the engine there are a listing and turns of the loop that meet it |
| MonitorSteps.EveryDeviceRunIsMet | server/src/primary/localMonitor/localMonitor.cpp:10-43 | for every run of the engine and every device that stays connected there are a listing, a queue of names and turns that meet it |
| Publishing.LoopSendsWhatIsPublished | server/includes/primary/backupConnection/backupMonitor.hpp:35-47 | whatever connects, leaves and changes in between, the lists that the loop puts on the wire are those that the registry counts as sent to that address |
| BackupStream.StreamMeansOperations | server/includes/backupMessageHandler.hpp:76-123 | consuming the bytes of any operations, files cut in packets of any size, equals applying them directly, vanished files and list updates included, whatever the register held before |
| BackupStream.MonitorFile | common/include/messages/fileMessageHandler.hpp:183-214 | a whole file transfer in the middle of a stream stores exactly that file under the current user and continues behind it |
| BackupStream.FilesGoByTheRegister | server/includes/backupMessageHandler.hpp:76-123 | a file or a delete goes to the current user, or, before any user was named, to the working directory, where it touches nobody's files |
| BackupStream.OpTypes | server/includes/primary/backupConnection/backupMonitor.hpp:93-120 | the types of the messages of every operation, in order, with the user prefix on a backup's socket only |
| BackupStream.DownloadRoundTrip | common/include/messages/fileMessageHandler.hpp:158-178 | the reply to a request for a file, read back, is that file, and one pure ERROR if there is none; nothing else changes |
| BackupStream.SurvivesExactlyWhen | server/includes/backupMessageHandler.hpp:91-123 | the process survives a message if and only if it is ALIVE or carries the model of its type |
| BackupStream.BadMessageEndsTheProcess | server/includes/backupMessageHandler.hpp:91-123 | nothing behind a message that the process does not survive has any effect |
| FileTransfer.FileRoundTrip | common/include/messages/fileMessageHandler.hpp:44-48 | any file below 2^32 bytes, cut into packets of any size, is announced and rebuilt byte for byte, and the receiver stops exactly at its last packet |
| FileTransfer.WriteLoopReadsChunks | common/include/filesystem/file.hpp:113-142 | the write loop over the packets of the unread part of a file appends exactly that part and consumes exactly those packets |
| FileTransfer.BrokenOffKeepsWhatCame | common/include/messages/fileMessageHandler.hpp:183-214 | the first j packets of a file followed by the end of the stream, by any message that is not a packet or by an empty packet leave exactly the first j chunks, incomplete |
| FileTransfer.CutPayloadIsPadded | common/include/messages/fileMessageHandler.hpp:183-214 | a transfer cut inside a payload writes the missing bytes as zeros, and passes for complete if it was the last packet |
| FileTransfer.CutHeaderIsPadded | common/include/messages/fileMessageHandler.hpp:183-214 | a transfer cut inside the header of a packet writes as many zeros as the part of the size that came says, or nothing before the type has come |
| FileTransfer.CutHeaderPassesForComplete | common/include/messages/fileMessageHandler.hpp:183-214 | cut after the size and within the packet number, any packet numbered below 256 is replaced by zeros and taken for the last one |
| FileTransfer.WriteFile | common/include/filesystem/file.hpp:113-142 | the loop equals its specification for every positive read schedule; what that leaves of whole, broken-off and cut transfers is stated by the rows around |
| FileTransfer.SendFileDataMessage | common/include/messages/fileMessageHandler.hpp:139-151 | sends the packets of the file in order and counts all its bytes |
| FileTransfer.SendFileMessage | common/include/messages/fileMessageHandler.hpp:44-48 | the announcement with the file's size, then its packets |
| FileTransfer.TransferFile | common/include/messages/fileMessageHandler.hpp:183-214 | over two sockets with independent kernels the received bytes are the sent file and what follows stays unread |
| FileChunks.ChunksPartitionFile | common/include/filesystem/fileChunk.hpp:36-49 | ceil(size / chunk) non-empty packets, full but perhaps the last, numbered from 1, whose concatenation is the file; exactly the last one says it is the last |
| FileChunks.File.ReadFile | common/include/filesystem/file.hpp:95-105 | the loop produces exactly those packets |
| FileChunks.File.GetChunkData | common/include/filesystem/file.hpp:176-182 | the next chunk, or what is left |
| Messages.FramingRoundTrip | common/include/messages/message.hpp:70-80 | a message comes back from the wire, with the rest of the stream, if and only if its header announces its payload |
| Messages.FramingIsUniquelyDecodable | common/include/messages/messageHandler.hpp:70-84 | parsing the concatenation of any announced messages gives those messages and leaves nothing |
| Messages.FramingIsInjective | common/include/messages/messageHandler.hpp:70-84 | two sequences of announced messages never share a byte stream |
| Messages.PureOnTheWire | common/include/messages/message.hpp:21-23 | a pure header, all 14 bytes of it |
| Messages.RawOnTheWire | common/include/messages/message.hpp:43-46 | a packet: its tag, type, size, number and how many there are, most significant byte first, and its bytes as they are |
| Messages.CutPayload | common/include/messages/messageHandler.hpp:70-84 | a message whose payload is cut off by the end of the stream reads with the missing part as zeros |
| Messages.ConstructorsWellFormed | common/include/messages/message.hpp:21-55 | the constructors announce a payload correctly if and only if its size fits 32 bits |
| Messages.ReceiveMessage | common/include/messages/messageHandler.hpp:70-84 | one message off the stream for every positive read schedule |
| Messages.SendMessage | common/include/messages/messageHandler.hpp:196-201 | the serialised message, whole, for every positive send schedule |
| Payloads.SendModelMessage | common/include/messages/messageHandler.hpp:40-44 | the model's type and encoding as one JSON message |
| Payloads.ModelOnTheWire | common/include/messages/messageTypes.hpp:84-113 | the tag and type numbers of every model on the wire, and its encoding behind the header |
| Header.DeserializeSerialize | common/include/messages/messageTypes.hpp:84-149 | headers survive serialisation |
| Header.SerializeDeserialize | common/include/messages/messageTypes.hpp:84-149 | every 14-byte string is the serialisation of the header read from it |
| Header.HeaderLayout | common/include/messages/messageTypes.hpp:84-113 | the 14 bytes one by one: two tags, then size, packet and number of packets, each with the most significant byte first |
| Header.HeaderReading | common/include/messages/messageTypes.hpp:120-149 | what any 14 bytes are read as, field by field, most significant byte first |
| Header.PushField | common/include/messages/messageTypes.hpp:94-98 | the shift loop pushes the four bytes that `FourDigits` spells out, most significant first |
| Header.ExtractField | common/include/messages/messageTypes.hpp:128-132 | the accumulation loop reads the four bytes at an offset, with the value that `FieldValue` spells out, within 32 bits |
| Header.SerializeHeader | common/include/messages/messageTypes.hpp:84-113 | the method gives the header as laid out in `HeaderLayout` |
| Header.DeserializeHeader | common/include/messages/messageTypes.hpp:120-149 | the method reads the header as in `HeaderReading` |
| TcpSocket.TCPSocket.Send | common/include/socket/tcpSocket.hpp:75-103 | for any operating system results: the whole buffer in order, or exactly a prefix followed by one close |
| TcpSocket.TCPSocket.Receive | common/include/socket/tcpSocket.hpp:111-136 | for any operating system results: the buffer filled in order, or exactly a prefix followed by one close, the rest of it untouched |
| TcpSocket.WillingSendsAll | common/include/socket/tcpSocket.hpp:75-103 | every schedule of positive results sends everything |
| TcpSocket.WillingReadsAll | common/include/socket/tcpSocket.hpp:111-136 | every schedule of positive results reads everything the peer has |
| TcpSocket.SendMovesWhatIsOffered | common/include/socket/tcpSocket.hpp:75-103 | for any operating system results: what moves is what the calls offer, capped by chunk and buffer, up to the first call that finds the socket dead or moves nothing |
| TcpSocket.ReadMovesWhatIsOffered | common/include/socket/tcpSocket.hpp:111-136 | for any operating system results: what moves is what the calls offer, capped by chunk, buffer and what the peer sends, up to the first call that moves nothing |
| Registry.RegistryAgrees | server/includes/primary/backupConnection/backupConnectionHandler.hpp:49-108 | after any connects and matching disconnects: one node per connection, same id, and live sockets of an address are its counter plus one, although removal compares addresses only |
| Registry.IdsAreDistinctAndAbove | server/includes/primary/backupConnection/backupConnection.hpp:26-30 | listed ids are distinct, strictly above the primary's own and below the next one |
| Registry.IdsAreNumberedInOrder | server/includes/primary/backupConnection/backupConnection.hpp:26-30 | whatever comes and goes, the ids a primary ever hands out are its own plus one, plus two and so on, each once |
| Registry.QuietRegistryIsPublished | server/includes/primary/backupConnection/backupMonitor.hpp:35-47 | every connected backup was last sent its own id, and whenever a flag is down the list last sent on it is the current one |
| Registry.SoundAfter | server/includes/backupState.hpp:31-71 | every operation keeps agreement, counting and freshness |
| Registry.BackupConnectionHandler.AddBackupConnection | server/includes/primary/backupConnection/backupConnectionHandler.hpp:49-75 | counts a further socket, or adds connection, id, empty queue and node and raises every node flag |
| Registry.BackupConnectionHandler.RemoveBackupConnection | server/includes/primary/backupConnection/backupConnectionHandler.hpp:88-108 | counts down, or removes connection and node and raises every node flag |
| Registry.BackupConnectionHandler.AddConnectedClientIp | server/includes/backupState.hpp:31-39 | appends the address and raises every address flag |
| Registry.BackupConnectionHandler.RemoveConnectedClientIp | server/includes/backupState.hpp:51-60 | removes every occurrence of the address and raises every address flag |
| Registry.ClientsAreThoseStillThere | server/includes/backupState.hpp:31-60 | after any history the client addresses are those of the clients that came and have not left since, in order of arrival |
| Registry.ClientsAreCounted | server/includes/backupState.hpp:31-60 | each address is listed as often as it came since it last left |
| Registry.ListedExactlyWhileConnected | server/includes/primary/backupConnection/backupConnectionHandler.hpp:49-108 | an address is on the node list if and only if it has connected more often than it has disconnected |
| Registry.FlagsMoveExactly | server/includes/backupState.hpp:31-71 | a flag goes up with its own list and down with its own message, and with nothing else |
| Registry.BackupConnectionHandler.HasUpdatedConnectedBackupNodes | server/includes/primary/backupConnection/backupConnectionHandler.hpp:151-158 | raises every node flag and nothing else |
| Registry.BackupConnectionHandler.AddFileChange | server/includes/primary/backupConnection/backupConnectionHandler.hpp:110-118 | every backup queue gets the change at its end |
| Registry.BackupState.EraseNode | server/includes/backupState.hpp:62-71 | erases the nodes with that address, keeping the order of the others |
| Election.NoTimeoutBelow | server/includes/backup/bullyElection.hpp:65-78 | while a larger id is listed, a waiting node's time cannot run out unanswered: the guard is derived from the deadlines of the messages in flight |
| Election.OnlyTheTopDeclaresVictory | server/includes/backup/bullyElection.hpp:32-85 | in every run only the node with the largest id declares victory, so never two |
| Election.WinnerIsAcknowledged | server/includes/backup/bullyElection.hpp:87-136 | the winner leaves the backup loop only after every other node took its address, and nobody else leaves it |
| Election.FinishedElectionHasOneWinner | server/src/main.cpp:112-118 | a run with no step left has exactly one winner, and every other node's primary is that winner |
| ElectionBounds.EveryRunLeadsToOneWinner | server/src/main.cpp:112-118 | every run, however far it got, goes on to a state with no step left and one winner that all others follow |
| Election.InvStep | server/includes/backup/bullyElection.hpp:32-136 | every step keeps the invariant on messages, deadlines, processes and addresses |
| ElectionSpread.ChallengeMakesACandidate | server/includes/backup/bullyElection.hpp:119-126 | receiving a challenge is answered, and makes its receiver a candidate that challenges everybody above it, unless it was one already |
| ElectionSpread.OneNoticeIsEnough | server/includes/backup/bullyElection.hpp:32-63 | the bully law, on any network: if one backup alone notices the death of the primary, then once nothing moves any more exactly that one and those above it have taken part and the largest id is a winner |
| ElectionSpread.WhoeverNoticesTheLargestWins | server/includes/backup/bullyElection.hpp:32-106 | whoever notices, some run in which nobody else does leads to the victory of the largest id, the only one where the timeout exceeds two delays, with its address at all the others |
| ElectionBounds.EveryElectionTerminates | server/includes/backup/bullyElection.hpp:35-85 | among any nodes, with any timeout and any delay, no run, ticks included, is longer than a bound in nodes, timeout and delay |
| ElectionBounds.EveryElectionFinishes | server/includes/backup/bullyElection.hpp:35-85 | from every well-formed state some run leads to one with no step left |
| ElectionBounds.StepLowers | server/includes/backup/bullyElection.hpp:32-136 | every step of every well-formed state takes work out of the election, on any network |
| ElectionBounds.ElectionCost | server/includes/backup/bullyElection.hpp:47-63 | on any network at most n(n-1)/2 ELECTION and n(n-1) COORDINATOR messages; with distinct ids, once finished, exactly n(n-1)/2, and n-1 for each winner, of which there is at least one |
| ElectionBounds.FastElectionCost | server/includes/backup/bullyElection.hpp:91-105 | with a timeout of more than two delays at most n-1 COORDINATOR messages, and exactly that many once finished |
| ElectionBounds.SlowElectionSettles | server/includes/backup/bullyElection.hpp:65-85 | on any network a finished election has nothing in flight, everybody passive or a winner, and the largest ids among the winners |
| ElectionBounds.SlowNetworkElectsEverybody | server/includes/backup/bullyElection.hpp:66-78 | with a timeout of two delays or less, for every list with distinct ids, some election ends with every node its own primary and n(n-1) COORDINATOR messages |
| ElectionBounds.TimeoutConditionIsExact | server/includes/backup/bullyElection.hpp:66-72 | for every list of two or more nodes, only the largest id declares victory in all runs if and only if the timeout exceeds two delays |
| ElectionReach.ChallengesPrecedeVictory | server/src/main.cpp:112-118 | if every backup has noticed the death, or been challenged, more than a delay before the timeout, then once anybody declares victory, and so before anybody stops listening, no challenge is in flight and none will be made |
| ElectionReach.LateChallengeMeetsClosedNode | server/src/main.cpp:112-118 | otherwise, for every list, a run that ends with a winner that no longer listens and a challenge of every other node to it in flight |
| ElectionReach.NoticingInTimeIsExact | server/src/main.cpp:112-118 | for every list of two or more nodes, challenges are over before every victory, in all runs, if and only if spread plus delay is below the timeout |
| BullyElection.BullyElection.StartElection | server/includes/backup/bullyElection.hpp:32-85 | at most one election per object; contacts exactly the larger ids in list order; tells all others and takes over exactly when the reading that ends the wait shows no answer, and otherwise tells nobody and keeps its primary |
| BullyElection.BullyElection.WaitForAnswer | server/includes/backup/bullyElection.hpp:65-78 | ends at the first reading with the time up or the flag raised; victory if and only if no answer has been seen by then |
| BullyElection.BullyElection.DeclareVictory | server/includes/backup/bullyElection.hpp:87-106 | tells every other listed node once, in order, and becomes its own primary |
| BullyElection.ChallengesAreHigher | server/includes/backup/bullyElection.hpp:47-63 | the messages of an election step go to exactly the nodes the loop contacts |
| BullyElection.CallsAreOthers | server/includes/backup/bullyElection.hpp:91-103 | before each turn the declaring loop has called every other earlier node and nobody else |
| BullyElection.OthersAreTheRest | server/includes/backup/bullyElection.hpp:91-103 | with distinct ids the declaring loop tells the whole list but itself, in list order |
| BullyElection.HigherAreThoseBehind | server/includes/backup/bullyElection.hpp:47-63 | on a list in order of ids, as a primary publishes it, a candidate challenges exactly those behind it, in order |
| ElectionMessages.Exchange | server/includes/backup/bullyElection.hpp:113-136 | over fragmenting sockets the peer acts on the challenge or announcement and the sender gets its ALIVE, nothing left over |
| ElectionMessages.ElectionMessageHandler.HandleOne | server/includes/backup/electionMessageHandler.hpp:64-82 | acts on pure ELECTION and COORDINATOR headers only, and answers exactly those with ALIVE |
| ElectionMessages.AnswersAccepted | server/includes/backup/electionMessageHandler.hpp:46-54 | an answer is accepted if and only if its second byte is ALIVE or the peer closed before sending two bytes |
| ElectionMessages.ReactsExactlyTo | server/includes/backup/electionMessageHandler.hpp:64-82 | a pure header of type 2 starts an election, one of type 1 ends it, and nothing else does either |
| Failover.BackupHoldsPublishedLists | server/includes/backupMessageHandler.hpp:125-165 | a backup that consumed its stream, whatever it held before, holds the id the primary knows it by, and for each flag that is down the primary's list; on the node list it is under the id that it holds |
| Failover.PublishedListIsElectable | server/includes/primary/backupConnection/backupConnectionHandler.hpp:49-108 | the registry discharges what the election asks of its list |
| Failover.BackupsAgree | server/includes/backupMessageHandler.hpp:125-165 | with all flags down, all backups hold one and the same list, whose nodes are exactly the connected ones, each holding the id that it has there |
| Failover.HeldListsDriveTheElection | server/includes/backup/bullyElection.hpp:47-63 | on the list and id that a backup holds its loops contact exactly the nodes its process in the election contacts |
| Failover.FailoverElectsOnePrimary | server/src/main.cpp:155-161 | registry, wire and election together, over what the backups hold: from however far it got, the election ends with exactly one new primary, whose held id is above the old primary's and every other backup's, whose client addresses are those of the clients that came to the old primary and had not left, and whose address all others have |
| Failover.EveryPrimaryIsSucceeded | server/src/main.cpp:155-161 | every primary that leaves backups behind has a successor |
| Failover.SuccessorIsAbove | server/includes/backupMessageHandler.hpp:153-165 | on any network a successor's id is a listed one, above its predecessor's and handed out by it |
| Failover.SuccessorsAreTheListed | server/includes/backup/bullyElection.hpp:66-85 | on some network a backup becomes a successor if and only if it is listed |
| Failover.SuccessorInTimeIsLargest | server/includes/backup/bullyElection.hpp:66-85 | where the timeout exceeds two delays a backup becomes the successor if and only if its id is the largest listed |
| Failover.PrimaryIdsIncrease | server/includes/primary/backupConnection/backupConnection.hpp:26-30 | along any chain of failovers, through elections on any networks, primaries' ids strictly increase |
| Failover.IdsAreReusedExactlyWhen | server/includes/primary/backupConnection/backupConnection.hpp:26-30 | an id that its predecessor handed out is handed out by a successor if and only if it numbers anyone and was not the last one numbered |
| Failover.AnIdIsReused | server/includes/primary/backupConnection/backupConnection.hpp:26-30 | a primary and its successor that both hand out the same id |
| Failover.RecoverAsPrimary | server/src/main.cpp:48-65 | resets both lists and dials the published client addresses once per entry, in order, up to the first that does not answer, which ends the process |

## Left out

- ClientConnectionHandler: the map from users to their connections and the three accept callbacks; the engine's `Join` and `Leave` steps stand for them.
- The callbacks of `readFile` and `writeFile` are inlined: `ReadFile` returns its packets, which are then sent, and `WriteFile` receives them itself.
- The initial synchronisation of a backup is one listing in the class and one directory at a time in the engine.
- ID arithmetic: `nextId` and ids are unbounded, where the program has `int`.
- Sockets, poll, pipes, host lookup, connect retries and the real file system are oracles or maps; an empty user directory is not distinguished from none.
- The JSON text format: an encoder and a decoder with a round-trip hypothesis.
- A backup crashing during an election, where the program exits, and connection loss in mid-exchange between monitors.
- What a client changes on its disk while it is not connected: such changes reach the server only as changes made after it has joined.
- Mutexes and object lifetimes below the level of the locked methods; `use_count` as the end of a monitor loop is the number of turns it is given.
- The client's command line, directory watcher and echo suppression, file listings, keep-alive and reconnect code.
