# Verified model of the watcher's delivery core

The watcher reads changes from PostgreSQL (logical replication) and MySQL
(binlog), numbers and names them, passes them over an in-process event bus to a
publisher, and stores them in a deduplicating NATS stream. It confirms a log
position to its source only once everything before that position is stored.
This project models that core in Dafny and proves what it promises, for every
run: with crashes at any point, reconnects in the middle of a transaction, lost
acks, late statuses, retries and oversized events.

`dafny verify dfyconfig.toml` checks everything.

## How it is put together

| module | what it models |
|---|---|
| `Text`, `SourceIds` | numerals, source ids and message ids |
| `Streams` | the deduplicating stream, and queues that feed it without a gap |
| `PgGate`, `PgListener`, `PgDelivery`, `PgOversize` | the Postgres ack gate, the listener's own code, the whole protocol from slot to stream, and exactly when it loses something |
| `MySqlGate`, `MySqlHandler`, `MySqlListener`, `MySqlBinlog`, `MySqlDelivery`, `MySqlOrder`, `MySqlOversize`, `MySqlDumps` | the MySQL commit gate, the binlog callbacks and the listener's own code, what they make of a binlog, the protocol from offset file to stream, the order of saved offsets, exactly when it loses something, and what a backup file does to it |
| `Cdc`, `Ladder`, `Publisher`, `PublisherSteps`, `Bus` | events and their shortened forms, the size ladder, the publish loop with its retries, how one delivery is a sequence of both protocols' steps, the event bus under every interleaving |
| `JsonText`, `PgWire`, `PgOutput`, `PgRow`, `PgMessages`, `PgColumns`, `PgReplay` | JSON escaping and grammar, the bounds-checked reader, the decoder, rendered rows, the messages PostgreSQL sends, what comes out of them column by column, and a transaction that is streamed again |
| `Snapshot`, `SlotCleaner` | keyset-paged snapshots of a changing table, and the orphan-slot cleaner |

Code that changes fields step by step is a class whose methods are proved
against functions of the old state (`AckGate`, `CommitGate`, the two `Listener`s,
`EventHandler`, `NatsPublisher`, `Reader`, `Parser`, `Cleaner`) or a method with
a loop. The concurrent protocols are state machines: `Run(env, steps)` is the
state after a sequence of steps, and a theorem about `Run` is about every
interleaving. Interference inside one call is a parameter: the values other
threads store during the compare-and-swap loop, the acks that land between the
two halves of a keepalive, the clock readings of a cleanup pass.

## What is taken from outside

- The server streams, in commit order, every transaction that ends after the
  slot position, and a keepalive position has every earlier commit already
  streamed, except possibly the transaction being streamed at that moment
  (section 55.5 of the PostgreSQL 16 manual). The slot may adopt any position
  ever reported to it, at any later time and in any order.
- Commit ends increase strictly, commit positions differ, and log positions fit
  64 bits. The binlog is well formed: groups in order, rotates between
  transactions, positions below 2^32.
- An ack from the stream means the message is stored; an attempt under an ended
  context stores nothing.
- Whether an event passes the filters and fits the stream does not change
  between restarts; gating is enabled and the publisher subscribed before
  streaming starts; the listeners stop before the bus is shut down, as the order
  of defers in main.go:47-82 has it, so no change is refused by a shutdown; the
  initial MySQL offset was saved (the code only logs it when that fails,
  internal/mysql/listener.go:165-172).
- A start may find any of a set of backup dumps, or none, and each was taken
  between two groups of the binlog. Whether one is older or newer than the saved
  offset is left open: results that need it say so.
- The offset file is written whole or not at all.
- Text on the wire is UTF-8: decoding it is a parameter of the decoder, and so
  is the library's check that a text is JSON.

## Where the code falls short of its promise

- An event too large even without its data is given up, and the Postgres gate
  goes by the highest acked sequence. `PgOversize.LosslessIff`: no run loses a
  change if and only if all accepted changes fit in some form, or none does;
  `PgOversize.OversizeLoses` builds the losing run for every other source.
- The MySQL gate counts acks without asking whose they are, so the acks of later
  events make up for one that was given up. `MySqlOversize.LosslessIff`: no run
  loses a change if and only if at every usable boundary the changes before it
  that fit in no form are none, or outnumber the changes after it that fit, and
  no dump was taken after a change that has to be delivered. A restart does not
  change that. `MySqlOversize.OversizeLoses` builds the losing
  run for every other binlog; `MySqlOversize.TwoStatementsLose` is the smallest.
- In backup_file mode every start, not only the first, overwrites the saved offset
  with the dump's position (internal/mysql/listener.go:81, 252-253).
  `MySqlOrder.MovesBackIff`: the offset moves back if and only if some start finds
  a dump older than it. `MySqlDumps.KeptIff`: everything before the offset stays
  stored if and only if at every such start everything before the dump was stored
  already, and `MySqlDumps.SkipsIff`: what a start skips lies between the offset
  and a newer dump. Dumps no newer than the offset lose nothing
  (`MySqlDumps.LosslessUnlessNewerIff`). `MySqlDumps.RestartMovesBack` and
  `MySqlDumps.NewerDumpSkips` are the smallest cases.
- A numeric column holding NaN or an infinity is rendered bare, which is not
  JSON, and the bus refuses the event. `PgRow.NaNRowIsNotJson` is the smallest
  case; `PgRow.RowIsJsonIff` and `PgMessages.ChangeAcceptedIff` say exactly
  which rows and changes are refused. A comment in the parser says that numeric
  types are emitted as JSON numbers; the model follows the code.
- The bus refuses a change whose data is not JSON, and the slot passes it all the
  same: `PgDelivery.StoredIffAccepted`.
- A snapshot completes if and only if its chunk size is positive
  (`Snapshot.CompletesIff`); with 0 it asks the same query forever.
- After a failed read the decoder of updates still steps the cursor back one
  byte; it stays within the data all the same (`PgOutput.Parser.Parse`).

## Model

| member | source | states |
|---|---|---|
| SourceIds.PgMessageIdInjective | internal/postgres/listener.go:108-121 | equal Postgres message ids have the same prefix, transaction and index, whatever the prefixes contain |
| SourceIds.SourceIdInjective | internal/mysql/listener.go:343-359 | source ids of all four shapes (Postgres change, MySQL row by position, row within a compressed transaction, DDL) are never printed alike |
| SourceIds.MessageIdInjective | internal/nats/publisher.go:347-352 | with prefixes free of "/" tenants sharing a stream never share a message id, and neither do two changes |
| Streams.StoreKeepsPrefix | internal/nats/publisher.go:278-308 | storing the next wanted message, or again one already stored, keeps the stream a prefix of what is wanted |
| PgGate.FlushIsTheReferenceAnswer | internal/postgres/ackgate.go:50-122 | over every sequence of operations the drained, coalesced queue reports the highest end of all commits ever recorded whose events are acked, or the highest adopted idle position |
| PgGate.FlushIsTheHighestSettled | internal/postgres/ackgate.go:105-129 | the reported position is no lower than any recorded commit whose events are all acked and any keepalive position adopted, and is one of these, or zero |
| PgGate.QueueStaysShort | internal/postgres/ackgate.go:62-122 | pending commits stay strictly increasing and after a drain number at most handed minus acked |
| PgGate.FlushNeverMovesBack | internal/postgres/ackgate.go:105-122 | the reported position never decreases, re-streamed older commits and reused sequence numbers included |
| PgGate.IdleAdoptsIffCaughtUp | internal/postgres/ackgate.go:80-103 | a keepalive position is adopted if and only if no transaction is open, every recorded commit is settled and every handed event is acked, with acks landing halfway |
| PgGate.WithoutAPublisher | internal/postgres/ackgate.go:105-129 | without a publisher every commit ever recorded is confirmed |
| PgGate.AckGate.Enable | internal/postgres/ackgate.go:41-43 | turns gating on and changes nothing else; before anything is handed over the gate then agrees with a gated history |
| PgGate.AckGate.BeginTransaction | internal/postgres/ackgate.go:45-48 | opens a transaction; the gate still agrees with the full history |
| PgGate.AckGate.HandOver | internal/postgres/ackgate.go:49-54 | gives the next sequence number, one more than the last |
| PgGate.AckGate.TakeBack | internal/postgres/ackgate.go:56-60 | undoes exactly the last hand-off |
| PgGate.AckGate.Committed | internal/postgres/ackgate.go:62-72 | records a commit, merged with one that waits on the same event, and still agrees with the full history |
| PgGate.AckGate.StartSession | internal/postgres/ackgate.go:74-78 | forgets a transaction the last session broke off in, and nothing else |
| PgGate.AckGate.StoreMax | internal/postgres/ackgate.go:131-138 | under any interfering writers the compare-and-swap loop ends with the maximum of all values |
| PgGate.AckGate.ObservePublished | internal/postgres/ackgate.go:90-98 | acked becomes the maximum seen; sequence 0 is ignored |
| PgGate.AckGate.Drain | internal/postgres/ackgate.go:111-122 | the drain loop removes exactly the settled head of the queue and raises the confirmable position to its maximum |
| PgGate.AckGate.Idle | internal/postgres/ackgate.go:80-88 | the two halves of a keepalive with acks between them equal the reference's keepalive |
| PgGate.AckGate.Flush | internal/postgres/ackgate.go:105-109 | returns the reference's answer, computed from the whole history |
| PgListener.Listener.OpenSession | internal/postgres/listener.go:402-403 | a new session forgets the open transaction and what was reported in the last one |
| PgListener.Listener.EmitEvent | internal/postgres/listener.go:106-125 | numbers, names and hands over a change, taking it back when the bus refuses; every effect is that of the protocol's step |
| PgListener.Listener.SendStatus | internal/postgres/listener.go:431-445 | the position reported is the gate's answer |
| PgListener.Listener.HandleKeepalive | internal/postgres/listener.go:503-526 | the gate takes the keepalive, the process is left as the protocol's steps leave it, a status goes out exactly when asked for or when the answer moved, and without one the answer was sent before |
| PgListener.KeepaliveIsSteps | internal/postgres/listener.go:503-526 | in every run the two halves of a keepalive, whatever the publisher does between them, and the status are steps of the protocol that leave the gate as the listener leaves it; where no status goes out, one would have told the server nothing new |
| PgListener.StepsAreEmits | internal/postgres/listener.go:528-546 | streaming a BEGIN, change or COMMIT in the protocol is the listener's emit on what the decoder read |
| PgDelivery.StepOk | internal/postgres/listener.go:387-445 | every step of listener, publisher and server keeps the protocol's invariant |
| PgDelivery.AnythingMayHappen | internal/postgres/listener.go:364-429 | crashes, the end of a session, of the context or of the publisher, other events and late statuses are possible at any time |
| PgDelivery.NothingConfirmedIsLost | internal/postgres/ackgate.go:10-128 | in every run every accepted change of every transaction at or before the slot position is stored, in the first form that fits, under its stable id |
| PgDelivery.StoredIffAccepted | internal/postgres/listener.go:115-121 | of a transaction at or before the slot a change has a message in the stream if and only if the bus accepted it |
| PgDelivery.StreamIsACommitOrderPrefix | internal/nats/publisher.go:245-308 | with an unbounded duplicate window the stream is at every moment a prefix of the accepted changes in commit order, at least as long as the slot has passed |
| PgDelivery.StreamHoldsOnlySourceChanges | internal/nats/publisher.go:278-308 | the stream never holds anything the source did not, nor two messages for one change |
| PgDelivery.KeepaliveAdoptionIsSafe | internal/postgres/listener.go:503-526 | in every run, when a keepalive moves the gate everything handed is acked and every earlier change is stored |
| PgOversize.OversizeLoses | internal/nats/publisher.go:261-276 | with one undeliverable and one deliverable accepted change there is a run that confirms past a change it did not store |
| PgOversize.LosslessIff | internal/nats/publisher.go:261-330 | no run loses a change if and only if all accepted changes are deliverable or none is |
| PgOversize.CanAlwaysFinish | internal/postgres/listener.go:364-429 | from any point of any run some continuation stores the whole source and confirms its end; while the publisher is at work it needs no crash, and the session in progress does not end |
| PgOversize.OneChangeIsDelivered | internal/postgres/listener.go:387-429 | a concrete source and run that meet all hypotheses of the no-loss results: the change is stored and confirmed |
| MySqlGate.ConfirmableIsTheNewestSettledBoundary | internal/mysql/ackgate.go:57-104 | over every interleaving, also with more acked than handed, the answer is the newest usable boundary whose events are acked, and the queue stays short |
| MySqlGate.ConfirmableNeverMovesBack | internal/mysql/ackgate.go:86-104 | the answer never moves back in any ranking the recorded boundaries follow |
| MySqlGate.CommitGate.HandOver | internal/mysql/ackgate.go:50-55 | counts one hand-off; the gate still agrees with the full history |
| MySqlGate.CommitGate.Committed | internal/mysql/ackgate.go:57-71 | records a usable boundary, overwriting one with the same count, and ignores unusable ones |
| MySqlGate.OwnIff | internal/mysql/ackgate.go:106-108 | an event is the gate's own if and only if it is a change named by a place in a binlog: none named by a place in a write-ahead log, none without a name, no mark |
| MySqlGate.CommitGate.ObservePublished | internal/mysql/ackgate.go:78-84 | counts one for a change named by a place in a binlog, and nothing for any other event |
| MySqlGate.CommitGate.Confirmable | internal/mysql/ackgate.go:86-104 | returns the reference's answer, says whether there is one, and leaves at most one entry per waiting event |
| MySqlHandler.EventHandler.RowNaming | internal/mysql/listener.go:337-359 | the naming of a rows event: by position, within the compressed transaction, without a name, or an error that leaves the count alone |
| MySqlHandler.EveryRowGoesOut | internal/mysql/listener.go:301-359 | every row of an insert or delete and every pair of an update goes out, once, in order, under its own name, by position or by its number in a compressed transaction; only an inner row without an announced transaction stops the stream |
| MySqlHandler.EventHandler.OnRow | internal/mysql/listener.go:301-335 | appends one event for each row, or for each pair of an update, accepted as its images are, each under its own name; numbers inner rows on; nothing when the event cannot be placed |
| MySqlHandler.EventHandler.OnGtid | internal/mysql/listener.go:368-383 | starts a transaction, known by the end of its GTID event or not at all, and records the boundary before it |
| MySqlHandler.EventHandler.OnRotate | internal/mysql/listener.go:385-394 | moves to the next file and records its start, with the offset cut to 32 bits |
| MySqlHandler.EventHandler.OnDdl | internal/mysql/listener.go:396-407 | emits the statement under its end position, then records the boundary after it |
| MySqlHandler.EventHandler.OnXid | internal/mysql/listener.go:409-415 | passes the COMMIT event to the bus and records the boundary after the transaction |
| MySqlListener.Listener.EmitEvent | internal/mysql/listener.go:277-283 | passes an event to the bus and counts it afterwards, if it was accepted and is the listener's own: together the protocol's two steps |
| MySqlListener.Listener.RecordBoundary | internal/mysql/listener.go:285-288 | recording a boundary is the protocol's step |
| MySqlListener.Listener.SaveConfirmedOffset | internal/mysql/listener.go:215-227 | writes the gate's answer exactly when there is one and it moved, and fails exactly when it then cannot; a failed write changes neither file nor memory of it |
| MySqlListener.Listener.RunSnapshot | internal/mysql/listener.go:240-259 | overwrites the offset with the dump's position when it has one, and fails without a change when the file cannot be written |
| MySqlBinlog.BoundaryMeaning | internal/mysql/listener.go:368-415 | every usable boundary is the start of a group, before all its changes, or its end, after all of them |
| MySqlBinlog.ReplayIsTheSame | internal/mysql/listener.go:301-415 | resuming from any boundary replays whole groups and gives every row and statement the name it had the first time |
| MySqlBinlog.AllSourceIdsDiffer | internal/mysql/listener.go:337-407 | all rows and statements of a well-formed binlog have different printed ids, across multi-row events, update pairs, compressed transactions and files |
| MySqlBinlog.EveryChangeIsNamed | internal/mysql/listener.go:301-359 | every row or update pair of a transaction that the bus takes is among its named changes, under the name its event and index, or its number in the transaction, give it |
| MySqlDelivery.StepOk | internal/mysql/listener.go:215-283 | every step of callbacks, publisher, saver and crash, the publisher giving up an event included, keeps the protocol's invariant |
| MySqlDelivery.AnythingMayHappen | internal/mysql/listener.go:68-227 | crashes, starts with any dump or none, the end of the context or of the publisher, other events and failed writes are possible at any time |
| MySqlDelivery.NothingBeforeTheOffsetIsLost | internal/mysql/listener.go:215-283 | in every run whose dumps skip nothing, whatever is given up, every named change before the saved offset and after the initial one that fits the stream is stored |
| MySqlDelivery.GroupsBeforeTheOffsetAreStored | internal/mysql/listener.go:215-283 | the same for the named changes of whole groups: behind the offset all that fit are stored |
| MySqlDelivery.RowsBeforeTheOffsetAreStored | internal/mysql/listener.go:215-359 | over the binlog itself: for every transaction behind the offset, every rows event in it and every row or update pair the bus takes, the message under prefix, slash and that row's id is stored if it fits |
| MySqlDelivery.StatementsBeforeTheOffsetAreStored | internal/mysql/listener.go:396-407 | and so is the message of every statement behind the offset |
| MySqlDelivery.StreamIsABinlogOrderPrefix | internal/mysql/ackgate.go:27-104 | in every run whose dumps skip nothing, with an unbounded duplicate window the stream is a prefix of the changes that fit, in binlog order, each once, holding all of those before the offset |
| MySqlOversize.OversizeLoses | internal/nats/publisher.go:261-276 | for every binlog with an overtaken boundary there is a run whose offset passes a change that was never stored |
| MySqlOversize.LaterDumpLoses | internal/mysql/listener.go:240-259 | for every dump taken after a change that has to be delivered there is a run that never stores the change |
| MySqlOversize.LosslessIff | internal/mysql/ackgate.go:78-104 | no run loses a change if and only if no dump was taken after a change that has to be delivered, and at no usable boundary the changes before it that fit nowhere are some, but no more than the changes after it that fit |
| MySqlOversize.TwoStatementsLose | internal/nats/publisher.go:272-275 | a concrete binlog of two statements and a run that loses the first |
| MySqlOversize.CanAlwaysFinish | internal/mysql/listener.go:176-227 | from any point of any run whose dumps skip nothing some continuation stores every named change of the binlog and saves the last boundary there is; without a crash while the publisher is at work |
| MySqlOversize.TwoStatementsAreDelivered | internal/mysql/listener.go:215-227 | a concrete binlog and run that meet all hypotheses of the no-loss results: both statements are stored and the offset lies behind them |
| MySqlOrder.OffsetNeverMovesBack | internal/mysql/listener.go:215-227 | in every run, across crashes and restarts, the saved offset never moves back in binlog order while no start finds an older dump |
| MySqlOrder.MovesBackIff | internal/mysql/listener.go:240-259 | in every run the saved offset moves back at some point if and only if some start finds a dump older than the offset saved at that time |
| MySqlDumps.KeptIff | internal/mysql/listener.go:240-259 | in every run, at every moment the offset is not before the initial one and everything before it that fits is stored, if and only if that held of the dump at every start that found one; likewise for all changes when no boundary is overtaken |
| MySqlDumps.SkipsIff | internal/mysql/listener.go:240-259 | after a run whose dumps skip nothing, a start skips a change if and only if one that is not stored lies between the saved offset and the dump, which is then newer |
| MySqlDumps.NoNewerDumpIsCareful | internal/mysql/listener.go:240-259 | dumps that, when found, lie between the initial and the saved offset skip nothing |
| MySqlDumps.LosslessUnlessNewerIff | internal/mysql/listener.go:240-259 | no run whose dumps, when found, lie between the initial and the saved offset loses a change if and only if no usable boundary is overtaken |
| MySqlDumps.RestartMovesBack | internal/mysql/listener.go:68-122 | a concrete run: delivered, saved and restarted, the offset is back where the dump was taken |
| MySqlDumps.NewerDumpSkips | internal/mysql/listener.go:68-122 | a concrete run: a dump taken after two statements, found at the first start, leaves them behind the offset and out of the stream |
| Cdc.KeepKeyColumns | internal/cdc/truncate.go:45-53 | the loop keeps exactly the key columns with their values |
| Cdc.KeepKeyOnly | internal/cdc/truncate.go:27-43 | the row, or each image present of an update, reduced to its key columns |
| Cdc.TruncatedKeepsExactlyTheKey | internal/cdc/truncate.go:8-53 | the key-only form is an object: of a row exactly the key columns with their values, of an update exactly the images old and new that are objects with theirs, of anything else nothing |
| Cdc.ShorteningKeepsIdentity | internal/cdc/truncate.go:8-25 | shortening changes only data and mark, and shortening twice is shortening once |
| Ladder.OneFormAtMost | internal/nats/publisher.go:310-330 | whatever the attempts come to, at most one form is stored, the first that fits; an ack means it was, and an event is given up only when none fits |
| Publisher.NatsPublisher.PublishWithRetry | internal/nats/publisher.go:354-381 | ends only by ack, size, closed connection or ended context; stores at most the one message, and stores it when it reports success |
| Publisher.NatsPublisher.SendTruncated | internal/nats/publisher.go:318-330 | key-only, then without data, under the same id |
| Publisher.NatsPublisher.Publish | internal/nats/publisher.go:278-308 | at most one form is stored, the first that fits, and the observers get the original event only once it is stored |
| Publisher.StoredUnderItsPlace | internal/nats/publisher.go:344-352 | an event with a source id is stored under prefix, slash and that id, whatever fresh id was drawn; one without under the fresh id |
| Publisher.NatsPublisher.Deliver | internal/nats/publisher.go:261-276 | marks are passed over; the attempts are a way down the ladder; a change is reported exactly at its end with an ack, and stored at most once under its place in the log, in the fitting form, and only if nothing is stored under it yet |
| Publisher.DeliveredAgain | internal/nats/publisher.go:344-381 | a change delivered twice, whatever fresh ids were drawn, leaves one message |
| Publisher.NatsPublisher.PublishLoop | internal/nats/publisher.go:245-259 | whatever happens, the reported events are the deliverable part of a prefix of the channel, in order, and each is stored under its place in its log |
| PublisherSteps.PgDeliverIsSteps | internal/nats/publisher.go:261-330 | one delivery, whatever its attempts come to, is a sequence of steps of the Postgres protocol that leaves process and stream where the publisher does |
| PublisherSteps.MySqlDeliverIsSteps | internal/nats/publisher.go:261-330 | the same in the MySQL protocol |
| PublisherSteps.PgIdIsTheMessageId | internal/postgres/listener.go:108-121 | the id the Postgres protocol puts on the bus is the one the publisher stores the event under |
| PublisherSteps.PgStreamsAgree | internal/nats/publisher.go:261-381 | the publisher's stream and the Postgres protocol's hold the same ids, one by one, and still do after every delivery |
| PublisherSteps.MySqlStreamsAgree | internal/nats/publisher.go:261-381 | the same with the MySQL protocol's stream |
| Publisher.StrippedFitsMeansAllDeliverable | internal/nats/publisher.go:318-330 | when the data-free form always fits, nothing publishable is given up |
| Publisher.EachGateSeesAPrefixOfItsOwn | internal/mysql/ackgate.go:78-108 | with both listeners on one bus each gate's ack value is the length of a prefix of its own hand-offs: the numbered Postgres changes, and the changes named by a place in a binlog |
| Bus.EveryCallIsTaken | internal/cdc/service.go:97-115 | over every interleaving what a producer was let in with, and the event it waits with, are exactly the events of its calls before shutdown began whose data is not invalid, in the order of the calls |
| Bus.NothingIsDropped | internal/cdc/service.go:97-167 | over every interleaving a subscriber neither stopped nor shut down has received exactly the events each producer called with that the bus takes, that concern it and that were let in after it joined, in order, none missing and none twice; in the middle of a delivery only the event still about to be sent to it is missing |
| Bus.RemovedIsGone | internal/cdc/service.go:55-69 | a removed subscriber, and no other, is off the lists, nothing is sent to it any more, and a table nobody is subscribed to has no entry |
| Bus.StoppedIff | internal/cdc/service.go:30-69 | in every run a subscriber is stopped if and only if it was unsubscribed |
| Bus.NoSendOnAClosedChannel | internal/cdc/service.go:132-220 | in every run no send can hit a closed channel |
| Bus.ChannelsAreBounded | internal/cdc/service.go:13-30 | no channel ever holds more than 100000 events |
| Bus.BlockedByAFullChannel | internal/cdc/service.go:132-167 | a producer counts as blocked at a subscriber only once it found that one's channel full |
| Bus.ReadingOnGetsAll | internal/cdc/service.go:132-167 | from any point of any run a subscriber gets everything its channel holds, in order, by reading on |
| Bus.ShutdownClosesAll | internal/cdc/service.go:202-220 | a shutdown closes every listed channel and no other, empties the lists, and happens once |
| Bus.ClosingIff | internal/cdc/service.go:201-220 | in every run the channels wait to be closed exactly from the beginning of a shutdown until its end |
| Bus.Reaches | internal/cdc/service.go:113-130 | an event reaches every subscriber to all events, and of the others exactly those of its table, if it is an event of a table |
| Bus.ProgressIsKept | internal/cdc/service.go:132-167 | a producer's own steps count down to the release of the lock and nobody else's sets it back |
| Bus.NeverStuck | internal/cdc/service.go:132-167 | a producer at a stopped subscriber, or after shutdown began, always has a step of its own |
| Bus.LockIsReleased | internal/cdc/service.go:132-220 | from any point of any run, after shutdown began or once all it still has to reach were stopped, a producer releases the lock by a bounded number of its own steps |
| JsonText.EscapeString | internal/jsonutil/escape.go:10-37 | the loop computes the escape of every character in order |
| JsonText.EscapeRoundTrip | internal/jsonutil/escape.go:8-37 | unescaping by section 7 of RFC 8259 gives back every text |
| JsonText.EscapesOnlyWhatItMust | internal/jsonutil/escape.go:8-37 | an escaped text holds no control character, and text without any, quotes or backslashes is not touched |
| PgWire.UintRoundTrip | internal/postgres/parser.go:475-500 | big-endian decoding inverts encoding at every width |
| PgWire.MostSignificantFirst | internal/postgres/parser.go:475-500 | the first byte of a number weighs most |
| PgWire.ReadOrFail | internal/postgres/parser.go:446-500 | a read gives what comes next and moves past it, or gives nothing, moves nowhere and makes every later one fail |
| PgWire.StringUpToZero | internal/postgres/parser.go:502-512 | a string ends before the first zero byte, which is passed over, or at the end of the data, also after a failure |
| PgWire.Reader.ReadBytes | internal/postgres/parser.go:446-473 | bounds-checked: the bytes, or nothing and a sticky failure, never past the end |
| PgWire.Reader.ReadUint | internal/postgres/parser.go:457-500 | a number of one, two, four or eight bytes, or zero and a sticky failure |
| PgWire.Reader.ReadCString | internal/postgres/parser.go:502-512 | the bytes up to the first zero byte or the end, also after a failure |
| PgWire.ReadsCString | internal/postgres/parser.go:502-512 | a terminated string without zero bytes is read back whole, and the cursor ends after its zero byte |
| PgRow.RowIsTheObject | internal/postgres/parser.go:334-414 | a rendered row of sound values is a JSON object (RFC 8259) listing exactly its fields, names and values, in order |
| PgRow.RowIsJsonIff | internal/postgres/parser.go:334-414 | a rendered row is JSON if and only if none of its numbers is NaN or infinite |
| PgRow.NaNRowIsNotJson | internal/postgres/parser.go:395-414 | a concrete row that is not JSON |
| PgOutput.Parser.ParseTupleData | internal/postgres/parser.go:334-376 | the loop renders exactly the fields the reference scan finds, for any bytes |
| PgOutput.Parser.WriteTextValue | internal/postgres/parser.go:395-414 | a text value by type: number, boolean, document if it is JSON, quoted text |
| PgOutput.Parser.ParseRelation | internal/postgres/parser.go:158-186 | stores the relation the bytes describe and touches no other |
| PgOutput.Parser.ParseInsert | internal/postgres/parser.go:211-236 | the event for any bytes: none for unknown or filtered relations, DDL for the log table, else the row |
| PgOutput.Parser.ParseUpdate | internal/postgres/parser.go:238-279 | old and new image, each only if present, with the put-back byte |
| PgOutput.Parser.ParseDelete | internal/postgres/parser.go:281-302 | the key-only or full old row, or an empty object |
| PgOutput.Parser.ParseTruncate | internal/postgres/parser.go:304-332 | the first event is returned and the later ones go to the handler, in order, unknown and filtered relations left out |
| PgOutput.Parser.Parse | internal/postgres/parser.go:99-126 | for every byte string and every parser state, parsing ends with the cursor between 0 and the length of the data |
| PgMessages.TupleReads | internal/postgres/parser.go:334-393 | a row image reads as exactly the columns it carries: unchanged ones left out, non-key ones left out of key images, NULLs kept, cursor at its end |
| PgColumns.FullImageShowsAll | internal/postgres/parser.go:334-414 | a full image without unchanged columns has a field for every column: the k-th under the k-th name, with the value its type gives the text |
| PgColumns.CarriedAreColumns | internal/postgres/parser.go:334-414 | any image has exactly the fields of the columns that are not unchanged and, in a key image, are in the key, in order, each with its own name and value |
| PgColumns.RelationIsKnown | internal/postgres/parser.go:158-186 | after a relation message the parser knows its names, types and flagged key columns as the bytes say, and every other relation as before |
| PgColumns.ChangeMeans | internal/postgres/parser.go:211-302 | a relation message and then a change, read from their bytes: the event has the right kind, schema, table and key, and shows exactly the columns the change carries by the definitions in the relation message; none for unwatched or unknown tables |
| PgColumns.TruncateMeans | internal/postgres/parser.go:304-332 | a TRUNCATE gives the own event of each known, watched relation it names, with its options, in order but the first last |
| PgColumns.ShortMarks | internal/postgres/parser.go:128-156 | a BEGIN or COMMIT cut short is an event without a time; the commit then has no position to confirm |
| PgColumns.ShortChanges | internal/postgres/parser.go:211-302 | a change cut short after its relation shows no columns |
| PgMessages.ChangeReads | internal/postgres/parser.go:211-302 | every well-formed insert, update (key and new, old and new, new alone) and delete reads as the change it describes, the cursor ending at the end of the message |
| PgMessages.TruncateReads | internal/postgres/parser.go:304-332 | a TRUNCATE message reads as one event for each relation it names that is known and passes; the first of them is emitted last |
| PgMessages.RelationReads | internal/postgres/parser.go:158-186 | a relation message reads as its columns and types in order and the columns flagged as key |
| PgMessages.BeginReads | internal/postgres/parser.go:128-139 | a BEGIN gives the commit position it carries, the same on every re-stream |
| PgMessages.CommitReads | internal/postgres/parser.go:141-156 | a COMMIT gives the end position it carries |
| PgMessages.ChangeAcceptedIff | internal/cdc/service.go:105-111 | the bus takes a decoded row change if and only if no number in its images is NaN or infinite |
| PgMessages.TruncateAccepted | internal/postgres/parser.go:319-324 | the bus takes every TRUNCATE event |
| PgReplay.LatestIsKnown | internal/postgres/parser.go:158-186 | after any messages the parser knows each relation as the session last described it, whatever it knew before |
| PgReplay.EmitsTheChanges | internal/postgres/listener.go:528-546 | the messages of a transaction, relation messages among them, come out as exactly its changes in order, from any parser state before the session |
| PgReplay.SameOnEveryReStream | internal/postgres/listener.go:108-121 | a transaction sent twice, in any two sessions and to parsers in any two states, decodes to the same changes in the same order, a TRUNCATE of several relations included, each under the same name |
| PgReplay.OneInsert | internal/postgres/listener.go:528-546 | the hypotheses can be met: a session that describes a relation and carries an insert into it |
| Snapshot.FetchChunk | internal/postgres/snapshot_chunked.go:113-141 | the rows of the chunk, or those before the failure, their count and the last key |
| Snapshot.SnapshotByKey | internal/postgres/snapshot_chunked.go:73-111 | the paging loop computes the reference copy |
| Snapshot.NoKeyTwice | internal/postgres/snapshot_chunked.go:73-141 | keys are emitted in strictly increasing order whatever happens to the table and wherever the copy breaks off |
| Snapshot.PresentRowsAreEmitted | internal/postgres/snapshot_chunked.go:88-111 | a row in the table at every query is emitted by a completed snapshot |
| Snapshot.EmittedRowsWereThere | internal/postgres/snapshot_chunked.go:113-141 | every emitted row was in the table when it was read |
| Snapshot.UnchangingIsFullScan | internal/postgres/snapshot_chunked.go:73-102 | on an unchanging table the copy completes and equals one full ordered scan |
| Snapshot.CompletesIff | internal/postgres/snapshot_chunked.go:88-98 | an unchanging table is copied in full by some number of queries if and only if the chunk size is positive |
| Snapshot.NothingWithoutRoom | internal/postgres/snapshot_chunked.go:94-97 | with chunk size 0 nothing is emitted and the copy never completes |
| SlotCleaner.Cleaner.ObserveInactive | internal/postgres/slotcleanup.go:163-176 | sets, keeps or clears the mark, and returns the one to use |
| SlotCleaner.Cleaner.DropSlot | internal/postgres/slotcleanup.go:178-192 | a dry run asks nothing, a failed drop keeps the mark, a successful one clears it |
| SlotCleaner.Cleaner.CleanupOnce | internal/postgres/slotcleanup.go:144-161 | one pass: the marks afterwards, the names asked to be dropped, in order, and an error exactly when a drop failed; a failed fetch changes nothing |
| SlotCleaner.PassesAreOneRun | internal/postgres/slotcleanup.go:124-161 | passes one after the other are one run over all their sightings |
| SlotCleaner.MarkSince | internal/postgres/slotcleanup.go:163-176 | the mark a decision uses is the time of the first sighting of the idle spell it belongs to |
| SlotCleaner.AskedIff | internal/postgres/slotcleanup.go:66-192 | over every sequence of passes a drop is asked for if and only if the slot is eligible and its owner released it, or was silent for staleAfter, or, without an owner, it was idle at a sighting that long ago and at every one since |
| SlotCleaner.AskedNames | internal/postgres/slotcleanup.go:144-192 | the names asked to be dropped are those of the slots sighted when a drop is asked for, in order |
| SlotCleaner.OnlyEligibleAreAsked | internal/postgres/slotcleanup.go:66-192 | whatever the marks, only eligible slots are asked for: never the watcher's own, none in a dry run |
| SlotCleaner.FailedIff | internal/postgres/slotcleanup.go:144-161 | a pass fails if and only if a drop it asked for did not succeed |
| SlotCleaner.ReasonIsTrue | internal/postgres/slotcleanup.go:66-100 | the reason a decision names is the case |

## Left out

- Connecting, TLS, SQL text, and the internals of canal, pglogrepl and nats.go: only the messages and outcomes they deliver appear, as steps or parameters.
- Recreating an unusable replication slot (internal/postgres/listener.go:326-352): it loses changes on purpose, so it is not a step of the protocol.
- Integer width: sequence numbers and counters are unbounded, so a wrap-around of a 64-bit counter is not modelled; the 32-bit cut of a rotate's offset is.
- The time, LSN text and label fields of an event, and the schema history a relation message writes: copied through or foreign, they would add easy members.
- Bus: the channels, locks and subscriber lists are one state machine on values, because its claims are about interleavings; the lists are not updated in place. The claims allow more interleavings than the lock does, since a waiting writer does not hold back new readers.
- The session loop of the Postgres listener and the offset saver's ticker: connecting, streaming, reporting and saving are steps of PgDelivery and MySqlDelivery that may fire at any time.
- PgDelivery.NothingConfirmedIsLost: a change the bus refuses, such as a row with NaN, is not accepted and so not covered; PgDelivery.StoredIffAccepted says that it is never stored and PgMessages.ChangeAcceptedIff which changes these are.
- MySqlDelivery.NothingBeforeTheOffsetIsLost: rows without a position, such as snapshot rows, carry no name and are not covered; of the forms of an oversized event only whether one fits is modelled there. Runs with a dump that skips a change are not covered, since there the promise is broken: MySqlDumps.KeptIff says exactly when. Nor are runs with a dump older than the initial offset, which repeat changes from before it; only MySqlOrder covers those.
- MySqlDelivery.GroupsBeforeTheOffsetAreStored: leaves out the same runs.
- MySqlDelivery.StreamIsABinlogOrderPrefix: leaves out the same runs.
- MySqlOversize.CanAlwaysFinish: leaves out the same runs.
- MySqlOrder.OffsetNeverMovesBack: only while no start finds an older dump, because a start overwrites the offset; MySqlOrder.MovesBackIff says exactly when it moves back.
- MySqlOversize.LosslessIff: no dump is older than the initial offset, because the changes before that offset are not counted in the model of what has to be delivered.
- Snapshot.PresentRowsAreEmitted: keys are integers and the key is a single unique column among the copied ones; a negative chunk size, which the server refuses, is not modelled.
- Paging by OFFSET and composite keys (internal/postgres/snapshot_chunked.go:143-166): the order is not unique, so completeness does not follow.
- Parsing mysqldump and COPY text (internal/mysql/snapshot_dump.go:61-110, internal/postgres/snapshot_dump.go:66-95): escapes and unquoted values are not decoded, so there is no round trip to prove.
- Rendering MySQL rows (internal/mysql/listener.go:421-494): values of driver types, not modelled.
- Subject names (internal/nats/publisher.go:383-401): pure text functions that would only add easy members.
- Configuration, health, metrics, lag and slot gauges, backoff, startup waiting and the slot owner registry's own writes.
