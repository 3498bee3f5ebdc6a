# PrivChat SDK: the local message engine

A Dafny model of the SQLite-backed message store of the PrivChat SDK and of the inbound path that
feeds it, with proofs of what the design promises over whole runs. `dafny verify dfyconfig.toml`
checks it.

| file | models |
|---|---|
| Tables.dfy | the tables as values, and what the schema enforces |
| Canonical.dfy | wire adapters, the routes from them to a store input, timestamp normalisation |
| Upsert.dfy | storing one remote message, and batches, with an engine that may fail |
| Replay.dfy | what any order and number of copies adds up to |
| Outbox.dfy | outbound commands: each operation, identity, no message sending without a command |
| Protocol.dfy | client, idempotent server and unreliable network: effectively-once sending |
| Drain.dfy | order and termination of draining the outbox, with calls that end early |
| ReadCursor.dfy | read watermark, read marks, unread count |
| Order.dfy, Views.dfy | sorting; message list, window around an anchor, channel sweep |
| Codec.dfy, Mutations.dfy | key and value codec, and the pending-mutation store |
| Pipeline.dfy | receive pipeline with sliding-window deduplication, its drain and the applying of batches |
| Store.dfy | the store's methods, statement by statement, against the specifications |
| Migration.dfy | the move of former queues into the outbox |
| Scenarios.dfy | concrete runs in which the conditions proved exact elsewhere fail |

A table is a map from its integer key to a row. A transaction works on a copy of the tables and
commits or discards it. The clock, and whether each engine call succeeds, are parameters. The
specifications are functions from tables to tables; `Store.LocalStore` has one method per operation
that issues the SQL statements in order and is proved to refine its specification.

## Where the code does not meet its own promise

Each of these is kept as it is in the code, with the exact condition proved.

- Effectively-once sending: a history copy carries local id 0 and overwrites the local id of the row
  it updates. If that row's command is still queued, the next drain mints a new local id and the
  server accepts the message a second time (`Protocol.CopyKeepsExactly`,
  `Protocol.UnsafeCopySendsTwice`, `Protocol.LostReplyEchoThenHistory`); `Scenarios.OneMessageSentTwice`
  is such a run from the empty store. A caller can check the condition before storing the copy: the row
  holding its server id has no queued command.
- The one-way revoke flag is lost when a flagged duplicate is merged into the own row, because its
  extra row is keyed by the deleted row (`Replay.RevocationSurvivesExactly`,
  `Scenarios.RevocationIsLost`).
- A mutation with an empty event is written but treated as corrupt and removed when listed
  (`Mutations.DecodeEncode`, `Mutations.MutationStore.List`).
- Enqueueing a message whose command id is taken by another message's command marks it as sending
  without a command (`Outbox.NoGhostExactly`, `Migration.MovedExactly`, `Scenarios.DisplacedMessage`).
- Positive seconds before 10^8 are multiplied twice on their way to the store
  (`Canonical.NormalisationComposes`).
- Single upserts are not transactions. A failed or interrupted one leaves the old tables, except in two
  cases: the duplicate is deleted and the own row not yet updated, or the row is written without its
  revocation (`Upsert.StoreIoExactly` says which engine calls lead to which). Trying again makes it good
  unless the duplicate was deleted and the own row has a newer version than the message: then the retry
  is refused as stale and the message stays gone (`Upsert.RetryExactly`, `Scenarios.RetryIsRefused`).
- A former queue item whose message has a command under another local id stays in its queue as long as
  that command stands (`Migration.WorkingEnginesLeaveRenamed`, `Scenarios.RenamedMessage`). Once it is
  acknowledged the next run queues the acknowledged message again, under its other local id
  (`Migration.SettlingReleases`, `Migration.AcknowledgedIsQueuedAgain`).
- A push names the second only, and the push adapter tags it so, but its copy goes through a sync item,
  which has no place for the tag, and reaches the store as milliseconds. The first of two copies then
  fixes the send time and the last one the receipt setting: a push and a history copy converge exactly
  when their times agree to the millisecond and no receipt is asked for
  (`Replay.PushAndHistoryConvergeExactly`, `Replay.FirstTimeStays`, `Scenarios.PushTimesDiffer`).
- When applying a drained batch fails, it is requeued and the batches drained after it are dropped. Items
  are conserved exactly when every batch that fails is the last one drained (`Pipeline.Conservation`). The
  keys of the dropped items stay in the window, so fetching them again does not bring them back until
  `limit` others were accepted (`Pipeline.RefusedInWindow`, `Scenarios.BatchIsLost`).
- Merging an echo into the own row does not compare it with the own row's version, which goes back exactly
  when the own row is newer than the copy (`Replay.OwnVersionDropsExactly`, `Scenarios.OwnVersionDrops`).

The unique index on server ids makes a reconciliation that would duplicate one fail as a whole, so
identity needs no precondition there.

## Assumptions

- Ids, pts and counts fit the columns they are cast to; NULL pts and order_seq count as 0.
- Keys of `message` and `outbox` are never reused. `command_id` is "msg:" and the local id, and the
  model keys the outbox by the local id. On a conflict SQLite checks the named index first.
- `created_at_precision` defaults to milliseconds, as the schema says.
- Server ids given to acknowledgements and reconciliations are positive.
- The server is idempotent in the local message id: it refuses only ids it does not hold, and may
  accept a refused id later.
- Local ids are unique over all devices and installations of an account, and all senders.

## Model

| member | source | states |
|---|---|---|
| `Protocol.EffectivelyOnce` | crates/privchat-sdk/src/local_store.rs:4350-4399 | In every interleaving of queued creates, attachments drafted and finalised, sends, lost, repeated, late and refused requests and replies, crashes, retries, enqueueing again before or after a rejection or an acknowledgement, copies of own messages, copies of messages of other senders and of own messages sent from other devices, and reconciliations, with upserts that may stop halfway, in which no copy without a local id is written over a queued message: every request for a message carries the local id it was created with, so the idempotent server holds at most one message for it; its command is queued exactly while it is neither acknowledged, rejected nor an unfinished attachment; once acknowledged one row holds the server id, it is the row the user created, and no command is left unless the message was enqueued again. |
| `Protocol.DeliveredForever` | crates/privchat-sdk/src/local_store.rs:4350-4399 | An acknowledged message is held in its one row, under the same server id, in every later state of the run, and has no command until the user enqueues it again. |
| `Protocol.EventKeeps` | crates/privchat-sdk/src/lib.rs:7500-7681 | Each event of the client, the server and the network, upserts that stop halfway included, keeps the invariant that ties rows, commands, receipts and messages in flight together. |
| `Protocol.EventsTakeEffect` | crates/privchat-sdk/src/lib.rs:7500-7681 | A reply settles its message as sent under the receipt's id and place, a rejection shows it as failed, a reconciliation as sent, all without a command; sending again or finishing shows it as sending with the given job queued; a new message is queued with its job, a draft is not; a retry is counted and postponed; a copy that is written is stored in one row; the network keeps what it was given. |
| `Protocol.SendKeeps` | crates/privchat-sdk/src/lib.rs:7423-7438 | While the invariant holds a drain finds the original local id and never mints another. |
| `Protocol.QueuedKeeps` | crates/privchat-sdk/src/local_store.rs:2172-2230 | Enqueueing or finalising a created message, acknowledged or not, never hits a conflict: it ends with one command, under the local id it was created with, whether queued before or not. |
| `Protocol.ReconcileKeeps` | crates/privchat-sdk/src/local_store.rs:4448-4474 | Reconciling a queued message with the server id its own row already holds always commits. |
| `Protocol.CopyTarget` | crates/privchat-sdk/src/local_store.rs:1413-1458 | A copy of an own message that carries the local id always lands in the created row, even after that row lost its local id; a copy without it lands there or in a row that is not a created one. |
| `Protocol.OtherTarget` | crates/privchat-sdk/src/local_store.rs:1330-1341 | A copy of a message not created here, another sender's or this account's from another device, never lands in a created row. |
| `Protocol.UnwrittenKeeps` | crates/privchat-sdk/src/local_store.rs:1422-1434 | An upsert that stops before it writes has deleted at most a row that is not a created one. |
| `Protocol.CopyKeepsExactly` | crates/privchat-sdk/src/canonical_inbound.rs:271-297 | Storing a copy of an own message keeps the invariant if and only if the copy carries the local id, or is not written, or lands in a row with nothing queued. |
| `Protocol.UnsafeCopySendsTwice` | crates/privchat-sdk/src/lib.rs:7423-7438 | After any other copy the next retry goes out under a new local id and the server ends with two messages for one. |
| `Protocol.LostReplyEchoThenHistory` | crates/privchat-sdk/src/local_store.rs:1344-1411 | That situation is reached from any state in which a reply was lost, by an echo followed by a history copy of the same version. |
| `Outbox.CreatedTogether` | crates/privchat-sdk/src/local_store.rs:1239-1304 | Row and command are created together or not at all; only a missing or already queued local id prevents it. The row holds the message and is shown as sending; the command is of the kind asked for, for the message's channel, never tried, and due at once. |
| `Outbox.CreatedAlone` | crates/privchat-sdk/src/local_store.rs:1195-1230 | A draft is the same row, not shown as sending, and no command. |
| `Outbox.EnqueueQueues` | crates/privchat-sdk/src/local_store.rs:4132-4196 | Enqueueing shows the row as sending and queues a new command of the kind asked for, or renews the one it has keeping its retries; it is refused, changing nothing, exactly for a missing row or local id, or a command under another id only. |
| `Drain.QueuedIsDue` | crates/privchat-sdk/src/local_store.rs:1286-1296 | A message newly queued by any of the three operations joins what is due in its own kind and no other, last when no older command is younger. |
| `Outbox.AckSettles` | crates/privchat-sdk/src/local_store.rs:4355-4399 | An acknowledgement that commits leaves one row with the server id, sent and ordered by the acknowledged sequence number, all other columns untouched, exactly its commands gone, and everything else as it was; the acknowledgement of an unqueued message does the same to the rows alone. |
| `Outbox.FinalizeQueues` | crates/privchat-sdk/src/local_store.rs:2161-2230 | Finalising writes content and media state and queues an attachment command for the row's channel in one step; the command is the message's own unless another message's command sits under its id; refused exactly as an enqueue, or for a missing row. |
| `Outbox.RejectWrites` | crates/privchat-sdk/src/local_store.rs:4426-4445 | A rejection writes the given status to the row and removes exactly its commands. |
| `Outbox.ReconcileWrites` | crates/privchat-sdk/src/local_store.rs:4448-4474 | A reconciliation fails exactly when another row holds the server id; otherwise the row is sent under it, keeps its place, and its commands are gone. |
| `Outbox.BumpAndDropWrite` | crates/privchat-sdk/src/local_store.rs:4402-4420 | A retry is counted and postponed; a drop removes exactly the message's commands. |
| `Outbox.RowOperationsWrite` | crates/privchat-sdk/src/local_store.rs:4639-4680 | Status and local id change one row or fail; deletion takes the row and its extra row and leaves the commands. |
| `Outbox.PutCommandGives` | crates/privchat-sdk/src/local_store.rs:4172-4182 | An insert-or-renew takes no message's command away and gives the message one exactly when it had one or its command id was free. |
| `Outbox.OpKeepsIdentity` | crates/privchat-sdk/migrations/V20260215194000__standardize_message_server_id_column.sql:28-30 | Every operation, whether it succeeds, fails or is an upsert that stops halfway, keeps server ids unique, positive local ids of own rows unique, and the unique keys of the outbox, given unused local ids and positive server ids. |
| `Outbox.NoGhostExactly` | crates/privchat-sdk/src/local_store.rs:1232-1237 | A step, including an upsert that stops halfway and the writing of a minted local id, leaves no message sending without a command if and only if its guard holds; the guards are conditions on the tables and the engine calls before the step. |
| `Outbox.ReachableStores` | crates/privchat-sdk/src/local_store.rs:4123-4131 | In every store reached from the empty one the identities hold, and a run never shows a message as sending without a command exactly when each of its steps met its guard. |
| `Upsert.StoreKeepsIdentity` | crates/privchat-sdk/src/local_store.rs:1413-1458 | An upsert never trips the unique index, keeps own local ids distinct, leaves the outbox alone and changes no row but the target and the duplicates merged into it. |
| `Upsert.StoreAnswers` | crates/privchat-sdk/src/local_store.rs:1362-1371 | An upsert names a row that exists afterwards and says it is new exactly when it did not exist before, which is exactly when no row held the server id and the message is no echo; the row holding the server id decides staleness. |
| `Upsert.OwnRowDecides` | crates/privchat-sdk/src/local_store.rs:1446-1458 | When no row holds the server id the own row decides staleness, and it is the row named. |
| `Upsert.StoredColumns` | crates/privchat-sdk/src/local_store.rs:1344-1411 | Every column of the row and of its extra row after an accepted copy, for a row that was there and for a new one, and nothing else changed. |
| `Upsert.StoredOnce` | crates/privchat-sdk/src/local_store.rs:1413-1458 | Afterwards exactly one row holds the server id and it shows the copy; for an echo it is the own row. |
| `Upsert.StoreIoExactly` | crates/privchat-sdk/src/local_store.rs:1422-1442 | An upsert succeeds if and only if all its calls do, and then as specified; on failure the duplicate is gone and no row holds the server id exactly when the delete went through and the update did not, everything but the flag is as specified (and differs from the old tables unless the row already held just this copy) exactly when the row was written and the flag was not, and otherwise the tables are the old ones. |
| `Upsert.RetryExactly` | crates/privchat-sdk/src/local_store.rs:1413-1442 | Trying a failed upsert again gives what an undisturbed one would give if and only if the first attempt had not deleted a duplicate of an own row with a newer version. |
| `Upsert.StoreIoKeepsSchema` | crates/privchat-sdk/src/local_store.rs:1422-1434 | Even a failing upsert keeps the schema. |
| `Upsert.StoreIoKeepsIdentity` | crates/privchat-sdk/src/local_store.rs:1422-1434 | And it keeps own local ids distinct and the outbox as it was. |
| `Upsert.BatchIsRun` | crates/privchat-sdk/src/local_store.rs:1541-1548 | A batch after any deliveries is the run of all of them: how deliveries are cut into batches does not matter. |
| `Upsert.BatchAnswers` | crates/privchat-sdk/src/local_store.rs:1541-1548 | Each result of a batch that names a row says whether that item made it. |
| `Replay.StoreActsPointwise` | crates/privchat-sdk/src/local_store.rs:1344-1422 | A copy that is not looked up by local id changes what is shown under its own server id only, and there by the version guard, the precision rule and the one-way flag; echoes of own messages change nothing under other server ids. |
| `Replay.ReplayConverges` | crates/privchat-sdk/src/local_store.rs:1344-1411 | Two stores that receive the same set of consistent copies of a message, reordered, repeated, at other times, among any other deliveries, show the same message: common content, the millisecond time if any copy had one, revoked if any copy was. |
| `Replay.AbsorbedMeans` | crates/privchat-sdk/src/local_store.rs:1356-1371 | The fold over any list of consistent copies equals the meaning of the set of copies. |
| `Replay.ProjectionTells` | crates/privchat-sdk/src/canonical_inbound.rs:233-261 | The projection to a store input takes over a canonical message field by field; channel type 0 is 1, and the order is the place in the timeline. |
| `Replay.RoutesTellTheWire` | crates/privchat-sdk/src/canonical_inbound.rs:233-361 | Each route tells the store what the wire says, field by field; a history copy carries no local id, only it can be revoked, only a push asks for a receipt. |
| `Replay.DeliveredIsShown` | crates/privchat-sdk/src/local_store.rs:1460-1505 | After one copy by any route a store that did not have the message shows exactly what the wire says. |
| `Replay.ShownIsStored` | crates/privchat-sdk/src/local_store.rs:1943-1970 | What is shown of a message is what its row and extra row hold. |
| `Replay.RoutesMakeSameMessage` | crates/privchat-sdk/src/lib.rs:5643-5694 | The routes as taken, a push through a sync item included: all reach the store as milliseconds; sync and history copies are copies of one message; a push copy and either of them are so if and only if their times normalise alike and no receipt is asked for. |
| `Replay.PushAndHistoryConvergeExactly` | crates/privchat-sdk/src/lib.rs:6812-6831 | A push and a history copy of a message not yet stored show the same message in either order if and only if their times are the same millisecond and no receipt is asked for. |
| `Replay.FirstTimeStays` | crates/privchat-sdk/src/local_store.rs:1376-1385 | Over any run of copies that come as milliseconds, of any versions, the message keeps the send time of the first. |
| `Replay.NoRegression` | crates/privchat-sdk/src/local_store.rs:1413-1422 | After any run in which the message is not looked up by local id the stored version is the greatest delivered and the content is that of the last copy carrying it. |
| `Replay.StoredMessagesOnlyAdvance` | crates/privchat-sdk/src/local_store.rs:1362-1371 | Over any such run versions never go down, revocations never clear and a millisecond send time never changes. |
| `Replay.RevocationSurvivesExactly` | crates/privchat-sdk/src/local_store.rs:1508-1513 | When a merge into the own row keeps a shown revocation and when it loses it: if and only if. |
| `Replay.OwnVersionDropsExactly` | crates/privchat-sdk/src/local_store.rs:1413-1434 | An accepted echo takes the own row back to an older version if and only if another row held the server id and the own row is newer than the copy; a server id it held before is then shown no more. |
| `Canonical.NormalisationComposes` | crates/privchat-sdk/src/canonical_inbound.rs:137-146 | Normalising twice equals normalising once if and only if the value is not positive seconds below 10^8; from 10^11 on a value is kept, below it is multiplied by 1000 and never clamped, and none is zero or the local clock. |
| `Canonical.AgreementMeans` | crates/privchat-sdk/src/canonical_inbound.rs:106-117 | Two projections agree exactly when they are alike in everything and fall in the same second. |
| `Canonical.PushAgreesWithHistory` | crates/privchat-sdk/src/canonical_inbound.rs:106-117 | A push copy and a history copy of one message agree if and only if they name the same second and the history copy is not revoked. |
| `Drain.DrainHandlesEachOnce` | crates/privchat-sdk/src/lib.rs:7500-7681 | At a fixed time, calls that peek a page and handle it, ending early where the code does, handle the due commands once each, oldest first; when every attempt is recorded each call handles at least one, so after as many calls as there were due commands nothing is due. |
| `Drain.HandleRemovesDue` | crates/privchat-sdk/src/lib.rs:7505-7680 | Handling a due message takes its place and no other out of what is due if its outcome is recorded, and nothing if it is not, whatever the outcome: sent, found to have arrived, rejected, deferred, dropped, broken off before or after the local id was written. |
| `Drain.CallRemovesSettled` | crates/privchat-sdk/src/lib.rs:7500-7681 | One call with any outcomes and failures tries a beginning of its page, and what is due afterwards is what was due before without what it settled. |
| `Drain.SentIsRecorded` | crates/privchat-sdk/src/lib.rs:7526-7576 | A recorded success leaves one row with the acknowledged id and place, sent, under the local id it was sent with, and no command; the call goes on. |
| `Drain.RejectionIsRecorded` | crates/privchat-sdk/src/lib.rs:7646-7681 | A recorded rejection leaves the row failed and no command; the call goes on. |
| `Drain.FoundIsRecorded` | crates/privchat-sdk/src/lib.rs:7577-7614 | A message found to have arrived is settled exactly when its transaction commits and no other row holds the id. |
| `Drain.OthersEndTheCall` | crates/privchat-sdk/src/lib.rs:7615-7645 | Any other attempt ends the call and leaves at most the local id and a counted, postponed command. |
| `Drain.MissingIsDropped` | crates/privchat-sdk/src/lib.rs:7508-7518 | A message whose row is gone is dropped and the call goes on, recorded or not. |
| `Drain.PageListsOldestDue` | crates/privchat-sdk/src/local_store.rs:4315-4348 | A page holds commands of its kind whose time has come, oldest first; those left out come after a full page. |
| `Drain.ReenqueueKeepsPlace` | crates/privchat-sdk/src/local_store.rs:4172-4182 | A renewed command is due at its old place: the commands before and after it are those that were there, and if it was due already every page of either kind reads as before. |
| `Drain.ReenqueueRenews` | crates/privchat-sdk/src/local_store.rs:4172-4182 | Enqueueing again writes payload, route and due time of the message's own command and touches no other. |
| `Migration.MigrateQueues` | crates/privchat-sdk/src/local_store.rs:4209-4311 | The store is exactly what the moves made give, each with the reason for its fate. Whether it completes or stops, items leave their queue only when done with, keep their payload when they stay, and everything that left is in the outbox, set aside as failed, malformed or without row. It stops only at a queue where an engine failed. When it completes, every item was tried once, `moved` and `quarantined` count the fates and `remaining` the items left. |
| `Migration.DrainQueue` | crates/privchat-sdk/src/local_store.rs:4218-4299 | The same for one queue; a failed read leaves the whole queue in place, and a completed one keeps exactly the items kept or not removable. |
| `Migration.MoveItem` | crates/privchat-sdk/src/local_store.rs:4222-4289 | Each item is malformed, without row, moved, set aside as failed, or kept, with exactly that effect on the store; it is kept only for a failing call or a command of its message under another id. |
| `Migration.EffectColumns` | crates/privchat-sdk/src/local_store.rs:4243-4289 | A moved item's message is sending with a command of its queue's kind; one set aside is failed; nothing else changes. |
| `Migration.NewCommandsAreOfTheirQueue` | crates/privchat-sdk/src/local_store.rs:4301-4304 | Items of the first queue are sent as messages, those of the others as attachments. |
| `Migration.FatesAreVerdicts` | crates/privchat-sdk/src/local_store.rs:4222-4289 | The fate of every item is decided by the store at the start, unless an engine call fails and the item is kept. |
| `Migration.WorkingEnginesLeaveRenamed` | crates/privchat-sdk/src/local_store.rs:4222-4299 | With working engines a completed move leaves exactly the items whose message has a command under another id. |
| `Migration.SettlingReleases` | crates/privchat-sdk/src/local_store.rs:4243-4289 | Such an item stays while that command stands, postponed or not, and moves once it is acknowledged, rejected or dropped. |
| `Migration.AcknowledgedIsQueuedAgain` | crates/privchat-sdk/src/local_store.rs:4355-4399 | A message acknowledged under its earlier command is then shown as sending and queued again under its other local id. |
| `Migration.TakenAreSettled` | crates/privchat-sdk/src/local_store.rs:4243-4289 | Every item taken out of its queue stays accounted for until the end of the move. |
| `Migration.LastMovedCarries` | crates/privchat-sdk/src/local_store.rs:4243-4247 | After the move the message of a moved item is sending, with its own command, due at once, carrying the payload of the last item moved for it. |
| `Migration.ReplayEvolves` | crates/privchat-sdk/src/local_store.rs:4201-4205 | No move changes more of a row than its status, takes a command away, gives a message a second one, or touches another table. |
| `Migration.TwoRunsNoSecondCommand` | crates/privchat-sdk/src/local_store.rs:4201-4205 | Running again after any run, however it ended, gives no message a second command. |
| `Migration.MovedExactly` | crates/privchat-sdk/src/local_store.rs:4243-4247 | A moved item has a command of its own if and only if no other message's command sat under its id. |
| `ReadCursor.CursorsCollapse` | crates/privchat-sdk/src/local_store.rs:4844-4988 | Any sequence of cursors leaves the watermark, read marks and unread count its greatest cursor alone would leave. |
| `ReadCursor.StampsAreNotShown` | crates/privchat-sdk/src/local_store.rs:4844-4988 | Up to stamps means the same watermarks, browse positions, read marks, revocations and counts. |
| `ReadCursor.TwoCursorsAreTheGreater` | crates/privchat-sdk/src/local_store.rs:4868-4875 | Stale and repeated cursors change nothing; two cursors act as the greater. |
| `ReadCursor.ProjectionIsPrecise` | crates/privchat-sdk/src/local_store.rs:4877-4928 | Exactly the messages between the old and the new watermark gain a read mark; nothing else changes and no channel row is created. |
| `ReadCursor.ProjectionColumns` | crates/privchat-sdk/src/local_store.rs:4877-4985 | Every column a projection writes: watermark, browse position, count taken off down to zero, read marks new and old. |
| `ReadCursor.UnreadIsConserved` | crates/privchat-sdk/src/local_store.rs:4930-4985 | An exact unread count stays exact and one that is not too small never becomes too small, over any cursors. |
| `ReadCursor.SelfHealIsExact` | crates/privchat-sdk/src/local_store.rs:2802-2871 | Reading heals the count only to zero, which is then the materialised count, and reading again changes nothing. |
| `ReadCursor.UnpassedShowsStored` | crates/privchat-sdk/src/local_store.rs:2818-2834 | A channel whose cursor has not passed every message is read as it stands: the stored count, or zero if negative, is shown, and nothing is written; so an exact count is shown exactly. |
| `ReadCursor.PassedShowsZero` | crates/privchat-sdk/src/local_store.rs:2836-2870 | One whose cursor has passed them all shows zero, and has zero written if a positive count was stored. |
| `ReadCursor.UnreadNowCounts` | crates/privchat-sdk/src/local_store.rs:5021-5053 | The materialised count is of other people's messages above the watermark. |
| `Order.NestedTestsAreLexicographic` | crates/privchat-sdk/src/local_store.rs:2029-2031 | The nested key tests are the strict lexicographic order on the four columns. |
| `Views.OneDisplayOrder` | crates/privchat-sdk/src/local_store.rs:1964-1969 | The list's key and the window's key order the rows alike. |
| `Views.DisplayOrder` | crates/privchat-sdk/src/local_store.rs:1964-1969 | The display order holds every message of the channel once and no other: confirmed ones by timeline and server id, then the unconfirmed ones by timeline and age; the message list is the same backwards. |
| `Views.DisplayIsReversedList` | crates/privchat-sdk/src/local_store.rs:1964-1969 | The display order is the message list read backwards. |
| `Views.WindowIsSlice` | crates/privchat-sdk/src/local_store.rs:1991-2078 | The window is the slice of the display order around the anchor with min(before, available) and min(after, available) rows; empty without the anchor. |
| `Views.PagesTile` | crates/privchat-sdk/src/local_store.rs:1943-1970 | Pages of any size, read to the end, give every row once, newest first. |
| `Views.SweepAscends` | crates/privchat-sdk/src/local_store.rs:2674-2704 | Following the last identifier of each page visits identifiers in strictly ascending order, whatever happens to the table between pages. |
| `Views.IdentifiersPage` | crates/privchat-sdk/src/local_store.rs:2674-2704 | A page holds visible channels after the cursor, ascending, at most the limit between 1 and 500; those left out come after a full page. |
| `Views.SweepVisits` | crates/privchat-sdk/src/local_store.rs:2672-2704 | A channel visible throughout is visited before the sweep can finish. |
| `Views.SweepTerminates` | crates/privchat-sdk/src/local_store.rs:2672-2704 | The sweep finishes after at most one page more than there are identifiers ever in use. |
| `Mutations.DecodeEncode` | crates/privchat-sdk/src/local_store.rs:5213-5248 | The layout of a value, and decoding an encoded mutation gives it back if and only if its event is not empty. |
| `Mutations.EncodeDecode` | crates/privchat-sdk/src/local_store.rs:5222-5248 | A value decodes exactly when it has 18 bytes and version 1, and then is the encoding of what it decodes to. |
| `Mutations.KeyText` | crates/privchat-sdk/src/local_store.rs:5193-5201 | A key names channel type, channel, message and event in this order, in digits that read back. |
| `Mutations.PrefixMatchesTarget` | crates/privchat-sdk/src/local_store.rs:5193-5211 | A key starts with a target's prefix if and only if it is for that target. |
| `Mutations.SlotKeyIsInjective` | crates/privchat-sdk/src/local_store.rs:5193-5201 | Different slots have different keys. |
| `Mutations.MutationStore.Put` | crates/privchat-sdk/src/local_store.rs:5250-5264 | The mutation replaces whatever was in its slot and nothing else, also when only the flush fails; a failed insert changes nothing. |
| `Mutations.MutationStore.Delete` | crates/privchat-sdk/src/local_store.rs:5301-5312 | The slot is emptied and nothing else changes, also when only the flush fails; a failed removal changes nothing. |
| `Mutations.MutationStore.List` | crates/privchat-sdk/src/local_store.rs:5266-5299 | Exactly the live mutations of the target with a non-empty event, strictly ascending by pts and then event id; the others of that target are removed where the removal succeeds, other targets untouched. |
| `Codec.PaddedIsInjective` | crates/privchat-sdk/src/local_store.rs:5193-5201 | Zero-padded decimals are injective below the width's power of ten. |
| `Codec.PaddedReadsBack` | crates/privchat-sdk/src/local_store.rs:5193-5201 | Zero-padded digits read back as the number. |
| `Codec.BytesRoundTrip` | crates/privchat-sdk/src/local_store.rs:5213-5220 | Big-endian bytes give the number back. |
| `Codec.FirstByteWeighsMost` | crates/privchat-sdk/src/local_store.rs:5213-5220 | The first byte is the most significant. |
| `Pipeline.ReceivePipeline.Enqueue` | crates/privchat-sdk/src/receive_pipeline.rs:58-87 | Accepts and queues exactly the items whose key is not in the window at their turn; accepted plus dropped are the inputs. |
| `Pipeline.ReceivePipeline.RememberKey` | crates/privchat-sdk/src/receive_pipeline.rs:97-105 | Set and deque keep holding the same keys without repeats, the last `limit` accepted ones. |
| `Pipeline.ReceivePipeline.PopBatch` | crates/privchat-sdk/src/receive_pipeline.rs:89-91 | Takes the first batch, or none. |
| `Pipeline.ReceivePipeline.RequeueFront` | crates/privchat-sdk/src/receive_pipeline.rs:93-95 | Puts a batch first. |
| `Pipeline.DedupeKeyIsInjective` | crates/privchat-sdk/src/receive_pipeline.rs:107-116 | Keys without bars in their texts are equal exactly for items alike in kind, scope, id, version and deletion. |
| `Pipeline.NewVersionIsNew` | crates/privchat-sdk/src/receive_pipeline.rs:107-116 | Another version of an item, or its deletion, always has another key. |
| `Pipeline.RequeueUndoesPop` | crates/privchat-sdk/src/receive_pipeline.rs:89-95 | Requeueing a batch just popped restores the pipeline. |
| `Pipeline.SiftKeepsSpacing` | crates/privchat-sdk/src/receive_pipeline.rs:66-76 | An accepted key repeats only after more than `limit` other accepted keys. |
| `Pipeline.SiftJoins` | crates/privchat-sdk/src/receive_pipeline.rs:58-87 | How items are split over calls does not matter. |
| `Pipeline.Conservation` | crates/privchat-sdk/src/lib.rs:8680-8698 | Over any run of arrivals, pops, requeues, drains and applies that may fail, the batches taken followed by those queued hold exactly the accepted items in order of arrival if and only if every batch that failed was the last one drained. |
| `Pipeline.AllAccounted` | crates/privchat-sdk/src/receive_pipeline.rs:58-95 | In every run each accepted item is in one batch taken, queued or lost, nothing else is, every input is accepted or counted as dropped, and the keys remembered are those of the accepted items in order. |
| `Pipeline.RefusedInWindow` | crates/privchat-sdk/src/receive_pipeline.rs:66-70 | An item among the last `limit` accepted, lost or not, is refused when it arrives again. |
| `Pipeline.AcceptedExactly` | crates/privchat-sdk/src/receive_pipeline.rs:66-84 | An item arriving alone is accepted, into a batch under its own header, exactly when none of the last `limit` accepted has its key. |
| `SyncCommitApplier.DrainBatches` | crates/privchat-sdk/src/sync_commit_applier.rs:23-29 | Takes every queued batch in order, leaves the queue empty and terminates. |
| `SyncCommitApplier.ApplyDrained` | crates/privchat-sdk/src/lib.rs:9829-9848 | Applies the drained batches in order until one fails, which alone is requeued. |
| `Store.LocalStore.CreateLocalMessage` | crates/privchat-sdk/src/local_store.rs:1195-1230 | The specified row, or an error and the old tables. |
| `Store.LocalStore.CreateLocalMessageQueued` | crates/privchat-sdk/src/local_store.rs:1239-1304 | The specified row and command, or an error and the old tables, whichever call fails. |
| `Store.LocalStore.UpsertRemoteMessage` | crates/privchat-sdk/src/local_store.rs:1306-1506 | The statements of the single upsert refine the one upsert specification, call failures included. |
| `Store.LocalStore.UpsertOneInTx` | crates/privchat-sdk/src/local_store.rs:1593-1788 | The in-transaction copy of the logic refines the same specification. |
| `Store.LocalStore.BatchUpsertInner` | crates/privchat-sdk/src/local_store.rs:1570-1591 | One transaction: all items as the fold, or nothing. |
| `Store.LocalStore.BatchUpsertRemoteMessages` | crates/privchat-sdk/src/local_store.rs:1549-1568 | Batch equals fold: a transaction that commits gives the tables and per-item results of upserting one by one at its clock; one that fails leaves nothing, and the items are then upserted one by one with their own clocks and engine calls. |
| `Store.LocalStore.FinalizeAttachmentAndEnqueue` | crates/privchat-sdk/src/local_store.rs:2161-2230 | All or nothing. |
| `Store.LocalStore.OutboxEnqueue` | crates/privchat-sdk/src/local_store.rs:4132-4196 | All or nothing; the two unique indexes decide between renew, insert and failure. |
| `Store.LocalStore.OutboxPeek` | crates/privchat-sdk/src/local_store.rs:4315-4348 | The first `limit` due commands, with all their columns, in (created_at, id) order. |
| `Store.LocalStore.OutboxAckSent` | crates/privchat-sdk/src/local_store.rs:4355-4399 | Dedupe, update and delete commit together or not at all. |
| `Store.LocalStore.MarkMessageSent` | crates/privchat-sdk/src/local_store.rs:4067-4118 | The same without a command. |
| `Store.LocalStore.OutboxBumpRetry` | crates/privchat-sdk/src/local_store.rs:4402-4420 | Only the message's command is postponed. |
| `Store.LocalStore.OutboxReject` | crates/privchat-sdk/src/local_store.rs:4426-4445 | Status and command change together or not at all. |
| `Store.LocalStore.OutboxReconcileSent` | crates/privchat-sdk/src/local_store.rs:4448-4474 | Fails as a whole when another row holds the server id, otherwise settles the message. |
| `Store.LocalStore.OutboxDrop` | crates/privchat-sdk/src/local_store.rs:4476-4484 | Removes the message's command and touches nothing else. |
| `Store.LocalStore.UpdateMessageStatus` | crates/privchat-sdk/src/local_store.rs:4553-4571 | Changes one row's status, or fails when there is no row. |
| `Store.LocalStore.UpdateLocalMessageId` | crates/privchat-sdk/src/local_store.rs:4516-4541 | Writes one row's local id, or fails when there is no row. |
| `Store.LocalStore.DeleteMessageLocal` | crates/privchat-sdk/src/local_store.rs:4639-4680 | Removes the row and its extra row together; the command stays. |
| `Store.LocalStore.ProjectChannelReadCursor` | crates/privchat-sdk/src/local_store.rs:4844-4988 | The projection as specified, or nothing. |
| `Store.LocalStore.ResolveChannelUnreadOnRead` | crates/privchat-sdk/src/local_store.rs:2802-2871 | The healed table and the count shown, as specified. |
| `Store.LocalStore.CountMaterializedUnread` | crates/privchat-sdk/src/local_store.rs:5021-5053 | The number of foreign messages above the watermark. |
| `Store.SelectByServer` | crates/privchat-sdk/src/local_store.rs:1322-1329 | A scan finds the row with the server id and the lowest key. |
| `Store.SelectByLocal` | crates/privchat-sdk/src/local_store.rs:1330-1341 | A scan finds the own row with the local id and the lowest key. |
| `Scenarios.OneMessageSentTwice` | crates/privchat-sdk/src/lib.rs:7423-7438 | A run from the empty store, of possible events only, after which the server holds two messages for the one created. |
| `Scenarios.MessageIsDelivered` | crates/privchat-sdk/src/local_store.rs:4355-4399 | The ordinary run: created, sent, stored, acknowledged. |
| `Scenarios.LostReplyThenEcho` | crates/privchat-sdk/src/local_store.rs:4350-4354 | The safe beginning of that run: created, sent, stored by the server, reply lost, echo merged. |
| `Scenarios.DisplacedMessage` | crates/privchat-sdk/src/local_store.rs:4639-4680 | A run of operations with fresh ids that ends with a displaced message, which the next enqueue shows as sending without a command. |
| `Scenarios.RevocationIsLost` | crates/privchat-sdk/src/local_store.rs:1422-1434 | A store in which merging an echo loses a shown revocation. |
| `Scenarios.RetryIsRefused` | crates/privchat-sdk/src/local_store.rs:1413-1434 | A store in which a failed upsert cannot be made good. |
| `Scenarios.RenamedMessage` | crates/privchat-sdk/src/local_store.rs:4516-4541 | A run of operations with fresh ids, a history copy and a minted id among them, that ends with a message whose command stands under another id. |
| `Scenarios.PushTimesDiffer` | crates/privchat-sdk/src/lib.rs:5643-5694 | A push and a history copy that show different times in the two orders. |
| `Scenarios.BatchIsLost` | crates/privchat-sdk/src/lib.rs:8680-8698 | Two batches, the first fails: the second is in no place and refused when fetched again. |
| `Scenarios.OwnVersionDrops` | crates/privchat-sdk/src/local_store.rs:1413-1434 | A store in which an accepted echo takes the own row back a version. |

## Left out

- Transport, session and the actor loop of lib.rs: only the steps of the outbox drain are modelled, as events of `Protocol` and outcomes of `Drain`.
- In `Protocol`: deletion of messages by the user, `outbox_drop`, status updates and `mark_message_sent`; `Outbox` proves identity and the no-ghost property for those operations.
- Encryption, key wrapping, sled and SQLCipher internals, files, avatars, QR codes: foreign libraries and I/O.
- Columns and tables no modelled branch looks into (voice and flame columns, reactions, mentions, reminders, members, friends).
- `pending` status of the outbox, coalesce_key and commands without a message: no code writes any other status or such a row.
- Push and sync items marked deleted: they revoke a stored message instead of storing one. Sync items of `sync_entities` whose payload the server fills: only the difference and push payloads, which the client fills itself, are modelled.
- What applying a batch does, and what a failing one has done before it failed.
- JSON metadata: opaque; `SemanticOf` takes the parser as a parameter.
- `prefer_precise_sent_at`: not used by the store, whose own rule is modelled.
- Canonical timeline pushes: each becomes a difference commit with a time in whole seconds, so it is a `Replay.Differenced` copy whose time may differ from the history copy's.
- upsert_channel_extra: it overwrites the watermark without comparing, so the cursor results are about `project_channel_read_cursor` alone.
- u64 to i64 casts beyond the assumption above, and LIMIT values above the i64 range.
- Message rows read back by list queries are represented by their keys; joined display columns are not modelled.
- Replay.ReplayConverges: copies without a usable timestamp are excluded, because the store then uses the local clock and cannot converge.
- Migration.MigrateQueues: removals that a failed flush loses with the process reappear in their queue; that is the case of running again.
- Migration.TakenAreSettled: asks that positive local ids be distinct and commands stand under their own messages' ids at the start; without that an item may be displaced (`Migration.MovedExactly`).
- Upsert.RetryExactly: copies without a usable timestamp are tried again at the same clock only, because the store then takes the clock for the send time.
