/** Outbound commands. Each operation is one transaction over `message` and `outbox`, stated as the
    table contents it leaves; a failing one leaves the tables as they were. */
module Outbox {
  import opened Tables
  import opened Canonical
  import opened Upsert

  datatype NewMessage = NewMessage(
    channel: nat, channelType: int, from: nat, body: Body, mime: Option<string>, mediaDownloaded: bool,
    thumbStatus: int)

  /** What an enqueue puts in the queue. */
  datatype Job = Job(kind: string, channel: nat, payload: seq<Byte>, route: Option<string>)

  function LocalRow(m: NewMessage, local: nat, status: int, now: int): Message {
    Message(None, local, m.channel, m.channelType, m.from, m.body, m.mime, status, 0, 0, 0, now,
            Milliseconds, now, m.mediaDownloaded, m.thumbStatus)
  }

  function Create(db: Db, m: NewMessage, local: nat, now: int): (Db, Result<nat>) {
    (db.(message := db.message[db.nextId := LocalRow(m, local, 0, now)], nextId := db.nextId + 1), Ok(db.nextId))
  }

  function NewCommand(rowid: nat, id: nat, job: Job, now: int): Command {
    Command(rowid, job.kind, id, job.channel, job.payload, job.route, 0, 0, now, now)
  }

  function Renewed(c: Command, job: Job, now: int): Command {
    c.(payload := job.payload, route := job.route, nextAttempt := 0, updatedAt := now)
  }

  /** Insert a command, or renew the one already queued under this command id: a renewed command
      keeps its place, its owner, its kind and its retry count. None when the message already has
      a command under another id. */
  function PutCommand(outbox: map<nat, Command>, next: nat, local: nat, id: nat, job: Job, now: int)
    : Option<map<nat, Command>>
  {
    if local in outbox then Some(outbox[local := Renewed(outbox[local], job, now)])
    else if HasCommand(outbox, id) then None
    else Some(outbox[local := NewCommand(next, id, job, now)])
  }

  /** Mark a row as sending and queue its command, or do neither. */
  function Queue(db: Db, id: nat, row: Message, job: Job, now: int): Option<Db> {
    var put := PutCommand(db.outbox, db.nextCommand, row.local, id, job, now);
    if put.None? then None
    else Some(db.(message := db.message[id := row], outbox := put.value, nextCommand := db.nextCommand + 1))
  }

  /** The row and its command, or neither. */
  function CreateQueued(db: Db, m: NewMessage, local: nat, job: Job, now: int): (Db, Result<nat>) {
    if local == 0 then (db, Err(MissingLocalMessageId(0)))
    else if local in db.outbox || HasCommand(db.outbox, db.nextId) then (db, Err(Storage))
    else
      (db.(message := db.message[db.nextId := LocalRow(m, local, SENDING, now)], nextId := db.nextId + 1,
           outbox := db.outbox[local := NewCommand(db.nextCommand, db.nextId, job.(channel := m.channel), now)],
           nextCommand := db.nextCommand + 1), Ok(db.nextId))
  }

  function Enqueue(db: Db, id: nat, job: Job, now: int): (Db, Result<()>) {
    if id !in db.message || db.message[id].local == 0 then (db, Err(MissingLocalMessageId(id)))
    else
      var queued := Queue(db, id, db.message[id].(status := SENDING, updatedAt := now), job, now);
      if queued.Some? then (queued.value, Ok(())) else (db, Err(Storage))
  }

  function Finalize(db: Db, id: nat, content: string, thumbStatus: int, payload: seq<Byte>, route: string, now: int)
    : (Db, Result<(nat, int)>)
  {
    if id !in db.message then (db, Err(Storage))
    else
      var row := db.message[id];
      if row.local == 0 then (db, Err(MissingLocalMessageId(id)))
      else
        var final := Finalized(row, content, thumbStatus, now);
        var queued := Queue(db, id, final, Job("attachment", row.channel, payload, Some(route)), now);
        if queued.Some? then (queued.value, Ok((row.channel, row.channelType))) else (db, Err(Storage))
  }

  function Finalized(row: Message, content: string, thumbStatus: int, now: int): Message {
    row.(body := row.body.(content := content), thumbStatus := thumbStatus, mediaDownloaded := true,
         status := SENDING, updatedAt := now)
  }

  function WithoutCommands(outbox: map<nat, Command>, id: nat): map<nat, Command> {
    map c | c in outbox && outbox[c].messageId != id :: outbox[c]
  }

  function SentRow(row: Message, server: nat, seqNo: nat, now: int): Message {
    row.(server := Some(server), status := SENT, updatedAt := now, pts := seqNo, orderSeq := seqNo)
  }

  /** The row holds the server's id, every other row holding it is gone, and so is the command. */
  function Ack(db: Db, id: nat, server: nat, seqNo: nat, now: int): (Db, Result<()>) {
    if id !in db.message then (db, Err(Storage))
    else
      (db.(message := Stored(db.message, id, SentRow(db.message[id], server, seqNo, now), server),
           outbox := WithoutCommands(db.outbox, id)), Ok(()))
  }

  /** The acknowledgement of a message that is not queued. */
  function MarkSent(db: Db, id: nat, server: nat, seqNo: nat, now: int): (Db, Result<()>) {
    if id !in db.message then (db, Err(Storage))
    else (db.(message := Stored(db.message, id, SentRow(db.message[id], server, seqNo, now), server)), Ok(()))
  }

  function Bump(db: Db, id: nat, next: int, now: int): Db {
    db.(outbox := map c | c in db.outbox ::
      if db.outbox[c].messageId == id then
        db.outbox[c].(retries := db.outbox[c].retries + 1, nextAttempt := next, updatedAt := now)
      else db.outbox[c])
  }

  function Reject(db: Db, id: nat, status: int, now: int): Db {
    db.(message :=
          if id !in db.message then db.message
          else db.message[id := db.message[id].(status := status, updatedAt := now)],
        outbox := WithoutCommands(db.outbox, id))
  }

  /** The send is known to have succeeded. Another row holding the server id trips the unique
      index, so the transaction fails as a whole. */
  function Reconcile(db: Db, id: nat, server: nat, now: int): (Db, Result<()>) {
    if id in db.message && exists i :: i in db.message && i != id && db.message[i].server == Some(server) && server > 0
    then (db, Err(Storage))
    else
      (db.(message :=
             if id !in db.message then db.message
             else db.message[id := db.message[id].(server := Some(server), status := SENT, updatedAt := now)],
           outbox := WithoutCommands(db.outbox, id)), Ok(()))
  }

  function Drop(db: Db, id: nat): Db { db.(outbox := WithoutCommands(db.outbox, id)) }

  function SetStatus(db: Db, id: nat, status: int, now: int): (Db, Result<()>) {
    if id !in db.message then (db, Err(Storage))
    else (db.(message := db.message[id := db.message[id].(status := status, updatedAt := now)]), Ok(()))
  }

  /** A newly minted local id is written before a message without one is sent. */
  function SetLocal(db: Db, id: nat, local: nat, now: int): (Db, Result<()>) {
    if id !in db.message then (db, Err(Storage))
    else (db.(message := db.message[id := db.message[id].(local := local, updatedAt := now)]), Ok(()))
  }

  function DeleteLocal(db: Db, id: nat): Db {
    if id !in db.message then db else db.(message := db.message - {id}, extra := db.extra - {id})
  }

  // ----- all operations as one step -----

  datatype Op =
    | OpCreate(m: NewMessage, local: nat)
    | OpCreateQueued(m: NewMessage, local: nat, job: Job)
    | OpStore(inp: Input, io: nat -> bool)
    | OpEnqueue(id: nat, job: Job)
    | OpFinalize(id: nat, content: string, thumbStatus: int, payload: seq<Byte>, route: string)
    | OpAck(id: nat, server: nat, seqNo: nat)
    | OpMarkSent(id: nat, server: nat, seqNo: nat)
    | OpBump(id: nat, next: int)
    | OpReject(id: nat, status: int)
    | OpReconcile(id: nat, server: nat)
    | OpDrop(id: nat)
    | OpSetStatus(id: nat, status: int)
    | OpSetLocal(id: nat, local: nat)
    | OpDeleteLocal(id: nat)

  /** The tables after an operation. All but `OpStore` are single statements or transactions, so a
      failed call leaves the tables alone; a failing upsert may leave part of its effect. */
  function Apply(db: Db, uid: nat, op: Op, now: int): Db {
    match op
    case OpCreate(m, local) => Create(db, m, local, now).0
    case OpCreateQueued(m, local, job) => CreateQueued(db, m, local, job, now).0
    case OpStore(inp, io) => StoreIo(db, Some(uid), inp, now, io).0
    case OpEnqueue(id, job) => Enqueue(db, id, job, now).0
    case OpFinalize(id, content, thumb, payload, route) => Finalize(db, id, content, thumb, payload, route, now).0
    case OpAck(id, server, seqNo) => Ack(db, id, server, seqNo, now).0
    case OpMarkSent(id, server, seqNo) => MarkSent(db, id, server, seqNo, now).0
    case OpBump(id, next) => Bump(db, id, next, now)
    case OpReject(id, status) => Reject(db, id, status, now)
    case OpReconcile(id, server) => Reconcile(db, id, server, now).0
    case OpDrop(id) => Drop(db, id)
    case OpSetStatus(id, status) => SetStatus(db, id, status, now).0
    case OpSetLocal(id, local) => SetLocal(db, id, local, now).0
    case OpDeleteLocal(id) => DeleteLocal(db, id)
  }

  // ----- identity over all operations -----

  /** What the identity of messages asks of a caller: a new local id is not yet used by an own
      message, and server ids are positive. Nothing else matters: not even which row a
      reconciliation names. */
  ghost predicate FreshIds(db: Db, uid: nat, op: Op) {
    match op
    case OpCreate(m, local) => OwnFresh(db, uid, m, local)
    case OpCreateQueued(m, local, _) => OwnFresh(db, uid, m, local)
    case OpAck(_, server, _) => server > 0
    case OpMarkSent(_, server, _) => server > 0
    case OpReconcile(_, server) => server > 0
    case OpSetLocal(id, local) => OwnUnused(db, uid, id, local)
    case _ => true
  }

  /** No own message but `id` has this local id. */
  ghost predicate OwnUnused(db: Db, uid: nat, id: nat, local: nat) {
    local > 0 ==> forall i :: i in db.message && i != id && db.message[i].from == uid ==> db.message[i].local != local
  }

  ghost predicate OwnFresh(db: Db, uid: nat, m: NewMessage, local: nat) {
    m.from == uid && local > 0 ==>
      forall i :: i in db.message && db.message[i].from == uid ==> db.message[i].local != local
  }

  ghost predicate Identity(db: Db, uid: nat) { Schema(db) && OwnUnique(db.message, uid) }

  /** Rewriting a row without moving its server id, local id or author. */
  lemma TouchKeepsUnique(t: map<nat, Message>, uid: nat, id: nat, row: Message)
    requires UniqueServer(t) && OwnUnique(t, uid) && id in t
    requires row.server == t[id].server && row.local == t[id].local && row.from == t[id].from
    ensures UniqueServer(t[id := row]) && OwnUnique(t[id := row], uid)
  {
  }

  lemma AckKeepsIdentity(db: Db, uid: nat, id: nat, server: nat, seqNo: nat, now: int)
    requires Identity(db, uid) && server > 0
    ensures Identity(Ack(db, id, server, seqNo, now).0, uid) && Identity(MarkSent(db, id, server, seqNo, now).0, uid)
  {
    if id in db.message {
      var row := SentRow(db.message[id], server, seqNo, now);
      StoredKeepsUniqueServer(db.message, id, row, server);
      assert OwnUnique(Stored(db.message, id, row, server), uid);
      WithoutCommandsKeepsSchema(db.outbox, db.nextCommand, db.nextId, id);
    }
  }

  lemma PutCommandKeepsSchema(outbox: map<nat, Command>, next: nat, nextId: nat, local: nat, id: nat, job: Job,
    now: int)
    requires OutboxSchema(outbox, next, nextId) && local > 0 && id < nextId
    ensures
      var put := PutCommand(outbox, next, local, id, job, now);
      put.Some? ==> OutboxSchema(put.value, next + 1, nextId)
  {
  }

  lemma QueueKeepsIdentity(db: Db, uid: nat, id: nat, row: Message, job: Job, now: int)
    requires Identity(db, uid) && id in db.message && row.local > 0
    requires row.server == db.message[id].server && row.local == db.message[id].local && row.from == db.message[id].from
    ensures var queued := Queue(db, id, row, job, now); queued.Some? ==> Identity(queued.value, uid)
  {
    TouchKeepsUnique(db.message, uid, id, row);
    PutCommandKeepsSchema(db.outbox, db.nextCommand, db.nextId, row.local, id, job, now);
  }

  lemma EnqueueKeepsIdentity(db: Db, uid: nat, id: nat, job: Job, now: int)
    requires Identity(db, uid)
    ensures Identity(Enqueue(db, id, job, now).0, uid)
  {
    if id in db.message && db.message[id].local > 0 {
      QueueKeepsIdentity(db, uid, id, db.message[id].(status := SENDING, updatedAt := now), job, now);
    }
  }

  lemma FinalizeKeepsIdentity(db: Db, uid: nat, id: nat, content: string, thumb: int, payload: seq<Byte>,
    route: string, now: int)
    requires Identity(db, uid)
    ensures Identity(Finalize(db, id, content, thumb, payload, route, now).0, uid)
  {
    if id in db.message && db.message[id].local > 0 {
      QueueKeepsIdentity(db, uid, id, Finalized(db.message[id], content, thumb, now),
                         Job("attachment", db.message[id].channel, payload, Some(route)), now);
    }
  }

  lemma CreateKeepsIdentity(db: Db, uid: nat, m: NewMessage, local: nat, now: int)
    requires Identity(db, uid) && OwnFresh(db, uid, m, local)
    ensures Identity(Create(db, m, local, now).0, uid)
  {
  }

  lemma CreateQueuedKeepsIdentity(db: Db, uid: nat, m: NewMessage, local: nat, job: Job, now: int)
    requires Identity(db, uid) && OwnFresh(db, uid, m, local)
    ensures Identity(CreateQueued(db, m, local, job, now).0, uid)
  {
    var db', r := CreateQueued(db, m, local, job, now).0, CreateQueued(db, m, local, job, now).1;
    if r.Ok? {
      var row := LocalRow(m, local, SENDING, now);
      assert UniqueServer(db.message[db.nextId := row]) && OwnUnique(db.message[db.nextId := row], uid);
      assert OutboxSchema(db'.outbox, db'.nextCommand, db'.nextId);
    }
  }

  lemma WithoutCommandsKeepsSchema(outbox: map<nat, Command>, nextCommand: nat, nextId: nat, id: nat)
    requires OutboxSchema(outbox, nextCommand, nextId)
    ensures OutboxSchema(WithoutCommands(outbox, id), nextCommand, nextId)
  {
  }

  lemma RejectKeepsIdentity(db: Db, uid: nat, id: nat, status: int, now: int)
    requires Identity(db, uid)
    ensures Identity(Reject(db, id, status, now), uid)
  {
    WithoutCommandsKeepsSchema(db.outbox, db.nextCommand, db.nextId, id);
    SetStatusKeepsIdentity(db, uid, id, status, now);
  }

  lemma SetStatusKeepsIdentity(db: Db, uid: nat, id: nat, status: int, now: int)
    requires Identity(db, uid)
    ensures Identity(SetStatus(db, id, status, now).0, uid)
  {
    if id in db.message {
      TouchKeepsUnique(db.message, uid, id, db.message[id].(status := status, updatedAt := now));
    }
  }

  lemma ReconcileKeepsIdentity(db: Db, uid: nat, id: nat, server: nat, now: int)
    requires Identity(db, uid) && server > 0
    ensures Identity(Reconcile(db, id, server, now).0, uid)
  {
    WithoutCommandsKeepsSchema(db.outbox, db.nextCommand, db.nextId, id);
    if id in db.message && Reconcile(db, id, server, now).1.Ok? {
      var t' := db.message[id := db.message[id].(server := Some(server), status := SENT, updatedAt := now)];
      assert UniqueServer(t') && OwnUnique(t', uid);
    }
  }

  lemma BumpKeepsIdentity(db: Db, uid: nat, id: nat, next: int, now: int)
    requires Identity(db, uid)
    ensures Identity(Bump(db, id, next, now), uid)
  {
    var db' := Bump(db, id, next, now);
    assert OutboxSchema(db'.outbox, db'.nextCommand, db'.nextId);
  }

  lemma SetLocalKeepsIdentity(db: Db, uid: nat, id: nat, local: nat, now: int)
    requires Identity(db, uid) && OwnUnused(db, uid, id, local)
    ensures Identity(SetLocal(db, id, local, now).0, uid)
  {
    if id in db.message {
      var t' := db.message[id := db.message[id].(local := local, updatedAt := now)];
      assert UniqueServer(t') && OwnUnique(t', uid);
    }
  }

  lemma DeleteKeepsIdentity(db: Db, uid: nat, id: nat)
    requires Identity(db, uid)
    ensures Identity(DeleteLocal(db, id), uid)
  {
  }

  /** Every operation keeps both identities, whether it succeeds, fails or stops halfway. */
  lemma OpKeepsIdentity(db: Db, uid: nat, op: Op, now: int)
    requires Identity(db, uid) && FreshIds(db, uid, op)
    ensures Identity(Apply(db, uid, op, now), uid)
  {
    match op
    case OpCreate(m, local) => CreateKeepsIdentity(db, uid, m, local, now);
    case OpCreateQueued(m, local, job) => CreateQueuedKeepsIdentity(db, uid, m, local, job, now);
    case OpStore(inp, io) => StoreIoKeepsIdentity(db, uid, inp, now, io);
    case OpEnqueue(id, job) => EnqueueKeepsIdentity(db, uid, id, job, now);
    case OpFinalize(id, content, thumb, payload, route) =>
      FinalizeKeepsIdentity(db, uid, id, content, thumb, payload, route, now);
    case OpAck(id, server, seqNo) => AckKeepsIdentity(db, uid, id, server, seqNo, now);
    case OpMarkSent(id, server, seqNo) => AckKeepsIdentity(db, uid, id, server, seqNo, now);
    case OpBump(id, next) => BumpKeepsIdentity(db, uid, id, next, now);
    case OpReject(id, status) => RejectKeepsIdentity(db, uid, id, status, now);
    case OpReconcile(id, server) => ReconcileKeepsIdentity(db, uid, id, server, now);
    case OpDrop(id) => WithoutCommandsKeepsSchema(db.outbox, db.nextCommand, db.nextId, id);
    case OpSetStatus(id, status) => SetStatusKeepsIdentity(db, uid, id, status, now);
    case OpSetLocal(id, local) => SetLocalKeepsIdentity(db, uid, id, local, now);
    case OpDeleteLocal(id) => DeleteKeepsIdentity(db, uid, id);
  }

  // ----- no ghost sending message -----

  /** Every message shown as sending has a command that will send it. */
  ghost predicate NoGhost(db: Db) {
    forall i :: i in db.message && db.message[i].status == SENDING ==> HasCommand(db.outbox, i)
  }

  /** The command queued under the message's own command id belongs to another message, and the
      message has none of its own. */
  predicate Displaced(db: Db, id: nat) {
    && id in db.message && db.message[id].local in db.outbox && !HasCommand(db.outbox, id)
  }

  /** Exactly what keeps a step from leaving a message sending without a command. */
  ghost predicate GhostFree(db: Db, uid: nat, op: Op, now: int) {
    match op
    case OpEnqueue(id, _) => !(id in db.message && db.message[id].local > 0 && Displaced(db, id))
    case OpFinalize(id, _, _, _, _) => !(id in db.message && db.message[id].local > 0 && Displaced(db, id))
    case OpStore(inp, io) =>
      || inp.status != SENDING || !Writes(db, Some(uid), inp, io)
      || HasCommand(db.outbox, Placed(db, Some(uid), inp, now).0)
    case OpReject(id, status) => status != SENDING || id !in db.message
    case OpDrop(id) => id !in db.message || db.message[id].status != SENDING
    case OpSetStatus(id, status) => status != SENDING || id !in db.message || HasCommand(db.outbox, id)
    case _ => true
  }

  lemma WithoutCommandsKeepsOthers(outbox: map<nat, Command>, id: nat, i: nat)
    ensures HasCommand(WithoutCommands(outbox, id), i) <==> i != id && HasCommand(outbox, i)
  {
    if i != id && HasCommand(outbox, i) {
      var c :| c in outbox && outbox[c].messageId == i;
      assert c in WithoutCommands(outbox, id);
    }
  }

  /** Queueing gives a row its command unless it is displaced, and takes none away. */
  lemma PutCommandGives(outbox: map<nat, Command>, next: nat, local: nat, id: nat, job: Job, now: int)
    ensures
      var put := PutCommand(outbox, next, local, id, job, now);
      put.Some? ==>
        && (forall i :: i != id ==> (HasCommand(put.value, i) <==> HasCommand(outbox, i)))
        && (HasCommand(put.value, id) <==> HasCommand(outbox, id) || local !in outbox)
  {
    var put := PutCommand(outbox, next, local, id, job, now);
    if put.Some? {
      forall i ensures HasCommand(put.value, i) <==> HasCommand(outbox, i) || (i == id && local !in outbox) {
        if HasCommand(outbox, i) {
          var c :| c in outbox && outbox[c].messageId == i;
          assert c in put.value && put.value[c].messageId == i;
        }
        if HasCommand(put.value, i) {
          var c :| c in put.value && put.value[c].messageId == i;
          assert c in outbox ==> outbox[c].messageId == i;
        }
        if i == id && local !in outbox { assert put.value[local].messageId == id; }
      }
    }
  }

  lemma QueueGhosts(db: Db, id: nat, row: Message, job: Job, now: int)
    requires NoGhost(db) && id in db.message && row.status == SENDING && row.local == db.message[id].local
    ensures var queued := Queue(db, id, row, job, now); queued.Some? ==> (NoGhost(queued.value) <==> !Displaced(db, id))
    ensures Displaced(db, id) ==> Queue(db, id, row, job, now).Some?
  {
    PutCommandGives(db.outbox, db.nextCommand, row.local, id, job, now);
    var queued := Queue(db, id, row, job, now);
    if queued.Some? { assert queued.value.message[id].status == SENDING; }
  }

  lemma SettleGhosts(db: Db, id: nat, message: map<nat, Message>)
    requires
      NoGhost(db) && forall i :: i in message && i != id && message[i].status == SENDING ==>
        i in db.message && db.message[i].status == SENDING
    ensures
      NoGhost(db.(message := message, outbox := WithoutCommands(db.outbox, id)))
      <==> !(id in message && message[id].status == SENDING)
  {
    forall i ensures HasCommand(WithoutCommands(db.outbox, id), i) <==> i != id && HasCommand(db.outbox, i) {
      WithoutCommandsKeepsOthers(db.outbox, id, i);
    }
  }

  lemma CreateQueuedGhosts(db: Db, m: NewMessage, local: nat, job: Job, now: int)
    requires NoGhost(db)
    ensures NoGhost(CreateQueued(db, m, local, job, now).0)
  {
    var (db', r) := CreateQueued(db, m, local, job, now);
    if r.Ok? {
      assert db'.outbox[local].messageId == db.nextId;
      forall i | i in db.message && HasCommand(db.outbox, i) ensures HasCommand(db'.outbox, i) {
        var c :| c in db.outbox && db.outbox[c].messageId == i;
        assert db'.outbox[c] == db.outbox[c];
      }
    }
  }

  lemma BumpGhosts(db: Db, id: nat, next: int, now: int)
    requires NoGhost(db)
    ensures NoGhost(Bump(db, id, next, now))
  {
    forall i | HasCommand(db.outbox, i) ensures HasCommand(Bump(db, id, next, now).outbox, i) {
      var c :| c in db.outbox && db.outbox[c].messageId == i;
      assert Bump(db, id, next, now).outbox[c].messageId == i;
    }
  }

  lemma StoreGhosts(db: Db, uid: nat, inp: Input, now: int)
    requires NoGhost(db)
    ensures
      NoGhost(Store(db, Some(uid), inp, now).0) <==>
      inp.status != SENDING || !Accepted(db, Some(uid), inp) || HasCommand(db.outbox, Placed(db, Some(uid), inp, now).0)
  {
    if Accepted(db, Some(uid), inp) {
      var (id, row) := Placed(db, Some(uid), inp, now);
      var db' := Store(db, Some(uid), inp, now).0;
      assert db'.outbox == db.outbox && db'.message[id] == row && row.status == inp.status;
      assert forall i :: i in db'.message && i != id ==> i in db.message && db'.message[i] == db.message[i];
    }
  }

  lemma StoreIoGhosts(db: Db, uid: nat, inp: Input, now: int, io: nat -> bool)
    requires NoGhost(db)
    ensures NoGhost(StoreIo(db, Some(uid), inp, now, io).0) <==> GhostFree(db, uid, OpStore(inp, io), now)
  {
    StoreIoRows(db, Some(uid), inp, now, io);
    if Writes(db, Some(uid), inp, io) {
      var stored := Store(db, Some(uid), inp, now).0;
      StoreGhosts(db, uid, inp, now);
      SameGhosts(StoreIo(db, Some(uid), inp, now, io).0, stored);
    }
  }

  lemma SameGhosts(a: Db, b: Db)
    requires a.message == b.message && a.outbox == b.outbox
    ensures NoGhost(a) <==> NoGhost(b)
  {
  }

  lemma EnqueueGhosts(db: Db, uid: nat, id: nat, job: Job, now: int)
    requires NoGhost(db)
    ensures NoGhost(Enqueue(db, id, job, now).0) <==> GhostFree(db, uid, OpEnqueue(id, job), now)
  {
    if id in db.message { QueueGhosts(db, id, db.message[id].(status := SENDING, updatedAt := now), job, now); }
  }

  lemma FinalizeGhosts(db: Db, uid: nat, id: nat, content: string, thumb: int, payload: seq<Byte>, route: string,
    now: int)
    requires NoGhost(db)
    ensures
      NoGhost(Finalize(db, id, content, thumb, payload, route, now).0) <==>
      GhostFree(db, uid, OpFinalize(id, content, thumb, payload, route), now)
  {
    if id in db.message {
      QueueGhosts(db, id, Finalized(db.message[id], content, thumb, now),
                  Job("attachment", db.message[id].channel, payload, Some(route)), now);
    }
  }

  lemma SetLocalGhosts(db: Db, id: nat, local: nat, now: int)
    requires NoGhost(db)
    ensures NoGhost(SetLocal(db, id, local, now).0)
  {
    var t' := SetLocal(db, id, local, now).0.message;
    assert forall i :: i in t' ==> i in db.message && t'[i].status == db.message[i].status;
  }

  /** A step leaves no ghost exactly when its guard holds. */
  lemma NoGhostExactly(db: Db, uid: nat, op: Op, now: int)
    requires NoGhost(db)
    ensures NoGhost(Apply(db, uid, op, now)) <==> GhostFree(db, uid, op, now)
  {
    var db' := Apply(db, uid, op, now);
    match op
    case OpCreate(m, local) =>
    case OpCreateQueued(m, local, job) => CreateQueuedGhosts(db, m, local, job, now);
    case OpStore(inp, io) => StoreIoGhosts(db, uid, inp, now, io);
    case OpEnqueue(id, job) => EnqueueGhosts(db, uid, id, job, now);
    case OpFinalize(id, content, thumb, payload, route) =>
      FinalizeGhosts(db, uid, id, content, thumb, payload, route, now);
    case OpAck(id, server, seqNo) => if id in db.message { SettleGhosts(db, id, db'.message); }
    case OpMarkSent(id, server, seqNo) =>
    case OpBump(id, next) => BumpGhosts(db, id, next, now);
    case OpReject(id, status) => SettleGhosts(db, id, db'.message);
    case OpReconcile(id, server) => if Reconcile(db, id, server, now).1.Ok? { SettleGhosts(db, id, db'.message); }
    case OpDrop(id) => SettleGhosts(db, id, db.message);
    case OpSetStatus(id, status) =>
      if id in db.message { assert db'.message[id].status == status; }
    case OpSetLocal(id, local) => SetLocalGhosts(db, id, local, now);
    case OpDeleteLocal(id) =>
  }

  // ----- what each transaction leaves -----

  /** The message and its command are created together or not at all; with the schema in force only a
      missing or already queued local id prevents it. */
  lemma CreatedTogether(db: Db, m: NewMessage, local: nat, job: Job, now: int)
    requires Schema(db)
    ensures
      var (db', r) := CreateQueued(db, m, local, job, now);
      && (r.Ok? <==> local > 0 && local !in db.outbox)
      && (r.Err? ==> db' == db)
      && (r.Ok? ==>
            && r.value !in db.message && r.value in db'.message && db'.message - {r.value} == db.message
            && IsLocal(db'.message[r.value], m, local, now) && db'.message[r.value].status == 1 && r.value == db.nextId
            && local in db'.outbox && db'.outbox - {local} == db.outbox
            && IsNew(db'.outbox[local], r.value, job.kind, m.channel, job.payload, job.route, now)
            && db' == db.(message := db'.message, nextId := r.value + 1, outbox := db'.outbox,
                          nextCommand := db.nextCommand + 1)
            && db'.outbox[local].rowid == db.nextCommand)
      && (r.Err? ==> r.error == if local == 0 then MissingLocalMessageId(0) else Storage)
  {
    var (db', r) := CreateQueued(db, m, local, job, now);
    assert !HasCommand(db.outbox, db.nextId);
    if r.Ok? {
      assert db'.message - {r.value} == db.message;
      assert db'.outbox - {local} == db.outbox;
    }
  }

  /** A message as it is created here: no server id, no place in the timeline yet, sent now. */
  predicate IsLocal(row: Message, m: NewMessage, local: nat, now: int) {
    && row.server == None && row.local == local && row.channel == m.channel && row.channelType == m.channelType
    && row.from == m.from && row.body == m.body && row.mime == m.mime && row.pts == row.orderSeq == row.timestamp == 0
    && row.createdAt == row.updatedAt == now && row.precision == Milliseconds
    && row.mediaDownloaded == m.mediaDownloaded && row.thumbStatus == m.thumbStatus
  }

  /** A command as it enters the queue: never tried, due at once. */
  predicate IsNew(
    c: Command, id: nat, kind: string, channel: nat, payload: seq<Byte>, route: Option<string>, now: int)
  {
    && c.messageId == id && c.kind == kind && c.channel == channel && c.payload == payload && c.route == route
    && c.retries == 0 && c.nextAttempt == 0 && c.createdAt == c.updatedAt == now
  }

  /** A draft is the same row, not shown as sending and without a command. */
  lemma CreatedAlone(db: Db, m: NewMessage, local: nat, now: int)
    requires Schema(db)
    ensures
      var (db', r) := Create(db, m, local, now);
      && r.Ok? && r.value !in db.message && r.value in db'.message && db'.message - {r.value} == db.message
      && IsLocal(db'.message[r.value], m, local, now) && db'.message[r.value].status == 0 && r.value == db.nextId
      && db' == db.(message := db'.message, nextId := r.value + 1)
  {
    assert Create(db, m, local, now).0.message - {db.nextId} == db.message;
  }

  /** What queueing makes of the outbox: the message's command under its local id, new or renewed; refused
      exactly when the message has a command under another id only. */
  ghost predicate IsQueued(
    before: map<nat, Command>, next: nat, local: nat, id: nat, job: Job, now: int, after: map<nat, Command>)
  {
    && local in after && after - {local} == before - {local}
    && (local !in before ==>
          IsNew(after[local], id, job.kind, job.channel, job.payload, job.route, now) && after[local].rowid == next)
    && (local in before ==>
          after[local] ==
          before[local].(payload := job.payload, route := job.route, nextAttempt := 0, updatedAt := now))
  }

  lemma PutIsQueued(outbox: map<nat, Command>, next: nat, local: nat, id: nat, job: Job, now: int)
    ensures
      var put := PutCommand(outbox, next, local, id, job, now);
      && (put.None? <==> local !in outbox && HasCommand(outbox, id))
      && (put.Some? ==> IsQueued(outbox, next, local, id, job, now, put.value))
  {
    var put := PutCommand(outbox, next, local, id, job, now);
    if put.Some? { assert put.value - {local} == outbox - {local}; }
  }

  /** Enqueueing marks the row as sending and queues its command in one step, or says why not. */
  lemma EnqueueQueues(db: Db, id: nat, job: Job, now: int)
    ensures
      var (db', r) := Enqueue(db, id, job, now);
      && (id !in db.message || db.message[id].local == 0 ==> r == Err(MissingLocalMessageId(id)))
      && (id in db.message && db.message[id].local > 0 ==>
            && r == (if db.message[id].local !in db.outbox && HasCommand(db.outbox, id) then Err(Storage) else Ok(())))
      && (r.Err? ==> db' == db)
      && (r.Ok? ==>
            && db'.message == db.message[id := db.message[id].(status := 1, updatedAt := now)]
            && IsQueued(db.outbox, db.nextCommand, db.message[id].local, id, job, now, db'.outbox)
            && db' == db.(message := db'.message, outbox := db'.outbox, nextCommand := db.nextCommand + 1))
  {
    if id in db.message { PutIsQueued(db.outbox, db.nextCommand, db.message[id].local, id, job, now); }
  }

  /** An acknowledgement that commits leaves the one row holding the server's id, sent, ordered by the
      acknowledged sequence number, with its content and local id as they were and no command; rows
      under other ids and commands of other messages stay. */
  lemma AckSettles(db: Db, id: nat, server: nat, seqNo: nat, now: int)
    requires id in db.message
    ensures
      var (db', r) := Ack(db, id, server, seqNo, now);
      && r.Ok? && id in db'.message && !HasCommand(db'.outbox, id)
      && db'.message[id] ==
         db.message[id].(server := Some(server), status := 2, updatedAt := now, pts := seqNo, orderSeq := seqNo)
      && db' == db.(message := db'.message, outbox := db'.outbox)
      && (forall c :: c in db'.outbox <==> c in db.outbox && db.outbox[c].messageId != id)
      && (forall c :: c in db'.outbox ==> db'.outbox[c] == db.outbox[c])
      && MarkSent(db, id, server, seqNo, now) == (db.(message := db'.message), Ok(()))
      && (forall i :: i in db'.message && db'.message[i].server == Some(server) ==> i == id)
      && (forall i :: i in db.message && i != id && db.message[i].server != Some(server) ==>
            i in db'.message && db'.message[i] == db.message[i])
      && (forall i :: i != id ==> (HasCommand(db'.outbox, i) <==> HasCommand(db.outbox, i)))
  {
    forall i ensures HasCommand(WithoutCommands(db.outbox, id), i) <==> i != id && HasCommand(db.outbox, i) {
      WithoutCommandsKeepsOthers(db.outbox, id, i);
    }
  }

  /** Finalising an attachment writes its final content and queues it in one step; the command is the
      message's own unless it was displaced. */
  lemma FinalizeQueues(db: Db, id: nat, content: string, thumb: int, payload: seq<Byte>, route: string, now: int)
    ensures
      var (db', r) := Finalize(db, id, content, thumb, payload, route, now);
      && (r.Err? ==> db' == db)
      && (r.Ok? ==>
            && id in db.message && r.value == (db.message[id].channel, db.message[id].channelType)
            && db'.message == db.message[id := db'.message[id]]
            && db'.message[id] ==
               db.message[id].(body := db.message[id].body.(content := content), thumbStatus := thumb,
                               mediaDownloaded := true, status := 1, updatedAt := now)
            && IsQueued(db.outbox, db.nextCommand, db.message[id].local, id,
                        Job("attachment", db.message[id].channel, payload, Some(route)), now, db'.outbox)
            && db' == db.(message := db'.message, outbox := db'.outbox, nextCommand := db.nextCommand + 1)
            && (HasCommand(db'.outbox, id) <==> !Displaced(db, id)))
      && (r.Err? <==> id !in db.message || db.message[id].local == 0
                        || (db.message[id].local !in db.outbox && HasCommand(db.outbox, id)))
      && (r.Err? && id in db.message && db.message[id].local == 0 ==> r.error == MissingLocalMessageId(id))
  {
    if id in db.message {
      PutIsQueued(db.outbox, db.nextCommand, db.message[id].local, id,
                  Job("attachment", db.message[id].channel, payload, Some(route)), now);
      PutCommandGives(db.outbox, db.nextCommand, db.message[id].local, id,
                      Job("attachment", db.message[id].channel, payload, Some(route)), now);
    }
  }

  /** A rejection writes the status and takes the message's commands out of the queue. */
  lemma RejectWrites(db: Db, id: nat, status: int, now: int)
    ensures
      var db' := Reject(db, id, status, now);
      && db'.message.Keys == db.message.Keys
      && (forall i :: i in db.message ==>
            db'.message[i] == if i == id then db.message[i].(status := status, updatedAt := now) else db.message[i])
      && (forall c :: c in db'.outbox <==> c in db.outbox && db.outbox[c].messageId != id)
      && (forall c :: c in db'.outbox ==> db'.outbox[c] == db.outbox[c])
      && db' == db.(message := db'.message, outbox := db'.outbox)
  {
  }

  /** A reconciliation fails exactly when another row holds the server id; otherwise the row is sent under
      it, keeping its place in the timeline, and the message's commands are gone. */
  lemma ReconcileWrites(db: Db, id: nat, server: nat, now: int)
    requires server > 0
    ensures
      var (db', r) := Reconcile(db, id, server, now);
      && (r == Err(Storage) <==>
            id in db.message && exists i :: i in db.message && i != id && db.message[i].server == Some(server))
      && (r.Err? ==> r == Err(Storage) && db' == db)
      && (r.Ok? ==>
            && db'.message.Keys == db.message.Keys
            && (forall i :: i in db.message ==>
                  db'.message[i] ==
                  if i == id then db.message[i].(server := Some(server), status := 2, updatedAt := now)
                  else db.message[i])
            && (forall c :: c in db'.outbox <==> c in db.outbox && db.outbox[c].messageId != id)
            && (forall c :: c in db'.outbox ==> db'.outbox[c] == db.outbox[c])
            && db' == db.(message := db'.message, outbox := db'.outbox))
  {
  }

  /** A retry is counted and postponed; a dropped message's commands are gone; nothing else changes. */
  lemma BumpAndDropWrite(db: Db, id: nat, next: int, now: int)
    ensures
      var bumped, dropped := Bump(db, id, next, now), Drop(db, id);
      && bumped.outbox.Keys == db.outbox.Keys && bumped == db.(outbox := bumped.outbox)
      && (forall c :: c in db.outbox && db.outbox[c].messageId != id ==> bumped.outbox[c] == db.outbox[c])
      && (forall c :: c in db.outbox && db.outbox[c].messageId == id ==>
            bumped.outbox[c] ==
            db.outbox[c].(retries := db.outbox[c].retries + 1, nextAttempt := next, updatedAt := now))
      && dropped == db.(outbox := dropped.outbox)
      && (forall c :: c in dropped.outbox <==> c in db.outbox && db.outbox[c].messageId != id)
      && (forall c :: c in dropped.outbox ==> dropped.outbox[c] == db.outbox[c])
  {
  }

  /** Status, local id and deletion: one row each, or an error (deleting nothing is none); deletion takes the
      extra row along and leaves the commands. */
  lemma RowOperationsWrite(db: Db, id: nat, status: int, local: nat, now: int)
    ensures
      var (s, r1) := SetStatus(db, id, status, now);
      var (l, r2) := SetLocal(db, id, local, now);
      var d := DeleteLocal(db, id);
      && (r1.Ok? <==> id in db.message) && (r1.Err? ==> r1.error == Storage && s == db)
      && (r2.Ok? <==> id in db.message) && (r2.Err? ==> r2.error == Storage && l == db)
      && (r1.Ok? ==> s == db.(message := db.message[id := db.message[id].(status := status, updatedAt := now)]))
      && (r2.Ok? ==> l == db.(message := db.message[id := db.message[id].(local := local, updatedAt := now)]))
      && d.message.Keys == db.message.Keys - {id} && (forall i :: i in d.message ==> d.message[i] == db.message[i])
      && (forall i :: i in d.extra <==> i in db.extra && !(i == id && id in db.message))
      && (forall i :: i in d.extra ==> d.extra[i] == db.extra[i]) && d == db.(message := d.message, extra := d.extra)
  {
  }

  // ----- reachable stores -----

  datatype Step = Step(op: Op, now: int)

  const EMPTY: Db := Db(map[], 1, map[], map[], 1, map[], map[])

  function After(uid: nat, steps: seq<Step>): Db {
    if steps == [] then EMPTY
    else Apply(After(uid, steps[..|steps| - 1]), uid, steps[|steps| - 1].op, steps[|steps| - 1].now)
  }

  ghost predicate FreshRun(uid: nat, steps: seq<Step>) {
    steps == [] || (
      var init, last := steps[..|steps| - 1], steps[|steps| - 1];
      FreshRun(uid, init) && FreshIds(After(uid, init), uid, last.op))
  }

  /** Every step met its guard when it was taken. */
  ghost predicate GuardedRun(uid: nat, steps: seq<Step>) {
    steps == [] || (
      var init, last := steps[..|steps| - 1], steps[|steps| - 1];
      GuardedRun(uid, init) && GhostFree(After(uid, init), uid, last.op, last.now))
  }

  ghost predicate NeverGhost(uid: nat, steps: seq<Step>) {
    NoGhost(After(uid, steps)) && (steps != [] ==> NeverGhost(uid, steps[..|steps| - 1]))
  }

  /** In every reachable store messages keep their identity; and a run never shows a message as
      sending without a command exactly when each of its steps met its guard. */
  lemma {:induction false} ReachableStores(uid: nat, steps: seq<Step>)
    requires FreshRun(uid, steps)
    ensures Identity(After(uid, steps), uid)
    ensures NeverGhost(uid, steps) <==> GuardedRun(uid, steps)
  {
    if steps != [] {
      var init, last := steps[..|steps| - 1], steps[|steps| - 1];
      ReachableStores(uid, init);
      OpKeepsIdentity(After(uid, init), uid, last.op, last.now);
      if NeverGhost(uid, init) { NoGhostExactly(After(uid, init), uid, last.op, last.now); }
    }
  }
}
