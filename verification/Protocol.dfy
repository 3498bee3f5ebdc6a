/** Sending a message effectively once. The client's store, a server that is idempotent in the
    local message id, and a network that loses, repeats, delays and reorders. Every event works on
    the store through the same operations the rest of the project proves things about. */
module Protocol {
  import opened Tables
  import opened Canonical
  import opened Upsert
  import opened Outbox

  datatype Receipt = Receipt(sid: nat, seqNo: nat)
  datatype Request = Request(id: nat, local: nat)
  datatype Reply = Reply(id: nat, receipt: Receipt)

  /** `origin` maps the row of each created message to the local id it was created with, `birth` is
      its inverse; `issued` are the local ids given out here and `elsewhere` those under which own
      messages arrived that were not created here; `delivered` are the rows ever acknowledged, `acked`
      those of them that were not queued again since, `idle` those with nothing to send for now:
      attachments still being prepared, and messages the server rejected until the user sends them
      again. `requests`, `replies` and `refusals` hold everything
      that may still arrive, any number of times. */
  datatype Sys = Sys(
    db: Db, issued: set<nat>, elsewhere: set<nat>, origin: map<nat, nat>, birth: map<nat, nat>,
    server: map<nat, Receipt>, requests: set<Request>, replies: set<Reply>, refusals: set<nat>,
    delivered: set<nat>, acked: set<nat>, idle: set<nat>)

  datatype Event =
    | Create(m: NewMessage, local: nat, job: Job)
    | Draft(m: NewMessage, local: nat)
    | Finish(id: nat, content: string, thumbStatus: int, payload: seq<Byte>, route: string)
    | Send(id: nat, minted: nat)
    | Receive(req: Request, receipt: Receipt)
    | Refuse(req: Request)
    | AckArrives(reply: Reply)
    | RejectArrives(id: nat)
    | SendAgain(id: nat, job: Job)
    | Copy(local: nat, inp: Input, io: nat -> bool)
    | OtherCopy(inp: Input, io: nat -> bool)
    | Reconciled(id: nat)
    | Bumped(id: nat, next: int)
    | Lose(requests: set<Request>, replies: set<Reply>)

  /** The id a drain sends a row under: its own, or a newly minted one when it has none. */
  function SendId(db: Db, id: nat, minted: nat): nat
    requires id in db.message
  {
    if db.message[id].local > 0 then db.message[id].local else minted
  }

  /** Local ids are unique over all devices of the account. */
  predicate NewLocal(s: Sys, local: nat) { local > 0 && local !in s.issued && local !in s.elsewhere }

  ghost predicate Enabled(s: Sys, uid: nat, e: Event) {
    match e
    case Create(m, local, _) => m.from == uid && NewLocal(s, local)
    case Send(id, minted) => id in s.db.message && HasCommand(s.db.outbox, id) && NewLocal(s, minted)
    case Receive(req, receipt) =>
      && req in s.requests
      && (if req.local in s.server then receipt == s.server[req.local]
          else receipt.sid > 0 && forall l :: l in s.server ==> s.server[l].sid != receipt.sid)
    case Refuse(req) => req in s.requests && req.local !in s.server
    case AckArrives(reply) => reply in s.replies
    case RejectArrives(id) => id in s.refusals && HasCommand(s.db.outbox, id)
    case SendAgain(id, _) => id in s.origin
    case Draft(m, local) => m.from == uid && NewLocal(s, local)
    case Finish(id, _, _, _, _) => id in s.origin
    case Copy(local, inp, _) =>
      && local in s.server && inp.server == s.server[local].sid && inp.from == uid
      && (inp.local == local || inp.local == 0)
    case OtherCopy(inp, _) =>
      && (forall l :: l in s.server ==> s.server[l].sid != inp.server)
      && Locals(uid, inp) !! s.issued
    case Reconciled(id) => id in s.db.message && HasCommand(s.db.outbox, id) && s.db.message[id].server.Some?
    case Bumped(id, _) => true
    case Lose(requests, replies) => requests <= s.requests && replies <= s.replies
  }

  function Acknowledged(s: Sys, db: Db, id: nat): Sys {
    s.(db := db, delivered := s.delivered + {id}, acked := s.acked + {id}, idle := s.idle - {id})
  }

  function Queued(s: Sys, db: Db, id: nat): Sys { s.(db := db, acked := s.acked - {id}, idle := s.idle - {id}) }

  function Next(s: Sys, uid: nat, e: Event, now: int): Sys {
    match e
    case Create(m, local, job) =>
      var (db', r) := CreateQueued(s.db, m, local, job, now);
      if r.Err? then s
      else
        s.(db := db', issued := s.issued + {local}, origin := s.origin[r.value := local],
           birth := s.birth[local := r.value])
    case Send(id, minted) =>
      if id !in s.db.message then s
      else
        var local := SendId(s.db, id, minted);
        s.(db := if s.db.message[id].local > 0 then s.db else SetLocal(s.db, id, minted, now).0,
           issued := s.issued + {local}, requests := s.requests + {Request(id, local)})
    case Receive(req, receipt) =>
      s.(server := s.server[req.local := receipt], replies := s.replies + {Reply(req.id, receipt)})
    case Refuse(req) => s.(refusals := s.refusals + {req.id})
    case AckArrives(Reply(id, receipt)) =>
      var (db', r) := Ack(s.db, id, receipt.sid, receipt.seqNo, now);
      if r.Ok? then Acknowledged(s, db', id) else s
    case RejectArrives(id) => s.(db := Reject(s.db, id, FAILED, now), idle := s.idle + {id})
    case SendAgain(id, job) =>
      var (db', r) := Enqueue(s.db, id, job, now);
      if r.Ok? then Queued(s, db', id) else s
    case Draft(m, local) =>
      var (db', r) := Outbox.Create(s.db, m, local, now);
      if r.Err? then s
      else
        s.(db := db', issued := s.issued + {local}, origin := s.origin[r.value := local],
           birth := s.birth[local := r.value], idle := s.idle + {r.value})
    case Finish(id, content, thumbStatus, payload, route) =>
      var (db', r) := Finalize(s.db, id, content, thumbStatus, payload, route, now);
      if r.Ok? then Queued(s, db', id) else s
    case Copy(_, inp, io) => s.(db := StoreIo(s.db, Some(uid), inp, now, io).0)
    case OtherCopy(inp, io) =>
      s.(db := StoreIo(s.db, Some(uid), inp, now, io).0, elsewhere := s.elsewhere + Locals(uid, inp))
    case Reconciled(id) =>
      if id !in s.db.message || s.db.message[id].server.None? then s
      else
        var (db', r) := Reconcile(s.db, id, s.db.message[id].server.value, now);
        if r.Ok? then Acknowledged(s, db', id) else s
    case Bumped(id, next) => s.(db := Bump(s.db, id, next, now))
    case Lose(requests, replies) => s.(requests := requests, replies := replies)
  }

  /** The local id under which an own message may be looked up from now on. */
  function Locals(uid: nat, inp: Input): set<nat> { if SeeksOwn(Some(uid), inp) then {inp.local} else {} }

  // ----- invariant -----

  /** `birth` is the inverse of `origin`. */
  ghost predicate OriginOk(origin: map<nat, nat>, birth: map<nat, nat>, issued: set<nat>, message: map<nat, Message>) {
    && (forall i :: i in origin ==> i in message && origin[i] in birth && birth[origin[i]] == i)
    && (forall l :: l in birth ==> l > 0 && l in issued && birth[l] in origin && origin[birth[l]] == l)
  }

  /** A created row goes by its local id, unless it holds the server's id and the local id is gone. */
  predicate RowOk(r: Message, local: nat, server: map<nat, Receipt>, uid: nat) {
    && r.from == uid && (r.local == local || (r.local == 0 && r.server.Some?))
    && (r.server.Some? ==> local in server && r.server == Some(server[local].sid))
  }

  /** A row that an echo of a message created here is never merged into. */
  predicate NotCreated(r: Message, elsewhere: set<nat>, uid: nat) {
    r.from != uid || r.local == 0 || r.local in elsewhere
  }

  ghost predicate RowsOk(
    message: map<nat, Message>, origin: map<nat, nat>, elsewhere: set<nat>, server: map<nat, Receipt>, uid: nat)
  {
    && (forall i :: i in origin ==> i in message && RowOk(message[i], origin[i], server, uid))
    && (forall j :: j in message && j !in origin ==> NotCreated(message[j], elsewhere, uid))
  }

  /** The queue holds exactly the commands of the created messages not yet settled. */
  ghost predicate QueueOk(outbox: map<nat, Command>, origin: map<nat, nat>, birth: map<nat, nat>, settled: set<nat>) {
    && (forall c :: c in outbox ==> c in birth && outbox[c].messageId == birth[c] && birth[c] !in settled)
    && (forall i :: i in origin && i !in settled ==> origin[i] in outbox)
  }

  /** A message not yet settled still goes by the local id it was created with. */
  ghost predicate PendingOk(message: map<nat, Message>, origin: map<nat, nat>, settled: set<nat>) {
    forall i :: i in origin && i in message && i !in settled ==> message[i].local == origin[i]
  }

  ghost predicate ServerOk(server: map<nat, Receipt>, birth: map<nat, nat>) {
    && (forall l :: l in server ==> l in birth && server[l].sid > 0)
    && (forall l, k :: l in server && k in server && l != k ==> server[l].sid != server[k].sid)
  }

  ghost predicate NetOk(requests: set<Request>, replies: set<Reply>, origin: map<nat, nat>, server: map<nat, Receipt>) {
    && (forall q :: q in requests ==> q.id in origin && q.local == origin[q.id])
    && (forall a :: a in replies ==> a.id in origin && origin[a.id] in server && server[origin[a.id]] == a.receipt)
  }

  /** The row holds the id the server gave the message. */
  predicate Confirmed(message: map<nat, Message>, origin: map<nat, nat>, server: map<nat, Receipt>, id: nat) {
    id in origin && id in message && origin[id] in server && message[id].server == Some(server[origin[id]].sid)
  }

  ghost predicate SettledOk(s: Sys) {
    && (forall i :: i in s.delivered ==> Confirmed(s.db.message, s.origin, s.server, i))
    && s.acked <= s.delivered && s.idle <= s.origin.Keys && s.acked !! s.idle
  }

  ghost predicate Inv(s: Sys, uid: nat) {
    && Identity(s.db, uid)
    && ClientOk(s, uid)
    && ServerOk(s.server, s.birth)
    && NetOk(s.requests, s.replies, s.origin, s.server)
  }

  ghost predicate ClientOk(s: Sys, uid: nat) {
    && s.issued !! s.elsewhere
    && OriginOk(s.origin, s.birth, s.issued, s.db.message)
    && RowsOk(s.db.message, s.origin, s.elsewhere, s.server, uid)
    && QueueOk(s.db.outbox, s.origin, s.birth, s.acked + s.idle)
    && PendingOk(s.db.message, s.origin, s.acked + s.idle)
    && SettledOk(s)
  }

  // ----- every event keeps the invariant -----

  /** A copy of an own message may overwrite the local id of any row but one that is still queued. */
  ghost predicate CopySafe(s: Sys, uid: nat, inp: Input, io: nat -> bool, now: int) {
    inp.local > 0 || !Writes(s.db, Some(uid), inp, io) || !HasCommand(s.db.outbox, Placed(s.db, Some(uid), inp, now).0)
  }

  ghost predicate Safe(s: Sys, uid: nat, e: Event, now: int) {
    e.Copy? ==> CopySafe(s, uid, e.inp, e.io, now)
  }

  predicate Settled(s: Sys, id: nat) { id in s.acked + s.idle }

  lemma QueuedBy(s: Sys, uid: nat, id: nat)
    requires Inv(s, uid)
    ensures HasCommand(s.db.outbox, id) <==> id in s.origin && !Settled(s, id)
  {
    if id in s.origin && !Settled(s, id) { assert s.db.outbox[s.origin[id]].messageId == id; }
  }

  lemma CreateKeepsTables(
    t: map<nat, Message>, origin: map<nat, nat>, birth: map<nat, nat>, issued: set<nat>,
    elsewhere: set<nat>, server: map<nat, Receipt>, settled: set<nat>, uid: nat, id: nat, row: Message, local: nat)
    requires OriginOk(origin, birth, issued, t) && RowsOk(t, origin, elsewhere, server, uid)
      && PendingOk(t, origin, settled)
    requires id !in t && local > 0 && local !in issued
    requires row.server == None && row.from == uid && row.local == local
    ensures local !in birth && id !in origin
    ensures OriginOk(origin[id := local], birth[local := id], issued + {local}, t[id := row])
    ensures RowsOk(t[id := row], origin[id := local], elsewhere, server, uid)
    ensures PendingOk(t[id := row], origin[id := local], settled)
  {
  }

  lemma CreateKeepsQueue(outbox: map<nat, Command>, origin: map<nat, nat>, birth: map<nat, nat>, settled: set<nat>,
    id: nat, local: nat, c: Command)
    requires QueueOk(outbox, origin, birth, settled) && forall l :: l in birth ==> birth[l] in origin
    requires id !in settled && id !in origin && local !in birth && c.messageId == id
    ensures local !in outbox && !HasCommand(outbox, id)
    ensures QueueOk(outbox[local := c], origin[id := local], birth[local := id], settled)
    ensures QueueOk(outbox, origin[id := local], birth[local := id], settled + {id})
  {
  }

  lemma CreateKeepsNet(s: Sys, id: nat, row: Message, local: nat)
    requires NetOk(s.requests, s.replies, s.origin, s.server) && ServerOk(s.server, s.birth) && SettledOk(s)
    requires id !in s.origin && local !in s.birth && id !in s.db.message
    ensures NetOk(s.requests, s.replies, s.origin[id := local], s.server)
    ensures ServerOk(s.server, s.birth[local := id])
    ensures forall i :: i in s.delivered ==> Confirmed(s.db.message[id := row], s.origin[id := local], s.server, i)
    ensures s.idle <= s.origin[id := local].Keys
  {
    forall i | i in s.delivered ensures Confirmed(s.db.message[id := row], s.origin[id := local], s.server, i) {
      assert Confirmed(s.db.message, s.origin, s.server, i);
    }
  }

  lemma SettledAreCreated(s: Sys)
    requires SettledOk(s)
    ensures forall i :: Settled(s, i) ==> i in s.origin
  {
    forall i | Settled(s, i) ensures i in s.origin {
      if i in s.acked { assert Confirmed(s.db.message, s.origin, s.server, i); }
    }
  }

  /** A new row under a fresh local id, whether its command comes with it or later. */
  lemma NewRowKeeps(s: Sys, uid: nat, row: Message, local: nat, c: Command)
    requires Inv(s, uid) && NewLocal(s, local) && c.messageId == s.db.nextId
    requires row.server == None && row.from == uid && row.local == local
    ensures
      var id := s.db.nextId;
      var s' := s.(issued := s.issued + {local}, origin := s.origin[id := local], birth := s.birth[local := id]);
      var t' := s.db.message[id := row];
      && local !in s.db.outbox && !HasCommand(s.db.outbox, id)
      && ClientOk(s'.(db := s.db.(message := t', outbox := s.db.outbox[local := c])), uid)
      && ClientOk(s'.(db := s.db.(message := t'), idle := s.idle + {id}), uid)
      && ServerOk(s.server, s'.birth) && NetOk(s.requests, s.replies, s'.origin, s.server)
  {
    var id := s.db.nextId;
    SettledAreCreated(s);
    var settled := s.acked + s.idle;
    CreateKeepsTables(s.db.message, s.origin, s.birth, s.issued, s.elsewhere, s.server, settled, uid, id, row, local);
    CreateKeepsQueue(s.db.outbox, s.origin, s.birth, settled, id, local, c);
    CreateKeepsNet(s, id, row, local);
    assert s.acked + (s.idle + {id}) == settled + {id};
  }

  lemma FreshIsOwnFresh(s: Sys, uid: nat, m: NewMessage, local: nat)
    requires Inv(s, uid) && NewLocal(s, local)
    ensures OwnFresh(s.db, uid, m, local)
  {
    forall i | i in s.db.message && s.db.message[i].from == uid ensures s.db.message[i].local != local {
      if i in s.origin { assert RowOk(s.db.message[i], s.origin[i], s.server, uid); }
    }
  }

  lemma CreateKeeps(s: Sys, uid: nat, m: NewMessage, local: nat, job: Job, now: int)
    requires Inv(s, uid) && Enabled(s, uid, Create(m, local, job))
    ensures Inv(Next(s, uid, Create(m, local, job), now), uid)
    ensures CreateQueued(s.db, m, local, job, now).1 == Ok(s.db.nextId)
  {
    var c := NewCommand(s.db.nextCommand, s.db.nextId, job.(channel := m.channel), now);
    NewRowKeeps(s, uid, LocalRow(m, local, SENDING, now), local, c);
    FreshIsOwnFresh(s, uid, m, local);
    CreateQueuedKeepsIdentity(s.db, uid, m, local, job, now);
  }

  lemma DraftKeeps(s: Sys, uid: nat, m: NewMessage, local: nat, now: int)
    requires Inv(s, uid) && Enabled(s, uid, Draft(m, local))
    ensures Inv(Next(s, uid, Draft(m, local), now), uid)
  {
    var c := NewCommand(s.db.nextCommand, s.db.nextId, Job("", m.channel, [], None), now);
    NewRowKeeps(s, uid, LocalRow(m, local, 0, now), local, c);
    FreshIsOwnFresh(s, uid, m, local);
    CreateKeepsIdentity(s.db, uid, m, local, now);
  }

  lemma SendKeeps(s: Sys, uid: nat, id: nat, minted: nat, now: int)
    requires Inv(s, uid) && Enabled(s, uid, Send(id, minted))
    ensures Inv(Next(s, uid, Send(id, minted), now), uid)
    ensures SendId(s.db, id, minted) == s.origin[id]
  {
    QueuedBy(s, uid, id);
    assert s.db.message[id].local == s.origin[id] && s.origin[id] in s.birth;
    var s' := Next(s, uid, Send(id, minted), now);
    assert s'.db == s.db && s'.issued == s.issued;
  }

  lemma ReceiveKeepsTables(
    t: map<nat, Message>, origin: map<nat, nat>, birth: map<nat, nat>, elsewhere: set<nat>, server: map<nat, Receipt>,
    requests: set<Request>, replies: set<Reply>, uid: nat, q: Request, receipt: Receipt)
    requires RowsOk(t, origin, elsewhere, server, uid) && ServerOk(server, birth)
      && NetOk(requests, replies, origin, server)
    requires q in requests && q.local in birth
    requires
      if q.local in server then receipt == server[q.local]
      else receipt.sid > 0 && forall l :: l in server ==> server[l].sid != receipt.sid
    ensures
      var server' := server[q.local := receipt];
      && RowsOk(t, origin, elsewhere, server', uid) && ServerOk(server', birth)
      && NetOk(requests, replies + {Reply(q.id, receipt)}, origin, server')
      && (forall i :: Confirmed(t, origin, server, i) ==> Confirmed(t, origin, server', i))
  {
  }

  lemma ReceiveKeeps(s: Sys, uid: nat, req: Request, receipt: Receipt, now: int)
    requires Inv(s, uid) && Enabled(s, uid, Receive(req, receipt))
    ensures Inv(Next(s, uid, Receive(req, receipt), now), uid)
  {
    assert s.origin[req.id] == req.local;
    ReceiveKeepsTables(s.db.message, s.origin, s.birth, s.elsewhere, s.server, s.requests, s.replies, uid, req,
      receipt);
  }

  lemma RefuseKeeps(s: Sys, uid: nat, req: Request, now: int)
    requires Inv(s, uid) && Enabled(s, uid, Refuse(req))
    ensures Inv(Next(s, uid, Refuse(req), now), uid)
  {
    assert s.origin[req.id] == req.local;
  }

  lemma LoseKeeps(s: Sys, uid: nat, requests: set<Request>, replies: set<Reply>, now: int)
    requires Inv(s, uid) && Enabled(s, uid, Lose(requests, replies))
    ensures Inv(Next(s, uid, Lose(requests, replies), now), uid)
  {
  }

  lemma SettleKeepsQueue(outbox: map<nat, Command>, origin: map<nat, nat>, birth: map<nat, nat>, settled: set<nat>,
    id: nat)
    requires QueueOk(outbox, origin, birth, settled) && id in origin
    requires forall i :: i in origin ==> origin[i] in birth && birth[origin[i]] == i
    ensures QueueOk(WithoutCommands(outbox, id), origin, birth, settled + {id})
  {
    forall i | i in origin && i !in settled + {id} ensures origin[i] in WithoutCommands(outbox, id) {
      assert origin[i] in outbox && outbox[origin[i]].messageId == birth[origin[i]] == i;
    }
  }

  lemma SettleKeepsRows(
    t: map<nat, Message>, t': map<nat, Message>, origin: map<nat, nat>, birth: map<nat, nat>, issued: set<nat>,
    elsewhere: set<nat>, server: map<nat, Receipt>, settled: set<nat>, uid: nat, id: nat)
    requires OriginOk(origin, birth, issued, t) && RowsOk(t, origin, elsewhere, server, uid)
      && PendingOk(t, origin, settled)
    requires OthersStay(t, t', origin, id)
    requires id in t' && RowOk(t'[id], origin[id], server, uid)
    ensures OriginOk(origin, birth, issued, t') && RowsOk(t', origin, elsewhere, server, uid)
      && PendingOk(t', origin, settled + {id})
  {
  }

  /** Created rows other than `id` stay; no row that is not a created one appears. */
  ghost predicate OthersStay(t: map<nat, Message>, t': map<nat, Message>, origin: map<nat, nat>, id: nat) {
    && id in origin
    && (forall i :: i in origin && i != id ==> i in t' && i in t && t'[i] == t[i])
    && (forall j :: j in t' && j !in origin ==> j in t && t'[j] == t[j])
  }

  lemma SettleKeepsSettled(s: Sys, id: nat, t': map<nat, Message>)
    requires SettledOk(s) && OthersStay(s.db.message, t', s.origin, id)
    requires Confirmed(t', s.origin, s.server, id) || id !in s.delivered
    ensures forall i :: i in s.delivered ==> Confirmed(t', s.origin, s.server, i)
  {
    forall i | i in s.delivered && i != id ensures Confirmed(t', s.origin, s.server, i) {
      assert Confirmed(s.db.message, s.origin, s.server, i);
    }
  }

  /** Settling a message: its command goes, other created rows stay as they are. */
  lemma SettleKeeps(s: Sys, uid: nat, id: nat, db': Db, ok: bool)
    requires ClientOk(s, uid)
    requires db'.outbox == WithoutCommands(s.db.outbox, id)
    requires OthersStay(s.db.message, db'.message, s.origin, id)
    requires id in db'.message && RowOk(db'.message[id], s.origin[id], s.server, uid)
    requires ok || id in s.delivered ==> Confirmed(db'.message, s.origin, s.server, id)
    requires !ok ==> id !in s.acked
    ensures ClientOk(if ok then Acknowledged(s, db', id) else s.(db := db', idle := s.idle + {id}), uid)
  {
    SettleKeepsQueue(s.db.outbox, s.origin, s.birth, s.acked + s.idle, id);
    SettleKeepsRows(s.db.message, db'.message, s.origin, s.birth, s.issued, s.elsewhere, s.server,
                    s.acked + s.idle, uid, id);
    SettleKeepsSettled(s, id, db'.message);
    var s' := if ok then Acknowledged(s, db', id) else s.(db := db', idle := s.idle + {id});
    assert s'.acked + s'.idle == s.acked + s.idle + {id};
  }

  lemma OtherRowsHoldOtherIds(s: Sys, uid: nat, local: nat)
    requires RowsOk(s.db.message, s.origin, s.elsewhere, s.server, uid) && ServerOk(s.server, s.birth)
      && local in s.server
    requires OriginOk(s.origin, s.birth, s.issued, s.db.message)
    ensures forall i :: i in s.origin && s.db.message[i].server == Some(s.server[local].sid) ==> i == s.birth[local]
  {
    forall i | i in s.origin && s.db.message[i].server == Some(s.server[local].sid) ensures i == s.birth[local] {
      assert RowOk(s.db.message[i], s.origin[i], s.server, uid);
    }
  }

  lemma AckedRow(s: Sys, uid: nat, id: nat, now: int)
    requires ClientOk(s, uid) && ServerOk(s.server, s.birth) && id in s.origin && s.origin[id] in s.server
    ensures
      var receipt := s.server[s.origin[id]];
      var (db', r) := Ack(s.db, id, receipt.sid, receipt.seqNo, now);
      && r.Ok? && db'.outbox == WithoutCommands(s.db.outbox, id)
      && OthersStay(s.db.message, db'.message, s.origin, id)
      && Confirmed(db'.message, s.origin, s.server, id) && RowOk(db'.message[id], s.origin[id], s.server, uid)
  {
    OtherRowsHoldOtherIds(s, uid, s.origin[id]);
    assert RowOk(s.db.message[id], s.origin[id], s.server, uid);
  }

  lemma AckKeeps(s: Sys, uid: nat, reply: Reply, now: int)
    requires Inv(s, uid) && Enabled(s, uid, AckArrives(reply))
    ensures Inv(Next(s, uid, AckArrives(reply), now), uid)
  {
    AckedRow(s, uid, reply.id, now);
    AckKeepsIdentity(s.db, uid, reply.id, reply.receipt.sid, reply.receipt.seqNo, now);
    SettleKeeps(s, uid, reply.id, Ack(s.db, reply.id, reply.receipt.sid, reply.receipt.seqNo, now).0, true);
  }

  lemma RejectedRow(s: Sys, uid: nat, id: nat, now: int)
    requires ClientOk(s, uid) && id in s.origin
    ensures
      var db' := Reject(s.db, id, FAILED, now);
      && db'.outbox == WithoutCommands(s.db.outbox, id) && OthersStay(s.db.message, db'.message, s.origin, id)
      && id in db'.message && RowOk(db'.message[id], s.origin[id], s.server, uid)
  {
    assert RowOk(s.db.message[id], s.origin[id], s.server, uid);
  }

  lemma RejectKeeps(s: Sys, uid: nat, id: nat, now: int)
    requires Inv(s, uid) && Enabled(s, uid, RejectArrives(id))
    ensures Inv(Next(s, uid, RejectArrives(id), now), uid)
  {
    QueuedBy(s, uid, id);
    RejectedRow(s, uid, id, now);
    RejectKeepsIdentity(s.db, uid, id, FAILED, now);
    SettleKeeps(s, uid, id, Reject(s.db, id, FAILED, now), false);
  }

  lemma ReconciledRow(s: Sys, uid: nat, id: nat, now: int)
    requires Inv(s, uid) && id in s.origin && id in s.db.message && s.db.message[id].server.Some?
    ensures
      var (db', r) := Reconcile(s.db, id, s.db.message[id].server.value, now);
      && r.Ok? && db'.outbox == WithoutCommands(s.db.outbox, id) && s.db.message[id].server.value > 0
      && OthersStay(s.db.message, db'.message, s.origin, id)
      && Confirmed(db'.message, s.origin, s.server, id) && RowOk(db'.message[id], s.origin[id], s.server, uid)
  {
    var row := s.db.message[id];
    assert RowOk(row, s.origin[id], s.server, uid);
    assert row.(server := row.server, status := SENT, updatedAt := now) == row.(status := SENT, updatedAt := now);
  }

  lemma ReconcileKeeps(s: Sys, uid: nat, id: nat, now: int)
    requires Inv(s, uid) && Enabled(s, uid, Reconciled(id))
    ensures Inv(Next(s, uid, Reconciled(id), now), uid)
    ensures Reconcile(s.db, id, s.db.message[id].server.value, now).1.Ok?
  {
    QueuedBy(s, uid, id);
    var sid := s.db.message[id].server.value;
    ReconciledRow(s, uid, id, now);
    ReconcileKeepsIdentity(s.db, uid, id, sid, now);
    SettleKeeps(s, uid, id, Reconcile(s.db, id, sid, now).0, true);
  }

  lemma QueuedKeepsQueue(outbox: map<nat, Command>, origin: map<nat, nat>, birth: map<nat, nat>, settled: set<nat>,
    id: nat, c: Command)
    requires QueueOk(outbox, origin, birth, settled) && id in origin && c.messageId == id
    requires forall i :: i in origin ==> origin[i] in birth && birth[origin[i]] == i
    ensures QueueOk(outbox[origin[id] := c], origin, birth, settled - {id})
  {
  }

  lemma QueuedKeepsRows(s: Sys, uid: nat, id: nat, row: Message)
    requires ClientOk(s, uid) && id in s.origin
    requires RowOk(row, s.origin[id], s.server, uid) && row.local == s.origin[id]
    requires row.server == s.db.message[id].server
    ensures
      var t' := s.db.message[id := row];
      && OriginOk(s.origin, s.birth, s.issued, t') && RowsOk(t', s.origin, s.elsewhere, s.server, uid)
      && PendingOk(t', s.origin, s.acked + s.idle - {id})
      && (forall i :: i in s.delivered ==> Confirmed(t', s.origin, s.server, i))
  {
    forall i | i in s.delivered ensures Confirmed(s.db.message[id := row], s.origin, s.server, i) {
      assert Confirmed(s.db.message, s.origin, s.server, i);
    }
  }

  /** A created message always gets its command, under the local id it was created
      with: a new one, or the one it has, renewed. */
  lemma CommandIsPut(outbox: map<nat, Command>, next: nat, origin: map<nat, nat>, birth: map<nat, nat>,
    settled: set<nat>, id: nat, job: Job, now: int)
    requires QueueOk(outbox, origin, birth, settled) && id in origin
    requires forall i :: i in origin ==> origin[i] in birth && birth[origin[i]] == i
    requires forall l :: l in birth ==> birth[l] in origin && origin[birth[l]] == l
    ensures
      var local := origin[id];
      var put := PutCommand(outbox, next, local, id, job, now);
      && put.Some? && local in put.value && put.value[local].messageId == id
      && put.value == outbox[local := put.value[local]]
  {
    var local := origin[id];
    if local !in outbox { assert !HasCommand(outbox, id); }
  }

  /** Queueing a created message, in whatever row content, keeps the client's side in order. */
  lemma QueuedKeeps(s: Sys, uid: nat, id: nat, row: Message, job: Job, now: int)
    requires ClientOk(s, uid) && id in s.origin && row.local > 0
    requires row.local == s.db.message[id].local && row.server == s.db.message[id].server
      && row.from == s.db.message[id].from
    ensures
      var queued := Queue(s.db, id, row, job, now);
      queued.Some? && ClientOk(Queued(s, queued.value, id), uid)
  {
    assert RowOk(s.db.message[id], s.origin[id], s.server, uid);
    var settled, local := s.acked + s.idle, s.origin[id];
    CommandIsPut(s.db.outbox, s.db.nextCommand, s.origin, s.birth, settled, id, job, now);
    var put := PutCommand(s.db.outbox, s.db.nextCommand, local, id, job, now).value;
    QueuedKeepsQueue(s.db.outbox, s.origin, s.birth, settled, id, put[local]);
    assert settled - {id} == (s.acked - {id}) + (s.idle - {id});
    QueuedKeepsRows(s, uid, id, row);
  }

  lemma SendAgainKeeps(s: Sys, uid: nat, id: nat, job: Job, now: int)
    requires Inv(s, uid) && Enabled(s, uid, SendAgain(id, job))
    ensures Inv(Next(s, uid, SendAgain(id, job), now), uid)
  {
    EnqueueKeepsIdentity(s.db, uid, id, job, now);
    if s.db.message[id].local > 0 {
      QueuedKeeps(s, uid, id, s.db.message[id].(status := SENDING, updatedAt := now), job, now);
    }
  }

  lemma FinishKeeps(s: Sys, uid: nat, id: nat, content: string, thumb: int, payload: seq<Byte>, route: string, now: int)
    requires Inv(s, uid) && Enabled(s, uid, Finish(id, content, thumb, payload, route))
    ensures Inv(Next(s, uid, Finish(id, content, thumb, payload, route), now), uid)
  {
    FinalizeKeepsIdentity(s.db, uid, id, content, thumb, payload, route, now);
    if s.db.message[id].local > 0 {
      QueuedKeeps(s, uid, id, Finalized(s.db.message[id], content, thumb, now),
                  Job("attachment", s.db.message[id].channel, payload, Some(route)), now);
    }
  }

  lemma BumpKeepsQueue(db: Db, origin: map<nat, nat>, birth: map<nat, nat>, settled: set<nat>, id: nat, next: int,
    now: int)
    requires QueueOk(db.outbox, origin, birth, settled)
    ensures QueueOk(Bump(db, id, next, now).outbox, origin, birth, settled)
  {
  }

  lemma BumpKeeps(s: Sys, uid: nat, id: nat, next: int, now: int)
    requires Inv(s, uid)
    ensures Inv(Next(s, uid, Bumped(id, next), now), uid)
  {
    BumpKeepsIdentity(s.db, uid, id, next, now);
    BumpKeepsQueue(s.db, s.origin, s.birth, s.acked + s.idle, id, next, now);
  }

  /** The invariant on a store that holds the same rows and queue. */
  lemma SameRowsKeep(s: Sys, uid: nat, db': Db)
    requires Inv(s, uid) && Identity(db', uid) && db'.message == s.db.message && db'.outbox == s.db.outbox
    ensures Inv(s.(db := db'), uid)
  {
    var s' := s.(db := db');
    forall i | i in s.delivered ensures Confirmed(s'.db.message, s.origin, s.server, i) {
      assert Confirmed(s.db.message, s.origin, s.server, i);
    }
  }

  /** Storing into a row that is not a created one, or into a created one with its identity kept. */
  lemma StoreKeeps(s: Sys, uid: nat, inp: Input, now: int, id: nat, row: Message)
    requires Inv(s, uid) && Accepted(s.db, Some(uid), inp) && (id, row) == Placed(s.db, Some(uid), inp, now)
    requires OnlyCreatedHolder(s, inp, id) && Fits(s, uid, id, row)
    ensures Inv(s.(db := Store(s.db, Some(uid), inp, now).0), uid)
  {
    StoreKeepsIdentity(s.db, uid, inp, now);
    StoredKeepsRows(s.db.message, s.origin, s.birth, s.issued, s.elsewhere, s.server, s.delivered, s.acked + s.idle,
                    uid, id, row, inp.server);
  }

  /** No created row but perhaps `id` holds the server id. */
  ghost predicate OnlyCreatedHolder(s: Sys, inp: Input, id: nat) {
    forall j :: j in s.origin && j in s.db.message && s.db.message[j].server == Some(inp.server) ==> j == id
  }

  /** The row may stand at `id`. */
  ghost predicate Fits(s: Sys, uid: nat, id: nat, row: Message) {
    && (id in s.origin ==> RowOk(row, s.origin[id], s.server, uid))
    && (id in s.origin && !Settled(s, id) ==> row.local == s.origin[id])
    && (id !in s.origin ==> NotCreated(row, s.elsewhere, uid))
  }

  /** An upsert that stops before it writes may have deleted a duplicate, which is no created row. */
  lemma UnwrittenKeeps(s: Sys, uid: nat, inp: Input, now: int, io: nat -> bool)
    requires Inv(s, uid) && !Writes(s.db, Some(uid), inp, io)
    requires Accepted(s.db, Some(uid), inp) ==> OnlyCreatedHolder(s, inp, Placed(s.db, Some(uid), inp, now).0)
    ensures Inv(s.(db := StoreIo(s.db, Some(uid), inp, now, io).0), uid)
  {
    StoreIoExactly(s.db, Some(uid), inp, now, io);
    StoreIoKeepsIdentity(s.db, uid, inp, now, io);
    var db' := StoreIo(s.db, Some(uid), inp, now, io).0;
    if LosesDuplicate(s.db, Some(uid), inp, io) {
      var gone := FindServer(s.db.message, inp.server).value;
      assert gone !in s.origin;
      FewerRowsKeep(s, uid, gone);
      assert db' == s.db.(message := s.db.message - {gone});
    } else {
      SameRowsKeep(s, uid, db');
    }
  }

  lemma FewerRowsKeep(s: Sys, uid: nat, gone: nat)
    requires Inv(s, uid) && gone !in s.origin && Identity(s.db.(message := s.db.message - {gone}), uid)
    ensures Inv(s.(db := s.db.(message := s.db.message - {gone})), uid)
  {
    var t' := s.db.message - {gone};
    assert forall i :: i in s.origin ==> i in t' && t'[i] == s.db.message[i];
    forall i | i in s.delivered ensures Confirmed(t', s.origin, s.server, i) {
      assert Confirmed(s.db.message, s.origin, s.server, i);
    }
  }

  /** The same with an engine that may fail. */
  lemma StoreIoKeeps(s: Sys, uid: nat, inp: Input, now: int, io: nat -> bool)
    requires Inv(s, uid)
    requires
      Accepted(s.db, Some(uid), inp) ==>
        var (id, row) := Placed(s.db, Some(uid), inp, now);
        OnlyCreatedHolder(s, inp, id) && (Writes(s.db, Some(uid), inp, io) ==> Fits(s, uid, id, row))
    ensures Inv(s.(db := StoreIo(s.db, Some(uid), inp, now, io).0), uid)
  {
    if Writes(s.db, Some(uid), inp, io) {
      var (id, row) := Placed(s.db, Some(uid), inp, now);
      var stored := Store(s.db, Some(uid), inp, now).0;
      StoreKeeps(s, uid, inp, now, id, row);
      StoreIoRows(s.db, Some(uid), inp, now, io);
      StoreIoKeepsIdentity(s.db, uid, inp, now, io);
      SameRowsKeep(s.(db := stored), uid, StoreIo(s.db, Some(uid), inp, now, io).0);
    } else {
      UnwrittenKeeps(s, uid, inp, now, io);
    }
  }

  lemma StoredKeepsRows(
    t: map<nat, Message>, origin: map<nat, nat>, birth: map<nat, nat>, issued: set<nat>, elsewhere: set<nat>,
    server: map<nat, Receipt>,
    delivered: set<nat>, settled: set<nat>, uid: nat, id: nat, row: Message, sid: nat)
    requires OriginOk(origin, birth, issued, t) && RowsOk(t, origin, elsewhere, server, uid)
      && PendingOk(t, origin, settled)
    requires row.server == Some(sid) && forall j :: j in origin && j in t && t[j].server == Some(sid) ==> j == id
    requires id in origin ==> RowOk(row, origin[id], server, uid)
    requires id in origin && id !in settled ==> row.local == origin[id]
    requires id !in origin ==> NotCreated(row, elsewhere, uid)
    requires forall i :: i in delivered ==> Confirmed(t, origin, server, i)
    ensures
      var t' := Stored(t, id, row, sid);
      && OriginOk(origin, birth, issued, t') && RowsOk(t', origin, elsewhere, server, uid)
      && PendingOk(t', origin, settled)
      && (forall i :: i in delivered ==> Confirmed(t', origin, server, i))
  {
    var t' := Stored(t, id, row, sid);
    assert forall j :: j in origin && j != id ==> j in t' && t'[j] == t[j];
    forall i | i in delivered ensures Confirmed(t', origin, server, i) { assert Confirmed(t, origin, server, i); }
  }

  /** The row of a message that has lost its local id still holds the message's server id. */
  lemma WhereTheMessageIs(s: Sys, uid: nat, local: nat)
    requires Inv(s, uid) && local in s.server
    ensures
      var i := s.birth[local];
      i in s.origin && s.origin[i] == local && i in s.db.message && s.db.message[i].from == uid
      && (s.db.message[i].local == local || s.db.message[i].server == Some(s.server[local].sid))
  {
    var i := s.birth[local];
    assert RowOk(s.db.message[i], local, s.server, uid);
  }

  /** Where a copy of an own message lands: in the row of the message it copies, or, when it does
      not carry the local id, possibly in a row that is not a created one. */
  lemma CopyTarget(s: Sys, uid: nat, local: nat, inp: Input, io: nat -> bool, now: int)
    requires Inv(s, uid) && Enabled(s, uid, Copy(local, inp, io)) && Accepted(s.db, Some(uid), inp)
    ensures
      var id := Placed(s.db, Some(uid), inp, now).0;
      && (id in s.origin ==> s.origin[id] == local)
      && (id !in s.origin ==> inp.local == 0)
      && OnlyCreatedHolder(s, inp, id)
  {
    WhereTheMessageIs(s, uid, local);
    var i := s.birth[local];
    var own, existed := OwnRow(s.db, Some(uid), inp), FindServer(s.db.message, inp.server);
    forall j | j in s.origin && s.db.message[j].server == Some(inp.server) ensures j == i {
      assert RowOk(s.db.message[j], s.origin[j], s.server, uid);
    }
    if own.Some? {
      if own.value in s.origin { assert RowOk(s.db.message[own.value], s.origin[own.value], s.server, uid); }
      assert own.value == i;
    } else if existed.Some? && inp.local == local {
      assert s.db.message[i].server == Some(inp.server);
    }
  }

  lemma CopyKeeps(s: Sys, uid: nat, local: nat, inp: Input, io: nat -> bool, now: int)
    requires Inv(s, uid) && Enabled(s, uid, Copy(local, inp, io)) && CopySafe(s, uid, inp, io, now)
    ensures Inv(Next(s, uid, Copy(local, inp, io), now), uid)
  {
    if Accepted(s.db, Some(uid), inp) {
      CopyTarget(s, uid, local, inp, io, now);
      QueuedBy(s, uid, Placed(s.db, Some(uid), inp, now).0);
    }
    StoreIoKeeps(s, uid, inp, now, io);
  }

  lemma ElsewhereGrows(s: Sys, uid: nat, more: set<nat>)
    requires Inv(s, uid) && more !! s.issued
    ensures Inv(s.(elsewhere := s.elsewhere + more), uid)
  {
    var s' := s.(elsewhere := s.elsewhere + more);
    forall i | i in s.delivered ensures Confirmed(s'.db.message, s'.origin, s'.server, i) {
      assert Confirmed(s.db.message, s.origin, s.server, i);
    }
  }

  lemma OtherCopyKeeps(s: Sys, uid: nat, inp: Input, io: nat -> bool, now: int)
    requires Inv(s, uid) && Enabled(s, uid, OtherCopy(inp, io))
    ensures Inv(Next(s, uid, OtherCopy(inp, io), now), uid)
  {
    ElsewhereGrows(s, uid, Locals(uid, inp));
    var s' := s.(elsewhere := s.elsewhere + Locals(uid, inp));
    if Accepted(s.db, Some(uid), inp) { OtherTarget(s', uid, inp, now); }
    StoreIoKeeps(s', uid, inp, now, io);
  }

  /** A copy of a message not created here never lands in a created row. */
  lemma OtherTarget(s: Sys, uid: nat, inp: Input, now: int)
    requires Inv(s, uid) && Accepted(s.db, Some(uid), inp) && Locals(uid, inp) <= s.elsewhere
    requires forall l :: l in s.server ==> s.server[l].sid != inp.server
    ensures
      var (id, row) := Placed(s.db, Some(uid), inp, now);
      id !in s.origin && OnlyCreatedHolder(s, inp, id) && Fits(s, uid, id, row)
  {
    forall j | j in s.origin
      ensures s.db.message[j].server != Some(inp.server) && OwnRow(s.db, Some(uid), inp) != Some(j)
    {
      assert RowOk(s.db.message[j], s.origin[j], s.server, uid);
    }
  }

  predicate ByClient(e: Event) {
    e.Create? || e.Draft? || e.SendAgain? || e.Finish? || e.Send? || e.Bumped? || e.Reconciled?
  }

  lemma ClientEventKeeps(s: Sys, uid: nat, e: Event, now: int)
    requires Inv(s, uid) && Enabled(s, uid, e) && ByClient(e)
    ensures Inv(Next(s, uid, e, now), uid)
  {
    match e
    case Create(m, local, job) => CreateKeeps(s, uid, m, local, job, now);
    case Draft(m, local) => DraftKeeps(s, uid, m, local, now);
    case SendAgain(id, job) => SendAgainKeeps(s, uid, id, job, now);
    case Finish(id, content, thumb, payload, route) => FinishKeeps(s, uid, id, content, thumb, payload, route, now);
    case Send(id, minted) => SendKeeps(s, uid, id, minted, now);
    case Bumped(id, next) => BumpKeeps(s, uid, id, next, now);
    case Reconciled(id) => ReconcileKeeps(s, uid, id, now);
  }

  lemma EventKeeps(s: Sys, uid: nat, e: Event, now: int)
    requires Inv(s, uid) && Enabled(s, uid, e) && Safe(s, uid, e, now)
    ensures Inv(Next(s, uid, e, now), uid)
  {
    if ByClient(e) {
      ClientEventKeeps(s, uid, e, now);
    } else {
      match e
      case Receive(req, receipt) => ReceiveKeeps(s, uid, req, receipt, now);
      case Refuse(req) => RefuseKeeps(s, uid, req, now);
      case AckArrives(reply) => AckKeeps(s, uid, reply, now);
      case RejectArrives(id) => RejectKeeps(s, uid, id, now);
      case Copy(local, inp, io) => CopyKeeps(s, uid, local, inp, io, now);
      case OtherCopy(inp, io) => OtherCopyKeeps(s, uid, inp, io, now);
      case Lose(requests, replies) => LoseKeeps(s, uid, requests, replies, now);
    }
  }

  // ----- every event does its work -----

  /** A reply settles its message as sent under the receipt's id; a rejection shows it as failed with nothing
      queued; a reconciliation settles it; sending again, or finishing an attachment, shows it as sending with
      what is to be sent queued, unless its local id is gone; a new message is queued, a draft is not; a retry
      is postponed; and a copy that is written is stored. */
  lemma EventsTakeEffect(s: Sys, uid: nat, e: Event, now: int)
    requires Inv(s, uid) && Enabled(s, uid, e)
    ensures TakesEffect(s, uid, e, now, Next(s, uid, e, now))
  {
    if ByClient(e) {
      ClientEventTakesEffect(s, uid, e, now);
    } else {
      match e
      case AckArrives(reply) => AckTakesEffect(s, uid, reply, now);
      case RejectArrives(id) => RejectTakesEffect(s, uid, id, now);
      case Copy(_, inp, io) => CopyTakesEffect(s, uid, inp, io, now);
      case OtherCopy(inp, io) => CopyTakesEffect(s, uid, inp, io, now);
      case _ =>
    }
  }

  lemma ClientEventTakesEffect(s: Sys, uid: nat, e: Event, now: int)
    requires Inv(s, uid) && Enabled(s, uid, e) && ByClient(e)
    ensures TakesEffect(s, uid, e, now, Next(s, uid, e, now))
  {
    if e.Reconciled? {
      ReconcileTakesEffect(s, uid, e.id, now);
    } else if e.Bumped? {
      BumpAndDropWrite(s.db, e.id, e.next, now);
    } else if !e.Send? {
      UserEventTakesEffect(s, uid, e, now);
    }
  }

  lemma UserEventTakesEffect(s: Sys, uid: nat, e: Event, now: int)
    requires Inv(s, uid) && Enabled(s, uid, e) && (e.Create? || e.Draft? || e.SendAgain? || e.Finish?)
    ensures TakesEffect(s, uid, e, now, Next(s, uid, e, now))
  {
    match e
    case Create(m, local, job) => CreatedTakesEffect(s, uid, m, local, job, now);
    case Draft(m, local) => DraftTakesEffect(s, uid, m, local, now);
    case SendAgain(id, job) => SendAgainTakesEffect(s, uid, id, job, now);
    case Finish(id, content, thumb, payload, route) =>
      FinishTakesEffect(s, uid, id, content, thumb, payload, route, now);
  }

  ghost predicate TakesEffect(s: Sys, uid: nat, e: Event, now: int, s': Sys) {
    match e
    case Create(m, local, job) =>
      local in s'.birth && local in s'.db.outbox && Shows(s', s'.birth[local], 1)
      && IsLocal(s'.db.message[s'.birth[local]], m, local, now)
      && IsNew(s'.db.outbox[local], s'.birth[local], job.kind, m.channel, job.payload, job.route, now)
    case Draft(m, local) =>
      local in s'.birth && Shows(s', s'.birth[local], 0) && IsLocal(s'.db.message[s'.birth[local]], m, local, now)
      && s'.db.outbox == s.db.outbox
    case AckArrives(reply) =>
      reply.id in s'.acked && Shows(s', reply.id, 2) && s'.db.message[reply.id].server == Some(reply.receipt.sid)
      && s'.db.message[reply.id].pts == reply.receipt.seqNo && !HasCommand(s'.db.outbox, reply.id)
    case RejectArrives(id) => id in s'.idle && Shows(s', id, 3) && !HasCommand(s'.db.outbox, id)
    case Reconciled(id) => id in s'.acked && Shows(s', id, 2) && !HasCommand(s'.db.outbox, id)
    case SendAgain(id, job) => id in s.db.message && s.db.message[id].local > 0 ==> RunsAgain(s, id, job, now, s')
    case Finish(id, content, thumb, payload, route) =>
      id in s.db.message && s.db.message[id].local > 0 ==>
        RunsAgain(s, id, Job("attachment", s.db.message[id].channel, payload, Some(route)), now, s')
        && s'.db.message[id].body.content == content && s'.db.message[id].thumbStatus == thumb
    case Send(id, minted) => id in s'.db.message && Request(id, s'.db.message[id].local) in s'.requests
    case Receive(req, receipt) =>
      req.local in s'.server && s'.server[req.local] == receipt && Reply(req.id, receipt) in s'.replies
    case Refuse(req) => req.id in s'.refusals
    case Bumped(id, next) =>
      s'.db.outbox.Keys == s.db.outbox.Keys && forall c :: c in s.db.outbox && s.db.outbox[c].messageId == id ==>
        s'.db.outbox[c].retries == s.db.outbox[c].retries + 1 && s'.db.outbox[c].nextAttempt == next
    case Copy(_, inp, io) => Writes(s.db, Some(uid), inp, io) ==> StoresCopy(s, inp, now, s')
    case OtherCopy(inp, io) =>
      (Writes(s.db, Some(uid), inp, io) ==> StoresCopy(s, inp, now, s')) && s.elsewhere <= s'.elsewhere
    case Lose(requests, replies) => s'.requests == requests && s'.replies == replies
  }

  /** Exactly one row holds the copy. */
  ghost predicate StoresCopy(s: Sys, inp: Input, now: int, s': Sys) {
    exists id :: id in s'.db.message && StoredRow(s.db.message, id, inp, now, s'.db.message[id])
                 && forall i :: i in s'.db.message && s'.db.message[i].server == Some(inp.server) ==> i == id
  }

  /** The message is shown as sending and its command is the job. */
  ghost predicate RunsAgain(s: Sys, id: nat, job: Job, now: int, s': Sys) {
    && id in s.db.message && Shows(s', id, 1) && HasCommand(s'.db.outbox, id) && id !in s'.idle && id !in s'.acked
    && IsQueued(s.db.outbox, s.db.nextCommand, s.db.message[id].local, id, job, now, s'.db.outbox)
  }

  predicate Shows(s: Sys, id: nat, status: int) { id in s.db.message && s.db.message[id].status == status }

  lemma CopyTakesEffect(s: Sys, uid: nat, inp: Input, io: nat -> bool, now: int)
    requires Inv(s, uid)
    ensures
      var s' := s.(db := StoreIo(s.db, Some(uid), inp, now, io).0);
      Writes(s.db, Some(uid), inp, io) ==> StoresCopy(s, inp, now, s')
  {
    if Writes(s.db, Some(uid), inp, io) {
      StoreIoRows(s.db, Some(uid), inp, now, io);
      StoredColumns(s.db, Some(uid), inp, now);
      StoredOnce(s.db, Some(uid), inp, now);
      var id := Store(s.db, Some(uid), inp, now).1.value.messageId;
      assert StoredRow(s.db.message, id, inp, now, StoreIo(s.db, Some(uid), inp, now, io).0.message[id]);
    }
  }

  lemma CreatedTakesEffect(s: Sys, uid: nat, m: NewMessage, local: nat, job: Job, now: int)
    requires Inv(s, uid) && Enabled(s, uid, Create(m, local, job))
    ensures TakesEffect(s, uid, Create(m, local, job), now, Next(s, uid, Create(m, local, job), now))
  {
    CreateKeeps(s, uid, m, local, job, now);
    CreatedTogether(s.db, m, local, job, now);
  }

  lemma DraftTakesEffect(s: Sys, uid: nat, m: NewMessage, local: nat, now: int)
    requires Inv(s, uid) && Enabled(s, uid, Draft(m, local))
    ensures TakesEffect(s, uid, Draft(m, local), now, Next(s, uid, Draft(m, local), now))
  {
    CreatedAlone(s.db, m, local, now);
  }

  lemma AckTakesEffect(s: Sys, uid: nat, reply: Reply, now: int)
    requires Inv(s, uid) && Enabled(s, uid, AckArrives(reply))
    ensures TakesEffect(s, uid, AckArrives(reply), now, Next(s, uid, AckArrives(reply), now))
  {
    AckedRow(s, uid, reply.id, now);
    AckSettles(s.db, reply.id, reply.receipt.sid, reply.receipt.seqNo, now);
  }

  lemma RejectTakesEffect(s: Sys, uid: nat, id: nat, now: int)
    requires Inv(s, uid) && Enabled(s, uid, RejectArrives(id))
    ensures
      var s' := Next(s, uid, RejectArrives(id), now);
      id in s'.idle && Shows(s', id, 3) && !HasCommand(s'.db.outbox, id)
  {
    QueuedBy(s, uid, id);
    RejectWrites(s.db, id, 3, now);
  }

  lemma ReconcileTakesEffect(s: Sys, uid: nat, id: nat, now: int)
    requires Inv(s, uid) && Enabled(s, uid, Reconciled(id))
    ensures
      var s' := Next(s, uid, Reconciled(id), now);
      id in s'.acked && Shows(s', id, 2) && !HasCommand(s'.db.outbox, id)
  {
    ReconcileKeeps(s, uid, id, now);
    QueuedBy(s, uid, id);
    ReconciledRow(s, uid, id, now);
    ReconcileWrites(s.db, id, s.db.message[id].server.value, now);
  }

  lemma SendAgainTakesEffect(s: Sys, uid: nat, id: nat, job: Job, now: int)
    requires Inv(s, uid) && Enabled(s, uid, SendAgain(id, job))
    ensures TakesEffect(s, uid, SendAgain(id, job), now, Next(s, uid, SendAgain(id, job), now))
  {
    if id in s.db.message && s.db.message[id].local > 0 {
      EnqueueQueues(s.db, id, job, now);
      QueuedKeeps(s, uid, id, s.db.message[id].(status := SENDING, updatedAt := now), job, now);
      SendAgainKeeps(s, uid, id, job, now);
      QueuedBy(Next(s, uid, SendAgain(id, job), now), uid, id);
    }
  }

  lemma FinishTakesEffect(s: Sys, uid: nat, id: nat, content: string, thumb: int, payload: seq<Byte>, route: string,
    now: int)
    requires Inv(s, uid) && Enabled(s, uid, Finish(id, content, thumb, payload, route))
    ensures
      var e := Finish(id, content, thumb, payload, route);
      TakesEffect(s, uid, e, now, Next(s, uid, e, now))
  {
    if id in s.db.message && s.db.message[id].local > 0 {
      FinalizeQueues(s.db, id, content, thumb, payload, route, now);
      QueuedKeeps(s, uid, id, Finalized(s.db.message[id], content, thumb, now),
                  Job("attachment", s.db.message[id].channel, payload, Some(route)), now);
      FinishKeeps(s, uid, id, content, thumb, payload, route, now);
      QueuedBy(Next(s, uid, Finish(id, content, thumb, payload, route), now), uid, id);
    }
  }

  // ----- runs -----

  datatype Timed = Timed(e: Event, now: int)

  const INITIAL := Sys(EMPTY, {}, {}, map[], map[], map[], {}, {}, {}, {}, {}, {})

  function Reached(uid: nat, es: seq<Timed>): Sys {
    if es == [] then INITIAL
    else Next(Reached(uid, es[..|es| - 1]), uid, es[|es| - 1].e, es[|es| - 1].now)
  }

  /** Every event was possible when it happened. */
  ghost predicate Possible(uid: nat, es: seq<Timed>) {
    es != [] ==>
      Possible(uid, es[..|es| - 1]) && Enabled(Reached(uid, es[..|es| - 1]), uid, es[|es| - 1].e)
  }

  /** No copy without a local id was stored over a message still queued. */
  ghost predicate SafeRun(uid: nat, es: seq<Timed>) {
    es != [] ==>
      SafeRun(uid, es[..|es| - 1]) && Safe(Reached(uid, es[..|es| - 1]), uid, es[|es| - 1].e, es[|es| - 1].now)
  }

  lemma {:induction false} ReachedInv(uid: nat, es: seq<Timed>)
    requires Possible(uid, es) && SafeRun(uid, es)
    ensures Inv(Reached(uid, es), uid)
  {
    if es != [] {
      ReachedInv(uid, es[..|es| - 1]);
      EventKeeps(Reached(uid, es[..|es| - 1]), uid, es[|es| - 1].e, es[|es| - 1].now);
    }
  }

  /** Exactly one row holds the server's id of this message, and it is the row the user created. */
  ghost predicate Held(s: Sys, id: nat) {
    && Confirmed(s.db.message, s.origin, s.server, id)
    && (forall j :: j in s.db.message && s.db.message[j].server == Some(s.server[s.origin[id]].sid) ==> j == id)
  }

  /** And nothing is left to send. */
  ghost predicate Delivered(s: Sys, id: nat) { Held(s, id) && !HasCommand(s.db.outbox, id) }

  /** Effectively-once sending, in every interleaving of creates, attachments, sends, lost, repeated
      and late requests and replies, crashes, retries, refusals, sending again, own and foreign
      copies and reconciliations: every request for a message, however often retried, carries the
      local id it was created with, so the server holds at most one message for it; its command is
      queued exactly while it is neither acknowledged nor idle; once acknowledged it is held in the
      one row the user created, and delivered unless it was queued again. */
  lemma EffectivelyOnce(uid: nat, es: seq<Timed>)
    requires Possible(uid, es) && SafeRun(uid, es)
    ensures
      var s := Reached(uid, es);
      && (forall q :: q in s.requests ==> q.id in s.origin && q.local == s.origin[q.id])
      && (forall l :: l in s.server ==> l in s.birth && s.birth[l] in s.origin && s.origin[s.birth[l]] == l)
      && (forall i :: i in s.origin ==> (HasCommand(s.db.outbox, i) <==> i !in s.acked && i !in s.idle))
      && (forall i :: i in s.delivered ==> Held(s, i))
      && (forall i :: i in s.acked ==> i in s.delivered && Delivered(s, i) && i !in s.idle)
  {
    ReachedInv(uid, es);
    var s := Reached(uid, es);
    forall i | i in s.origin ensures HasCommand(s.db.outbox, i) <==> i !in s.acked && i !in s.idle {
      QueuedBy(s, uid, i);
    }
    forall i | i in s.delivered ensures Held(s, i) { assert Confirmed(s.db.message, s.origin, s.server, i); }
    forall i | i in s.acked ensures Delivered(s, i) { QueuedBy(s, uid, i); }
  }

  /** The user sends the message, or its attachment, once more. */
  predicate QueuesAgain(e: Event, id: nat) { (e.SendAgain? || e.Finish?) && e.id == id }

  lemma EventIsMonotone(s: Sys, uid: nat, e: Event, now: int)
    requires s.db.nextId !in s.origin && Enabled(s, uid, e)
    ensures
      var s' := Next(s, uid, e, now);
      && s.delivered <= s'.delivered && (forall i :: i in s.acked && !QueuesAgain(e, i) ==> i in s'.acked)
      && (forall i :: i in s.origin ==> i in s'.origin && s'.origin[i] == s.origin[i])
      && (forall l :: l in s.server ==> l in s'.server && s'.server[l] == s.server[l])
  {
  }

  /** Once acknowledged, held under the same server id in every later state, and delivered as long as the
      user does not queue the message again. */
  lemma {:induction false} DeliveredForever(uid: nat, es: seq<Timed>, k: nat, id: nat)
    requires Possible(uid, es) && SafeRun(uid, es) && k <= |es| && id in Reached(uid, es[..k]).delivered
    ensures
      var early, late := Reached(uid, es[..k]), Reached(uid, es);
      && id in late.delivered && Held(late, id) && id in early.origin && early.origin[id] in early.server
      && late.origin[id] == early.origin[id] && late.server[late.origin[id]] == early.server[early.origin[id]]
      && (id in early.acked && (forall n :: k <= n < |es| ==> !QueuesAgain(es[n].e, id)) ==>
            id in late.acked && Delivered(late, id))
  {
    if k == |es| {
      assert es[..k] == es;
    } else {
      var init := es[..|es| - 1];
      assert init[..k] == es[..k];
      DeliveredForever(uid, init, k, id);
      ReachedInv(uid, init);
      assert Reached(uid, init).db.nextId !in Reached(uid, init).origin;
      EventIsMonotone(Reached(uid, init), uid, es[|es| - 1].e, es[|es| - 1].now);
    }
    EffectivelyOnce(uid, es);
  }

  // ----- where it fails, exactly -----

  /** Storing a copy of an own message keeps the invariant exactly when the copy carries the local
      id, or is not written, or lands in a row with nothing queued. */
  lemma CopyKeepsExactly(s: Sys, uid: nat, local: nat, inp: Input, io: nat -> bool, now: int)
    requires Inv(s, uid) && Enabled(s, uid, Copy(local, inp, io))
    ensures Inv(Next(s, uid, Copy(local, inp, io), now), uid) <==> CopySafe(s, uid, inp, io, now)
  {
    if CopySafe(s, uid, inp, io, now) {
      CopyKeeps(s, uid, local, inp, io, now);
    } else {
      UnsafeCopyLosesLocalId(s, uid, local, inp, io, now);
    }
  }

  lemma UnsafeCopyLosesLocalId(s: Sys, uid: nat, local: nat, inp: Input, io: nat -> bool, now: int)
    requires Inv(s, uid) && Enabled(s, uid, Copy(local, inp, io)) && !CopySafe(s, uid, inp, io, now)
    ensures
      var s', id := Next(s, uid, Copy(local, inp, io), now), s.birth[local];
      && id in s'.db.message && s'.db.message[id].local == 0 && HasCommand(s'.db.outbox, id)
      && s' == s.(db := s'.db)
      && !Inv(s', uid)
  {
    var id := Placed(s.db, Some(uid), inp, now).0;
    QueuedBy(s, uid, id);
    CopyTarget(s, uid, local, inp, io, now);
    StoreIoRows(s.db, Some(uid), inp, now, io);
    var s' := Next(s, uid, Copy(local, inp, io), now);
    assert id == s.birth[local] && s'.db.message[id].local == 0;
  }

  /** After an unsafe copy the next retry goes out under a newly minted id, and the server, which
      has never seen that id, takes it for another message. */
  lemma UnsafeCopySendsTwice(
    s: Sys, uid: nat, local: nat, inp: Input, io: nat -> bool, now: int, minted: nat, receipt: Receipt)
    requires Inv(s, uid) && Enabled(s, uid, Copy(local, inp, io)) && !CopySafe(s, uid, inp, io, now)
    requires NewLocal(s, minted)
    requires receipt.sid > 0 && forall l :: l in s.server ==> s.server[l].sid != receipt.sid
    ensures
      var id := s.birth[local];
      var s1 := Next(s, uid, Copy(local, inp, io), now);
      var s2 := Next(s1, uid, Send(id, minted), now);
      var s3 := Next(s2, uid, Receive(Request(id, minted), receipt), now);
      && Enabled(s1, uid, Send(id, minted)) && Enabled(s2, uid, Receive(Request(id, minted), receipt))
      && id in s3.origin && s3.origin[id] == local != minted && local in s3.server && minted in s3.server
      && s3.server[local].sid != s3.server[minted].sid
  {
    UnsafeCopyLosesLocalId(s, uid, local, inp, io, now);
    assert minted !in s.birth && minted !in s.server;
  }

  /** The echo of a queued message is merged into its row and leaves it queued. */
  lemma EchoStaysQueued(s: Sys, uid: nat, local: nat, echo: Input, io: nat -> bool, now: int)
    requires Inv(s, uid) && local in s.server && !Settled(s, s.birth[local])
    requires Enabled(s, uid, Copy(local, echo, io)) && echo.local == local && Writes(s.db, Some(uid), echo, io)
    ensures
      var id, db := s.birth[local], StoreIo(s.db, Some(uid), echo, now, io).0;
      && HasCommand(db.outbox, id) && FindServer(db.message, echo.server) == Some(id)
      && (db.message[id].orderSeq, db.message[id].pts) == (echo.orderSeq, echo.pts)
  {
    QueuedBy(s, uid, s.birth[local]);
    CopyTarget(s, uid, local, echo, io, now);
    StoredOnce(s.db, Some(uid), echo, now);
    StoreIoRows(s.db, Some(uid), echo, now, io);
  }

  /** A copy without a local id and no older than the row holding its server id is written there. */
  lemma PlainCopyIsWritten(db: Db, uid: Option<nat>, inp: Input, io: nat -> bool, now: int, id: nat)
    requires inp.server > 0 && inp.local == 0 && FindServer(db.message, inp.server) == Some(id)
    requires !Stale(db.message[id], inp) && io(0) && io(3)
    ensures Writes(db, uid, inp, io) && Placed(db, uid, inp, now).0 == id
  {
  }

  /** The unsafe situation is an ordinary one: the server has a message whose reply was lost, its
      echo arrives, and then a history page with the same copy without the local id. */
  lemma LostReplyEchoThenHistory(
    s: Sys, uid: nat, local: nat, echo: Input, io: nat -> bool, history: Input, io2: nat -> bool, now: int, later: int)
    requires Inv(s, uid) && local in s.server && !Settled(s, s.birth[local])
    requires Enabled(s, uid, Copy(local, echo, io)) && echo.local == local && Writes(s.db, Some(uid), echo, io)
    requires history.server == echo.server && history.from == uid && history.local == 0
    requires history.orderSeq == echo.orderSeq && history.pts == echo.pts && io2(0) && io2(3)
    ensures !CopySafe(Next(s, uid, Copy(local, echo, io), now), uid, history, io2, later)
  {
    EchoStaysQueued(s, uid, local, echo, io, now);
    PlainCopyIsWritten(StoreIo(s.db, Some(uid), echo, now, io).0, Some(uid), history, io2, later, s.birth[local]);
  }
}
