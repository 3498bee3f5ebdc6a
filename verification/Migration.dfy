/** Moving unsent commands of the former queue databases into the outbox. Each queue maps an 8-byte
    message id to a payload; anything may fail, and the move may stop and run again. */
module Migration {
  import opened Tables
  import opened Codec
  import opened Outbox
  import opened Store

  type LegacyQueue = map<seq<Byte>, seq<Byte>>

  /** How the two engines behave for one queue item: reading it, looking up its row, enqueueing it,
      marking its row, removing it. */
  datatype Engine = Engine(next: bool, row: bool, enqueue: nat -> bool, status: nat -> bool, remove: bool)

  datatype Fate = Malformed | Rowless | Moved | Quarantined | Kept

  datatype Counts = Counts(moved: nat, remaining: nat, quarantined: nat)

  /** One item and what became of it. */
  datatype Move = Move(queue: nat, key: seq<Byte>, payload: seq<Byte>, fate: Fate)

  /** The first queue held messages, the others attachments. */
  function Kind(queue: nat): string { if queue == 0 then "message" else "attachment" }

  function JobOf(m: Move): Job { Job(Kind(m.queue), 0, m.payload, None) }

  function Effect(db: Db, m: Move, now: int): Db {
    match m.fate
    case Moved => Enqueue(db, FromBytes(m.key), JobOf(m), now).0
    case Quarantined => SetStatus(db, FromBytes(m.key), FAILED, now).0
    case _ => db
  }

  /** The store after a sequence of moves. */
  function Replayed(db: Db, ms: seq<Move>, now: int): Db {
    if ms == [] then db else Effect(Replayed(db, ms[..|ms| - 1], now), ms[|ms| - 1], now)
  }

  /** Why an item has its fate: its key, its row, the answer of the outbox, or a failing engine. */
  ghost predicate Allowed(db: Db, m: Move, now: int, e: Engine) {
    var id := FromBytes(m.key);
    var r := Enqueue(db, id, JobOf(m), now).1;
    match m.fate
    case Malformed => |m.key| != 8
    case Rowless => |m.key| == 8 && id !in db.message
    case Moved => |m.key| == 8 && id in db.message && r.Ok?
    case Quarantined => |m.key| == 8 && id in db.message && r == Err(MissingLocalMessageId(id))
    case Kept =>
      && |m.key| == 8 && id in db.message
      && (r == Err(Storage) || !Works(e.enqueue) || (r == Err(MissingLocalMessageId(id)) && !Works(e.status)))
  }

  ghost predicate Happened(db: Db, ms: seq<Move>, now: int, io: (nat, seq<Byte>) -> Engine) {
    ms != [] ==>
      var init, last := ms[..|ms| - 1], ms[|ms| - 1];
      Happened(db, init, now, io) && Allowed(Replayed(db, init, now), last, now, io(last.queue, last.key))
  }

  lemma OneMoreMove(db: Db, ms: seq<Move>, m: Move, now: int, io: (nat, seq<Byte>) -> Engine)
    requires Happened(db, ms, now, io) && Allowed(Replayed(db, ms, now), m, now, io(m.queue, m.key))
    ensures Happened(db, ms + [m], now, io)
    ensures Replayed(db, ms + [m], now) == Effect(Replayed(db, ms, now), m, now)
  {
    assert (ms + [m])[..|ms|] == ms;
  }

  /** What happens after what happened. */
  lemma {:induction false} MovesJoin(db: Db, a: seq<Move>, b: seq<Move>, now: int, io: (nat, seq<Byte>) -> Engine)
    requires Happened(db, a, now, io) && Happened(Replayed(db, a, now), b, now, io)
    ensures Happened(db, a + b, now, io) && Replayed(db, a + b, now) == Replayed(Replayed(db, a, now), b, now)
  {
    if b == [] {
      assert a + b == a;
    } else {
      var init, last := b[..|b| - 1], b[|b| - 1];
      MovesJoin(db, a, init, now, io);
      OneMoreMove(db, a + init, last, now, io);
      assert a + init + [last] == a + b;
    }
  }

  // ----- what any number of moves keeps -----

  /** Positive local ids are distinct, and a command queued under a row's local id is that row's. */
  ghost predicate Matched(db: Db) {
    && DistinctLocals(db.message)
    && (forall i :: i in db.message && db.message[i].local in db.outbox && db.message[i].local > 0 ==>
          db.outbox[db.message[i].local].messageId == i)
  }

  ghost predicate DistinctLocals(t: map<nat, Message>) {
    forall i, j :: i in t && j in t && i != j && t[i].local > 0 ==> t[i].local != t[j].local
  }

  /** Set aside for good: without a local id it cannot be queued, and it is shown as failed. */
  predicate SetAside(db: Db, id: nat) {
    id in db.message && db.message[id].local == 0 && db.message[id].status == FAILED
  }

  /** Rows change at most their status, commands keep their messages, new commands stand under their
      messages' local ids, no message gains a second command, rows set aside stay so, and no other
      table changes. */
  ghost predicate Evolves(a: Db, b: Db) {
    && RowsEvolve(a.message, b.message) && CommandsEvolve(a.outbox, b.outbox) && NewUnderLocal(a, b)
    && (forall i :: SetAside(a, i) ==> SetAside(b, i))
    && b.nextId == a.nextId && b.extra == a.extra && b.channel == a.channel && b.cursor == a.cursor
  }

  ghost predicate RowsEvolve(t: map<nat, Message>, u: map<nat, Message>) {
    t.Keys == u.Keys && forall i :: i in t ==> u[i] == t[i].(status := u[i].status, updatedAt := u[i].updatedAt)
  }

  ghost predicate CommandsEvolve(o: map<nat, Command>, p: map<nat, Command>) {
    && (forall c :: c in o ==> c in p && p[c].messageId == o[c].messageId && p[c].kind == o[c].kind)
    && (forall c, d :: c in p && d in p && c != d && p[c].messageId == p[d].messageId ==> c in o && d in o)
  }

  ghost predicate NewUnderLocal(a: Db, b: Db) {
    forall c :: c in b.outbox && c !in a.outbox ==>
      b.outbox[c].messageId in a.message && a.message[b.outbox[c].messageId].local == c
  }

  lemma CommandsStay(o: map<nat, Command>, p: map<nat, Command>, i: nat)
    requires CommandsEvolve(o, p) && HasCommand(o, i)
    ensures HasCommand(p, i)
  {
    var c :| c in o && o[c].messageId == i;
    assert p[c].messageId == i;
  }

  lemma CommandsEvolveTwice(o: map<nat, Command>, p: map<nat, Command>, q: map<nat, Command>)
    requires CommandsEvolve(o, p) && CommandsEvolve(p, q)
    ensures CommandsEvolve(o, q)
  {
    forall c, d | c in q && d in q && c != d && q[c].messageId == q[d].messageId ensures c in o && d in o {
      assert c in p && d in p && p[c].messageId == p[d].messageId;
    }
  }

  lemma NewUnderLocalTwice(a: Db, b: Db, c: Db)
    requires RowsEvolve(a.message, b.message) && CommandsEvolve(b.outbox, c.outbox)
    requires NewUnderLocal(a, b) && NewUnderLocal(b, c)
    ensures NewUnderLocal(a, c)
  {
    forall k | k in c.outbox && k !in a.outbox
      ensures c.outbox[k].messageId in a.message && a.message[c.outbox[k].messageId].local == k
    {
      if k in b.outbox { assert c.outbox[k].messageId == b.outbox[k].messageId; }
    }
  }

  lemma EvolvesTwice(a: Db, b: Db, c: Db)
    requires Evolves(a, b) && Evolves(b, c)
    ensures Evolves(a, c)
  {
    CommandsEvolveTwice(a.outbox, b.outbox, c.outbox);
    NewUnderLocalTwice(a, b, c);
  }

  lemma MatchedStays(a: Db, b: Db)
    requires Evolves(a, b) && Matched(a)
    ensures Matched(b)
  {
    forall i | i in b.message && b.message[i].local in b.outbox && b.message[i].local > 0
      ensures b.outbox[b.message[i].local].messageId == i
    {
      assert b.message[i].local == a.message[i].local;
    }
  }

  lemma PutCommandEvolves(outbox: map<nat, Command>, next: nat, local: nat, id: nat, job: Job, now: int)
    ensures
      var put := PutCommand(outbox, next, local, id, job, now);
      put.Some? ==>
        && CommandsEvolve(outbox, put.value)
        && (forall c :: c in put.value && c !in outbox ==> c == local && put.value[c].messageId == id)
  {
  }

  lemma QueueEvolves(db: Db, id: nat, row: Message, job: Job, now: int)
    requires id in db.message && db.message[id].local > 0
    requires row == db.message[id].(status := row.status, updatedAt := row.updatedAt)
    ensures var queued := Queue(db, id, row, job, now); queued.Some? ==> Evolves(db, queued.value)
  {
    PutCommandEvolves(db.outbox, db.nextCommand, row.local, id, job, now);
    RowEvolves(db.message, id, row);
  }

  lemma RowEvolves(t: map<nat, Message>, id: nat, row: Message)
    requires id in t && row == t[id].(status := row.status, updatedAt := row.updatedAt)
    ensures RowsEvolve(t, t[id := row])
  {
  }

  lemma EnqueueEvolves(db: Db, id: nat, job: Job, now: int)
    ensures Evolves(db, Enqueue(db, id, job, now).0)
  {
    if id in db.message && db.message[id].local > 0 {
      QueueEvolves(db, id, db.message[id].(status := SENDING, updatedAt := now), job, now);
    } else {
      EvolvesToItself(db);
    }
  }

  lemma EvolvesToItself(db: Db)
    ensures Evolves(db, db)
  {
  }

  lemma SetStatusEvolves(db: Db, id: nat, now: int)
    ensures Evolves(db, SetStatus(db, id, FAILED, now).0)
  {
    var db' := SetStatus(db, id, FAILED, now).0;
    assert RowsEvolve(db.message, db'.message);
    assert CommandsEvolve(db.outbox, db'.outbox);
  }

  lemma EffectEvolves(db: Db, m: Move, now: int)
    ensures Evolves(db, Effect(db, m, now))
  {
    match m.fate
    case Moved => EnqueueEvolves(db, FromBytes(m.key), JobOf(m), now);
    case Quarantined => SetStatusEvolves(db, FromBytes(m.key), now);
    case _ =>
  }

  lemma {:induction false} ReplayEvolves(db: Db, ms: seq<Move>, now: int)
    ensures Evolves(db, Replayed(db, ms, now))
  {
    if ms != [] {
      var before := Replayed(db, ms[..|ms| - 1], now);
      ReplayEvolves(db, ms[..|ms| - 1], now);
      EffectEvolves(before, ms[|ms| - 1], now);
      EvolvesTwice(db, before, Effect(before, ms[|ms| - 1], now));
    }
  }

  // ----- every item's fate is decided by the store at the start -----

  /** The message has a command, but not under its own local id: the unique indexes refuse another. */
  predicate Renamed(db: Db, id: nat) {
    id in db.message && db.message[id].local > 0 && db.message[id].local !in db.outbox && HasCommand(db.outbox, id)
  }

  function Verdict(db: Db, key: seq<Byte>): Fate {
    var id := FromBytes(key);
    if |key| != 8 then Malformed
    else if id !in db.message then Rowless
    else if db.message[id].local == 0 then Quarantined
    else if Renamed(db, id) then Kept
    else Moved
  }

  ghost predicate EngineWorks(e: Engine) { Works(e.enqueue) && Works(e.status) }

  lemma AllowedIsVerdict(db: Db, m: Move, now: int, e: Engine)
    requires Allowed(db, m, now, e)
    ensures m.fate == Verdict(db, m.key) || (m.fate == Kept && !EngineWorks(e))
  {
  }

  lemma RenamedStays(a: Db, b: Db, id: nat)
    requires Evolves(a, b) && Matched(a)
    ensures Renamed(a, id) <==> Renamed(b, id)
  {
    if id in a.message && a.message[id].local > 0 {
      var local := a.message[id].local;
      if Renamed(a, id) {
        CommandsStay(a.outbox, b.outbox, id);
        assert local !in b.outbox;
      }
      if Renamed(b, id) {
        var c :| c in b.outbox && b.outbox[c].messageId == id;
        assert c in a.outbox && a.outbox[c].messageId == id;
      }
    }
  }

  lemma VerdictStays(a: Db, b: Db, key: seq<Byte>)
    requires Evolves(a, b) && Matched(a)
    ensures Verdict(a, key) == Verdict(b, key)
  {
    RenamedStays(a, b, FromBytes(key));
  }

  lemma {:induction false} FatesAreVerdicts(
    db: Db, ms: seq<Move>, now: int, io: (nat, seq<Byte>) -> Engine, n: nat)
    requires Happened(db, ms, now, io) && Matched(db) && n < |ms|
    ensures
      ms[n].fate == Verdict(db, ms[n].key) || (ms[n].fate == Kept && !EngineWorks(io(ms[n].queue, ms[n].key)))
  {
    var init, last := ms[..|ms| - 1], ms[|ms| - 1];
    if n < |init| {
      FatesAreVerdicts(db, init, now, io, n);
    } else {
      ReplayEvolves(db, init, now);
      VerdictStays(db, Replayed(db, init, now), last.key);
      AllowedIsVerdict(Replayed(db, init, now), last, now, io(last.queue, last.key));
    }
  }

  // ----- an item taken out of its queue is accounted for -----

  /** In the outbox, set aside as failed, or never sendable. */
  ghost predicate Settled(db: Db, key: seq<Byte>) {
    |key| != 8 || FromBytes(key) !in db.message || HasCommand(db.outbox, FromBytes(key)) || SetAside(db, FromBytes(key))
  }

  lemma SettledStays(a: Db, b: Db, key: seq<Byte>)
    requires Evolves(a, b) && Settled(a, key)
    ensures Settled(b, key)
  {
    if HasCommand(a.outbox, FromBytes(key)) { CommandsStay(a.outbox, b.outbox, FromBytes(key)); }
  }

  /** An item that was moved has a command exactly when its message was not displaced. */
  lemma MovedExactly(db: Db, m: Move, now: int, e: Engine)
    requires Allowed(db, m, now, e) && m.fate == Moved
    ensures HasCommand(Effect(db, m, now).outbox, FromBytes(m.key)) <==> !Displaced(db, FromBytes(m.key))
    ensures Matched(db) ==> !Displaced(db, FromBytes(m.key))
  {
    var id := FromBytes(m.key);
    PutCommandGives(db.outbox, db.nextCommand, db.message[id].local, id, JobOf(m), now);
    if Matched(db) && db.message[id].local in db.outbox { assert HasCommand(db.outbox, id); }
  }

  lemma TakenIsSettled(db: Db, m: Move, now: int, e: Engine)
    requires Allowed(db, m, now, e) && Matched(db) && m.fate != Kept
    ensures Settled(Effect(db, m, now), m.key)
  {
    if m.fate == Moved { MovedExactly(db, m, now, e); }
  }

  lemma {:induction false} TakenAreSettled(
    db: Db, ms: seq<Move>, now: int, io: (nat, seq<Byte>) -> Engine, n: nat)
    requires Happened(db, ms, now, io) && Matched(db) && n < |ms| && ms[n].fate != Kept
    ensures Settled(Replayed(db, ms, now), ms[n].key)
  {
    var init, last := ms[..|ms| - 1], ms[|ms| - 1];
    var before := Replayed(db, init, now);
    EffectEvolves(before, last, now);
    if n < |init| {
      TakenAreSettled(db, init, now, io, n);
      SettledStays(before, Replayed(db, ms, now), ms[n].key);
    } else {
      ReplayEvolves(db, init, now);
      MatchedStays(db, before);
      TakenIsSettled(before, last, now, io(last.queue, last.key));
    }
  }

  // ----- a moved item's payload is what will be sent -----

  /** The command under the message's local id is the message's own, due, and carries the payload. */
  predicate Carries(db: Db, m: Move) {
    var id := FromBytes(m.key);
    && id in db.message && db.message[id].status == SENDING && db.message[id].local > 0
    && db.message[id].local in db.outbox
    && var c := db.outbox[db.message[id].local]; c.messageId == id && c.payload == m.payload && c.nextAttempt == 0
  }

  lemma MovedCarries(db: Db, m: Move, now: int, e: Engine)
    requires Allowed(db, m, now, e) && m.fate == Moved && Matched(db)
    ensures Carries(Effect(db, m, now), m)
  {
  }

  /** What one move writes: a moved item's message is sending with a command of its queue's kind, new or
      renewed; one set aside is failed; nothing else changes. */
  lemma EffectColumns(db: Db, m: Move, now: int, e: Engine)
    requires Allowed(db, m, now, e)
    ensures
      var id, db' := FromBytes(m.key), Effect(db, m, now);
      && (m.fate == Moved ==>
            && db'.message == db.message[id := db.message[id].(status := 1, updatedAt := now)]
            && IsQueued(db.outbox, db.nextCommand, db.message[id].local, id,
                        Job(if m.queue == 0 then "message" else "attachment", 0, m.payload, None), now, db'.outbox))
      && (m.fate == Quarantined ==>
            db' == db.(message := db.message[id := db.message[id].(status := 3, updatedAt := now)]))
      && (m.fate != Moved && m.fate != Quarantined ==> db' == db)
  {
    EnqueueQueues(db, FromBytes(m.key), JobOf(m), now);
  }

  /** A command of this kind and of this item's message. */
  predicate IsOf(c: Command, m: Move) {
    m.fate == Moved && c.messageId == FromBytes(m.key) && c.kind == (if m.queue == 0 then "message" else "attachment")
  }

  /** Every command the move adds is of the kind of a queue its item was in: the messages of the first queue
      are sent as messages, those of the others as attachments. */
  lemma {:induction false} NewCommandsAreOfTheirQueue(db: Db, ms: seq<Move>, now: int)
    ensures
      forall c :: c in Replayed(db, ms, now).outbox && c !in db.outbox ==>
        exists n :: 0 <= n < |ms| && IsOf(Replayed(db, ms, now).outbox[c], ms[n])
  {
    if ms != [] {
      var init, last := ms[..|ms| - 1], ms[|ms| - 1];
      var before, after := Replayed(db, init, now), Replayed(db, ms, now);
      NewCommandsAreOfTheirQueue(db, init, now);
      EffectEvolves(before, last, now);
      forall c | c in after.outbox && c !in db.outbox
        ensures exists n :: 0 <= n < |ms| && IsOf(after.outbox[c], ms[n])
      {
        if c in before.outbox {
          var n :| 0 <= n < |init| && IsOf(before.outbox[c], init[n]);
          assert IsOf(after.outbox[c], ms[n]);
        } else {
          NewCommandIsOfMove(before, last, now, c);
          assert IsOf(after.outbox[c], ms[|ms| - 1]);
        }
      }
    }
  }

  lemma NewCommandIsOfMove(db: Db, m: Move, now: int, c: nat)
    requires c in Effect(db, m, now).outbox && c !in db.outbox
    ensures IsOf(Effect(db, m, now).outbox[c], m)
  {
    EnqueueQueues(db, FromBytes(m.key), JobOf(m), now);
    if m.fate == Moved {
      var local, after := db.message[FromBytes(m.key)].local, Effect(db, m, now).outbox;
      assert c == local by { assert c in after - {local} <==> c != local; }
    }
  }

  lemma OtherMovesKeep(db: Db, m: Move, other: Move, now: int, e: Engine)
    requires Carries(db, m) && Matched(db) && Allowed(db, other, now, e) && |m.key| == 8
    requires other.fate == Moved ==> other.key != m.key
    ensures Carries(Effect(db, other, now), m)
  {
    if other.fate == Moved && FromBytes(m.key) == FromBytes(other.key) { FromBytesIsInjective(m.key, other.key); }
  }

  /** No later move of the same item replaced it: an item may be in several queues. */
  predicate LastMoved(ms: seq<Move>, n: nat) {
    && n < |ms| && ms[n].fate == Moved && |ms[n].key| == 8
    && forall k :: n < k < |ms| && ms[k].fate == Moved ==> ms[k].key != ms[n].key
  }

  lemma {:induction false} LastMovedCarries(
    db: Db, ms: seq<Move>, now: int, io: (nat, seq<Byte>) -> Engine, n: nat)
    requires Happened(db, ms, now, io) && Matched(db) && LastMoved(ms, n)
    ensures Carries(Replayed(db, ms, now), ms[n])
  {
    var init, last := ms[..|ms| - 1], ms[|ms| - 1];
    var before := Replayed(db, init, now);
    ReplayEvolves(db, init, now);
    MatchedStays(db, before);
    if n < |init| {
      assert forall k :: 0 <= k < |init| ==> init[k] == ms[k];
      LastMovedCarries(db, init, now, io, n);
      OtherMovesKeep(before, ms[n], last, now, io(last.queue, last.key));
    } else {
      MovedCarries(before, last, now, io(last.queue, last.key));
    }
  }

  // ----- counting -----

  function Number(ms: seq<Move>, fate: Fate): nat {
    if ms == [] then 0 else Number(ms[..|ms| - 1], fate) + if ms[|ms| - 1].fate == fate then 1 else 0
  }

  lemma {:induction false} NumbersAdd(a: seq<Move>, b: seq<Move>, fate: Fate)
    ensures Number(a + b, fate) == Number(a, fate) + Number(b, fate)
  {
    if b == [] {
      assert a + b == a;
    } else {
      NumbersAdd(a, b[..|b| - 1], fate);
      assert (a + b)[..|a + b| - 1] == a + b[..|b| - 1];
    }
  }

  function Counted(c: Counts, fate: Fate): Counts {
    match fate
    case Malformed => c.(quarantined := c.quarantined + 1)
    case Rowless => c
    case Moved => c.(moved := c.moved + 1)
    case Quarantined => c.(quarantined := c.quarantined + 1)
    case Kept => c.(remaining := c.remaining + 1)
  }

  /** `c` counts the moved and the quarantined of `ms` on top of `before`. */
  predicate Tallied(before: Counts, ms: seq<Move>, c: Counts) {
    && c.moved == before.moved + Number(ms, Moved)
    && c.quarantined == before.quarantined + Number(ms, Malformed) + Number(ms, Quarantined)
  }

  lemma TallyJoins(before: Counts, a: seq<Move>, between: Counts, b: seq<Move>, c: Counts)
    requires Tallied(before, a, between) && Tallied(between, b, c)
    ensures Tallied(before, a + b, c)
  {
    NumbersAdd(a, b, Moved);
    NumbersAdd(a, b, Malformed);
    NumbersAdd(a, b, Quarantined);
  }

  // ----- one queue -----

  function Keys(ms: seq<Move>): set<seq<Byte>> { set m | m in ms :: m.key }

  /** The items to be removed from their queue. */
  function Done(ms: seq<Move>): set<seq<Byte>> { set m | m in ms && m.fate != Kept :: m.key }

  /** The moves are of items of this queue, each at most once. */
  ghost predicate Lists(ms: seq<Move>, n: nat, queue: LegacyQueue) {
    && (forall m :: m in ms ==> m.queue == n && m.key in queue && m.payload == queue[m.key])
    && (forall i, j :: 0 <= i < j < |ms| ==> ms[i].key != ms[j].key)
  }

  /** One item. */
  method MoveItem(store: LocalStore, n: nat, key: seq<Byte>, payload: seq<Byte>, now: int, io: Engine)
    returns (fate: Option<Fate>)
    modifies store
    ensures
      fate.Some? ==>
        var m := Move(n, key, payload, fate.value);
        Allowed(old(store.Snapshot()), m, now, io) && store.Snapshot() == Effect(old(store.Snapshot()), m, now)
    ensures fate.None? ==> store.Snapshot() == old(store.Snapshot()) && !(io.next && io.row)
  {
    if !io.next { return None; }
    if |key| != 8 { return Some(Malformed); }
    var id := FromBytes(key);
    if !io.row { return None; }
    if id !in store.message { return Some(Rowless); }
    var r := store.OutboxEnqueue(id, Job(Kind(n), 0, payload, None), now, io.enqueue);
    match r {
      case Ok(_) => return Some(Moved);
      case Err(MissingLocalMessageId(_)) =>
        var marked := store.UpdateMessageStatus(id, FAILED, now, io.status);
        return Some(if marked.Ok? then Quarantined else Kept);
      case Err(_) => return Some(Kept);
    }
  }

  /** The moves made of one queue so far, and the store after them. */
  ghost predicate Progress(
    start: Db, db: Db, n: nat, queue: LegacyQueue, now: int, io: (nat, seq<Byte>) -> Engine, ms: seq<Move>)
  {
    Happened(start, ms, now, io) && db == Replayed(start, ms, now) && Lists(ms, n, queue)
  }

  lemma ItemProgresses(
    start: Db, db: Db, n: nat, queue: LegacyQueue, now: int, io: (nat, seq<Byte>) -> Engine, ms: seq<Move>, m: Move)
    requires Progress(start, db, n, queue, now, io, ms) && Allowed(db, m, now, io(n, m.key))
    requires m.queue == n && m.key in queue && m.payload == queue[m.key] && m.key !in Keys(ms)
    ensures Progress(start, Effect(db, m, now), n, queue, now, io, ms + [m])
  {
    OneMoreMove(start, ms, m, now, io);
    OneMoreListed(ms, n, queue, m);
  }

  lemma OneMoreListed(ms: seq<Move>, n: nat, queue: LegacyQueue, m: Move)
    requires Lists(ms, n, queue) && m.queue == n && m.key in queue && m.payload == queue[m.key] && m.key !in Keys(ms)
    ensures Lists(ms + [m], n, queue)
  {
    forall x ensures x in ms + [m] <==> x in ms || x == m {}
    forall i | 0 <= i < |ms| ensures ms[i].key != m.key { assert ms[i] in ms; }
  }

  /** An item of the queue or its row could not be read. */
  ghost predicate Unread(queue: LegacyQueue, n: nat, io: (nat, seq<Byte>) -> Engine) {
    exists k :: k in queue && !(io(n, k).next && io(n, k).row)
  }

  /** What stops the move at a queue. */
  ghost predicate Fails(
    queue: LegacyQueue, n: nat, io: (nat, seq<Byte>) -> Engine, open: nat -> bool, flush: nat -> bool)
  {
    !open(n) || !flush(n) || Unread(queue, n, io)
  }

  /** Move the items one after the other; `done` are those not to be tried again. A failed read stops
      the move. */
  method MoveItems(
    store: LocalStore, n: nat, queue: LegacyQueue, now: int, io: (nat, seq<Byte>) -> Engine, before: Counts)
    returns (ok: bool, done: set<seq<Byte>>, counts: Counts, ghost ms: seq<Move>)
    modifies store
    ensures Progress(old(store.Snapshot()), store.Snapshot(), n, queue, now, io, ms)
    ensures done == Done(ms) <= queue.Keys && Tallied(before, ms, counts)
    ensures ok ==> Keys(ms) == queue.Keys && counts.remaining + |done| == before.remaining + |queue|
    ensures !ok ==> Unread(queue, n, io)
  {
    ghost var start := store.Snapshot();
    counts, done, ok, ms := before, {}, true, [];
    var todo := queue.Keys;
    while todo != {}
      invariant Progress(start, store.Snapshot(), n, queue, now, io, ms)
      invariant Halfway(queue, ms, todo, done, before, counts)
      decreases todo
    {
      var k :| k in todo;
      ghost var db := store.Snapshot();
      var fate := MoveItem(store, n, k, queue[k], now, io(n, k));
      if fate.None? { return false, done, counts, ms; }
      ghost var m := Move(n, k, queue[k], fate.value);
      ItemProgresses(start, db, n, queue, now, io, ms, m);
      ItemCounted(queue, ms, todo, done, before, counts, m);
      ms := ms + [m];
      counts := Counted(counts, fate.value);
      if fate.value != Kept { done := done + {k}; }
      todo := todo - {k};
    }
  }

  /** `todo` are the items not yet tried. */
  ghost predicate Halfway(
    queue: LegacyQueue, ms: seq<Move>, todo: set<seq<Byte>>, done: set<seq<Byte>>, before: Counts, counts: Counts)
  {
    && todo <= queue.Keys && Keys(ms) == queue.Keys - todo && done == Done(ms) <= Keys(ms)
    && Tallied(before, ms, counts) && counts.remaining + |done| + |todo| == before.remaining + |queue|
  }

  lemma ItemCounted(
    queue: LegacyQueue, ms: seq<Move>, todo: set<seq<Byte>>, done: set<seq<Byte>>, before: Counts, counts: Counts,
    m: Move)
    requires Halfway(queue, ms, todo, done, before, counts) && m.key in todo
    ensures
      var done' := if m.fate == Kept then done else done + {m.key};
      Halfway(queue, ms + [m], todo - {m.key}, done', before, Counted(counts, m.fate))
  {
    OneMoreTallied(before, ms, counts, m);
    KeysGrow(ms, m);
    OneLessToDo(queue.Keys, todo, done, m.key);
  }

  lemma OneLessToDo(all: set<seq<Byte>>, todo: set<seq<Byte>>, done: set<seq<Byte>>, k: seq<Byte>)
    requires todo <= all && k in todo && done <= all - todo
    ensures all - (todo - {k}) == all - todo + {k} && |todo - {k}| == |todo| - 1
    ensures k !in done && |done + {k}| == |done| + 1
  {
  }

  lemma KeysGrow(ms: seq<Move>, m: Move)
    ensures Keys(ms + [m]) == Keys(ms) + {m.key}
    ensures Done(ms + [m]) == Done(ms) + if m.fate == Kept then {} else {m.key}
  {
    forall x ensures x in ms + [m] <==> x in ms || x == m {}
  }

  lemma OneMoreTallied(before: Counts, ms: seq<Move>, c: Counts, m: Move)
    requires Tallied(before, ms, c)
    ensures Tallied(before, ms + [m], Counted(c, m.fate))
  {
    assert (ms + [m])[..|ms|] == ms;
  }

  /** Remove the items done with; one that cannot be removed is still there and counts as remaining. */
  method RemoveItems(queue: LegacyQueue, done: set<seq<Byte>>, n: nat, io: (nat, seq<Byte>) -> Engine)
    returns (left: LegacyQueue, stuck: nat)
    requires done <= queue.Keys
    ensures left.Keys <= queue.Keys && forall k :: k in left ==> left[k] == queue[k]
    ensures forall k :: k in queue ==> (k in left <==> k !in done || !io(n, k).remove)
    ensures |left| + |done| == |queue| + stuck
  {
    left, stuck := queue, 0;
    var todo := done;
    while todo != {}
      invariant todo <= done && left.Keys <= queue.Keys && forall k :: k in left ==> left[k] == queue[k]
      invariant forall k :: k in queue ==> (k in left <==> k !in done || k in todo || !io(n, k).remove)
      invariant |left| + |done| == |queue| + |todo| + stuck
      decreases todo
    {
      var k :| k in todo;
      if io(n, k).remove {
        assert left.Keys == (left - {k}).Keys + {k};
        left := left - {k};
      } else {
        stuck := stuck + 1;
      }
      todo := todo - {k};
    }
  }

  /** What is left of a queue: every item with its payload but those done with; the whole queue when not
      all items were tried; and, when it was gone through to the end, none of those done with that could
      be removed. */
  ghost predicate Leaves(
    queue: LegacyQueue, left: LegacyQueue, n: nat, ms: seq<Move>, io: (nat, seq<Byte>) -> Engine, toTheEnd: bool)
  {
    && left.Keys <= queue.Keys && (forall k :: k in left ==> left[k] == queue[k])
    && (forall k :: k in queue && k !in left ==> k in Done(ms)) && (Keys(ms) != queue.Keys ==> left == queue)
    && (toTheEnd ==>
          Keys(ms) == queue.Keys && forall k :: k in queue ==> (k in left <==> k !in Done(ms) || !io(n, k).remove))
  }

  /** One queue. Items are removed only after all were moved, so a failed read leaves the whole queue
      in place to be run again. */
  method DrainQueue(
    store: LocalStore, n: nat, queue: LegacyQueue, now: int, io: (nat, seq<Byte>) -> Engine, open: nat -> bool,
    flush: nat -> bool, before: Counts)
    returns (ok: bool, left: LegacyQueue, counts: Counts, ghost ms: seq<Move>)
    modifies store
    ensures Progress(old(store.Snapshot()), store.Snapshot(), n, queue, now, io, ms)
    ensures Leaves(queue, left, n, ms, io, ok) && Tallied(before, ms, counts)
    ensures ok ==> counts.remaining == before.remaining + |left|
    ensures !ok ==> Fails(queue, n, io, open, flush)
  {
    if !open(n) { return false, queue, before, []; }
    var done: set<seq<Byte>>;
    ok, done, counts, ms := MoveItems(store, n, queue, now, io, before);
    if !ok { return ok, queue, counts, ms; }
    var stuck: nat;
    left, stuck := RemoveItems(queue, done, n, io);
    counts := counts.(remaining := counts.remaining + stuck);
    ok := flush(n);
  }

  // ----- all queues -----

  function Joined(trace: seq<seq<Move>>): seq<Move> {
    if trace == [] then [] else Joined(trace[..|trace| - 1]) + trace[|trace| - 1]
  }

  lemma JoinOneMore(trace: seq<seq<Move>>, ms: seq<Move>)
    ensures Joined(trace + [ms]) == Joined(trace) + ms
  {
    assert (trace + [ms])[..|trace|] == trace;
  }

  function Total(queues: seq<LegacyQueue>): nat {
    if queues == [] then 0 else Total(queues[..|queues| - 1]) + |queues[|queues| - 1]|
  }

  /** `trace[n]` are the moves of queue n. Queues not reached are as they were. */
  ghost predicate Accounts(
    queues: seq<LegacyQueue>, left: seq<LegacyQueue>, trace: seq<seq<Move>>, io: (nat, seq<Byte>) -> Engine)
  {
    && |left| == |queues| >= |trace|
    && (forall n :: 0 <= n < |trace| ==>
          Lists(trace[n], n, queues[n]) && Leaves(queues[n], left[n], n, trace[n], io, false))
    && (forall n :: |trace| <= n < |queues| ==> left[n] == queues[n])
  }

  /** All of them were gone through to the end. */
  ghost predicate Completes(
    queues: seq<LegacyQueue>, left: seq<LegacyQueue>, trace: seq<seq<Move>>, io: (nat, seq<Byte>) -> Engine)
  {
    |left| == |queues| == |trace| && forall n :: 0 <= n < |trace| ==> Leaves(queues[n], left[n], n, trace[n], io, true)
  }

  /** The queue of messages, then those of attachments. The new store is that of the moves made, each
      with a reason for its fate; items leave their queue only when done with, whether the move completes
      or stops; it stops only where an engine fails; and when it completes, every item was tried once, and
      the counts are those of the fates and of the items left. */
  method MigrateQueues(
    store: LocalStore, messages: LegacyQueue, attachments: seq<LegacyQueue>, now: int,
    io: (nat, seq<Byte>) -> Engine, open: nat -> bool, flush: nat -> bool)
    returns (ok: bool, left: seq<LegacyQueue>, counts: Counts, ghost trace: seq<seq<Move>>)
    modifies store
    ensures Traced(old(store.Snapshot()), store.Snapshot(), trace, now, io)
    ensures Accounts([messages] + attachments, left, trace, io)
    ensures Evolves(old(store.Snapshot()), store.Snapshot())
    ensures Matched(old(store.Snapshot())) ==> NothingLost(store.Snapshot(), [messages] + attachments, left)
    ensures
      if ok then Through([messages] + attachments, left, trace, io, counts)
      else Stopped([messages] + attachments, trace, io, open, flush)
  {
    ghost var start := store.Snapshot();
    var queues := [messages] + attachments;
    ok, left, counts, trace := FirstQueue(store, queues, now, io, open, flush);
    while ok && |left| < |queues|
      invariant Traced(start, store.Snapshot(), trace, now, io)
      invariant Afterwards(queues, ok, left, counts, trace, io, open, flush)
      decreases ok, |queues| - |left|
    {
      ok, left, counts, trace := NextQueue(store, queues, left, now, io, open, flush, counts, start, trace);
    }
    AllReached(queues, ok, left, counts, trace, io, open, flush);
    TraceOutcome(start, store.Snapshot(), queues, left, trace, now, io);
  }

  /** The last queue reached is where an engine failed. */
  ghost predicate Stopped(
    queues: seq<LegacyQueue>, trace: seq<seq<Move>>, io: (nat, seq<Byte>) -> Engine, open: nat -> bool,
    flush: nat -> bool)
  {
    0 < |trace| <= |queues| && Fails(queues[|trace| - 1], |trace| - 1, io, open, flush)
  }

  /** The queues reached were gone through to the end, or all but the last, which stops the move. */
  ghost predicate Afterwards(
    queues: seq<LegacyQueue>, ok: bool, left: seq<LegacyQueue>, counts: Counts, trace: seq<seq<Move>>,
    io: (nat, seq<Byte>) -> Engine, open: nat -> bool, flush: nat -> bool)
  {
    if ok then |trace| <= |queues| && Through(queues[..|trace|], left, trace, io, counts)
    else Accounts(queues, left, trace, io) && Stopped(queues, trace, io, open, flush)
  }

  lemma AllReached(
    queues: seq<LegacyQueue>, ok: bool, left: seq<LegacyQueue>, counts: Counts, trace: seq<seq<Move>>,
    io: (nat, seq<Byte>) -> Engine, open: nat -> bool, flush: nat -> bool)
    requires Afterwards(queues, ok, left, counts, trace, io, open, flush) && (ok ==> |left| >= |queues|)
    ensures Accounts(queues, left, trace, io)
    ensures if ok then Through(queues, left, trace, io, counts) else Stopped(queues, trace, io, open, flush)
  {
    assert queues[..|queues|] == queues;
  }

  method FirstQueue(
    store: LocalStore, queues: seq<LegacyQueue>, now: int, io: (nat, seq<Byte>) -> Engine, open: nat -> bool,
    flush: nat -> bool)
    returns (ok: bool, left: seq<LegacyQueue>, counts: Counts, ghost trace: seq<seq<Move>>)
    requires |queues| > 0
    modifies store
    ensures |trace| == 1 && Traced(old(store.Snapshot()), store.Snapshot(), trace, now, io)
    ensures Afterwards(queues, ok, left, counts, trace, io, open, flush)
  {
    var rest: LegacyQueue;
    ghost var ms, start := [], store.Snapshot();
    ok, rest, counts, ms := DrainQueue(store, 0, queues[0], now, io, open, flush, Counts(0, 0, 0));
    FirstThrough(start, store.Snapshot(), queues, rest, ms, counts, now, io, ok);
    trace := [ms];
    left := [rest] + if ok then [] else queues[1..];
  }

  lemma FirstThrough(
    start: Db, db: Db, queues: seq<LegacyQueue>, rest: LegacyQueue, ms: seq<Move>, counts: Counts, now: int,
    io: (nat, seq<Byte>) -> Engine, ok: bool)
    requires |queues| > 0 && Progress(start, db, 0, queues[0], now, io, ms) && Leaves(queues[0], rest, 0, ms, io, ok)
    requires Tallied(Counts(0, 0, 0), ms, counts) && (ok ==> counts.remaining == |rest|)
    ensures Traced(start, db, [ms], now, io) && Accounts(queues, [rest] + queues[1..], [ms], io)
    ensures ok ==> Through(queues[..1], [rest] + [], [ms], io, counts)
  {
    JoinedOnce(ms);
    FirstAccounted(queues, rest, ms, io, ok);
    assert [rest] + [] == [rest];
    TotalOnce(rest);
  }

  lemma JoinedOnce(ms: seq<Move>)
    ensures Joined([ms]) == ms
  {
    assert [ms][..0] == [];
  }

  lemma TotalOnce(queue: LegacyQueue)
    ensures Total([queue]) == |queue|
  {
    assert [queue][..0] == [];
  }

  lemma FirstAccounted(
    queues: seq<LegacyQueue>, rest: LegacyQueue, ms: seq<Move>, io: (nat, seq<Byte>) -> Engine, ok: bool)
    requires |queues| > 0 && Lists(ms, 0, queues[0]) && Leaves(queues[0], rest, 0, ms, io, ok)
    ensures Accounts(queues, [rest] + queues[1..], [ms], io)
    ensures ok ==> Accounts(queues[..1], [rest], [ms], io) && Completes(queues[..1], [rest], [ms], io)
  {
    assert Leaves(queues[0], rest, 0, ms, io, false);
  }

  /** The next queue; when it stops the move, the queues after it stay as they are. */
  method NextQueue(
    store: LocalStore, queues: seq<LegacyQueue>, before: seq<LegacyQueue>, now: int, io: (nat, seq<Byte>) -> Engine,
    open: nat -> bool, flush: nat -> bool, counted: Counts, ghost start: Db, ghost done: seq<seq<Move>>)
    returns (ok: bool, left: seq<LegacyQueue>, counts: Counts, ghost trace: seq<seq<Move>>)
    requires |before| == |done| < |queues| && Through(queues[..|done|], before, done, io, counted)
    requires Traced(start, store.Snapshot(), done, now, io)
    modifies store
    ensures |trace| == |done| + 1 && Traced(start, store.Snapshot(), trace, now, io)
    ensures Afterwards(queues, ok, left, counts, trace, io, open, flush)
  {
    var n := |before|;
    var rest: LegacyQueue;
    ghost var ms, db := [], store.Snapshot();
    ok, rest, counts, ms := DrainQueue(store, n, queues[n], now, io, open, flush, counted);
    QueueTraced(start, db, store.Snapshot(), done, ms, n, queues[n], now, io);
    QueueThrough(queues, before, done, counted, rest, ms, counts, io, ok);
    trace := done + [ms];
    left := before + [rest] + if ok then [] else queues[n + 1..];
  }

  /** These queues were all gone through to the end. */
  ghost predicate Through(
    queues: seq<LegacyQueue>, left: seq<LegacyQueue>, trace: seq<seq<Move>>, io: (nat, seq<Byte>) -> Engine,
    counts: Counts)
  {
    && Completes(queues, left, trace, io) && Accounts(queues, left, trace, io)
    && Tallied(Counts(0, 0, 0), Joined(trace), counts) && counts.remaining == Total(left)
  }

  lemma QueueThrough(
    queues: seq<LegacyQueue>, left: seq<LegacyQueue>, trace: seq<seq<Move>>, before: Counts, rest: LegacyQueue,
    ms: seq<Move>, counts: Counts, io: (nat, seq<Byte>) -> Engine, ok: bool)
    requires |trace| < |queues| && Through(queues[..|trace|], left, trace, io, before)
    requires var n := |trace|; Lists(ms, n, queues[n]) && Leaves(queues[n], rest, n, ms, io, ok)
    requires Tallied(before, ms, counts) && (ok ==> counts.remaining == before.remaining + |rest|)
    ensures Accounts(queues, left + [rest] + queues[|trace| + 1..], trace + [ms], io)
    ensures ok ==> Through(queues[..|trace| + 1], left + [rest] + [], trace + [ms], io, counts)
  {
    assert left + [rest] + [] == left + [rest];
    QueueAccounted(queues, left, trace, rest, ms, io, ok);
    JoinOneMore(trace, ms);
    TallyJoins(Counts(0, 0, 0), Joined(trace), before, ms, counts);
    assert (left + [rest])[..|left|] == left;
  }

  lemma TraceOutcome(
    start: Db, db: Db, queues: seq<LegacyQueue>, left: seq<LegacyQueue>, trace: seq<seq<Move>>, now: int,
    io: (nat, seq<Byte>) -> Engine)
    requires Traced(start, db, trace, now, io) && Accounts(queues, left, trace, io)
    ensures Evolves(start, db) && (Matched(start) ==> NothingLost(db, queues, left))
  {
    ReplayEvolves(start, Joined(trace), now);
    if Matched(start) { TakenAreNotLost(start, queues, left, trace, now, io); }
  }

  /** The moves made so far, over all queues, and the store after them. */
  ghost predicate Traced(start: Db, db: Db, trace: seq<seq<Move>>, now: int, io: (nat, seq<Byte>) -> Engine) {
    Happened(start, Joined(trace), now, io) && db == Replayed(start, Joined(trace), now)
  }

  lemma QueueTraced(
    start: Db, db: Db, db': Db, trace: seq<seq<Move>>, ms: seq<Move>, n: nat, queue: LegacyQueue, now: int,
    io: (nat, seq<Byte>) -> Engine)
    requires Traced(start, db, trace, now, io) && Progress(db, db', n, queue, now, io, ms)
    ensures Traced(start, db', trace + [ms], now, io) && Joined(trace + [ms]) == Joined(trace) + ms
  {
    MovesJoin(start, Joined(trace), ms, now, io);
    JoinOneMore(trace, ms);
  }

  /** One more queue, the last one if the move stops there. */
  lemma QueueAccounted(
    queues: seq<LegacyQueue>, left: seq<LegacyQueue>, trace: seq<seq<Move>>, rest: LegacyQueue, ms: seq<Move>,
    io: (nat, seq<Byte>) -> Engine, ok: bool)
    requires |trace| < |queues|
    requires var n := |trace|; Accounts(queues[..n], left, trace, io) && Completes(queues[..n], left, trace, io)
    requires var n := |trace|; Lists(ms, n, queues[n]) && Leaves(queues[n], rest, n, ms, io, ok)
    ensures Accounts(queues, left + [rest] + queues[|trace| + 1..], trace + [ms], io)
    ensures Accounts(queues[..|trace| + 1], left + [rest], trace + [ms], io)
    ensures ok ==> Completes(queues[..|trace| + 1], left + [rest], trace + [ms], io)
  {
    var n := |trace|;
    assert forall i :: 0 <= i < n ==> queues[..n][i] == queues[i] && queues[..n + 1][i] == queues[i];
    assert Leaves(queues[n], rest, n, ms, io, false);
  }

  /** Every item of every queue is still in its queue with its payload, or accounted for. */
  ghost predicate NothingLost(db: Db, queues: seq<LegacyQueue>, left: seq<LegacyQueue>) {
    && |left| == |queues|
    && forall n, k :: 0 <= n < |queues| && k in queues[n] ==>
         if k in left[n] then left[n][k] == queues[n][k] else Settled(db, k)
  }

  lemma {:induction false} MoveIsJoined(trace: seq<seq<Move>>, n: nat, m: Move) returns (i: nat)
    requires n < |trace| && m in trace[n]
    ensures i < |Joined(trace)| && Joined(trace)[i] == m
  {
    if n == |trace| - 1 {
      i :| 0 <= i < |trace[n]| && trace[n][i] == m;
      i := |Joined(trace[..n])| + i;
    } else {
      i := MoveIsJoined(trace[..|trace| - 1], n, m);
    }
  }

  lemma TakenAreNotLost(
    start: Db, queues: seq<LegacyQueue>, left: seq<LegacyQueue>, trace: seq<seq<Move>>, now: int,
    io: (nat, seq<Byte>) -> Engine)
    requires Happened(start, Joined(trace), now, io) && Matched(start) && Accounts(queues, left, trace, io)
    ensures NothingLost(Replayed(start, Joined(trace), now), queues, left)
  {
    forall n, k | 0 <= n < |queues| && k in queues[n]
      ensures if k in left[n] then left[n][k] == queues[n][k] else Settled(Replayed(start, Joined(trace), now), k)
    {
      if k !in left[n] {
        assert k in Done(trace[n]);
        var m :| m in trace[n] && m.fate != Kept && m.key == k;
        var i := MoveIsJoined(trace, n, m);
        TakenAreSettled(start, Joined(trace), now, io, i);
      }
    }
  }

  /** A completed move with engines that work leaves exactly the items whose message has a command under
      another id, and every item has the fate the store at the start decides. */
  lemma WorkingEnginesLeaveRenamed(
    start: Db, queues: seq<LegacyQueue>, left: seq<LegacyQueue>, trace: seq<seq<Move>>, now: int,
    io: (nat, seq<Byte>) -> Engine)
    requires Happened(start, Joined(trace), now, io) && Matched(start)
    requires Accounts(queues, left, trace, io) && Completes(queues, left, trace, io)
    requires forall n, k :: EngineWorks(io(n, k)) && io(n, k).remove
    ensures forall n, m :: 0 <= n < |trace| && m in trace[n] ==> m.fate == Verdict(start, m.key)
    ensures forall n, k :: 0 <= n < |queues| && k in queues[n] ==> (k in left[n] <==> Verdict(start, k) == Kept)
  {
    forall n, m | 0 <= n < |trace| && m in trace[n] ensures m.fate == Verdict(start, m.key) {
      var i := MoveIsJoined(trace, n, m);
      FatesAreVerdicts(start, Joined(trace), now, io, i);
    }
    forall n, k | 0 <= n < |queues| && k in queues[n] ensures k in left[n] <==> Verdict(start, k) == Kept {
      assert Leaves(queues[n], left[n], n, trace[n], io, true);
      assert k in Keys(trace[n]);
      var m :| m in trace[n] && m.key == k;
      assert k in left[n] <==> k !in Done(trace[n]);
      if k in Done(trace[n]) {
        var d :| d in trace[n] && d.fate != Kept && d.key == k;
        assert d.fate == Verdict(start, d.key);
      } else {
        assert m.fate == Kept;
      }
    }
  }

  /** An item stays in its queue as long as its message's command stands under another id. When that
      command is acknowledged, rejected or dropped the next run moves the item. */
  lemma SettlingReleases(db: Db, key: seq<Byte>, server: nat, seqNo: nat, status: int, now: int)
    requires |key| == 8 && Renamed(db, FromBytes(key))
    ensures
      var id := FromBytes(key);
      && Verdict(db, key) == Kept && Verdict(Ack(db, id, server, seqNo, now).0, key) == Moved
      && Verdict(Reject(db, id, status, now), key) == Moved && Verdict(Drop(db, id), key) == Moved
      && Verdict(Bump(db, id, now, now), key) == Kept
  {
    var id := FromBytes(key);
    WithoutCommandsKeepsOthers(db.outbox, id, id);
    CommandsStay(db.outbox, Bump(db, id, now, now).outbox, id);
  }

  /** So a message already acknowledged is shown as sending and queued again, under its other local id. */
  lemma AcknowledgedIsQueuedAgain(db: Db, m: Move, server: nat, seqNo: nat, now: int, e: Engine)
    requires |m.key| == 8 && Renamed(db, FromBytes(m.key)) && m.fate == Moved
    ensures
      var id := FromBytes(m.key);
      var acked := Ack(db, id, server, seqNo, now).0;
      var db' := Effect(acked, m, now);
      && !HasCommand(acked.outbox, id) && acked.message[id].server == Some(server) && Allowed(acked, m, now, e)
      && db'.message[id].status == SENDING && HasCommand(db'.outbox, id) && db.message[id].local in db'.outbox
  {
    var id := FromBytes(m.key);
    WithoutCommandsKeepsOthers(db.outbox, id, id);
    var acked := Ack(db, id, server, seqNo, now).0;
    assert Effect(acked, m, now).outbox[db.message[id].local].messageId == id;
  }

  /** Running again after any run, however it ended, gives no message a second command: two commands of one
      message were both there before the first run. */
  lemma TwoRunsNoSecondCommand(db: Db, first: seq<Move>, early: int, second: seq<Move>, now: int)
    ensures
      var after := Replayed(Replayed(db, first, early), second, now);
      && Evolves(db, after)
      && (forall c, d ::
            c in after.outbox && d in after.outbox && c != d
            && after.outbox[c].messageId == after.outbox[d].messageId ==>
            c in db.outbox && d in db.outbox)
  {
    ReplayEvolves(db, first, early);
    ReplayEvolves(Replayed(db, first, early), second, now);
    EvolvesTwice(db, Replayed(db, first, early), Replayed(Replayed(db, first, early), second, now));
  }
}
