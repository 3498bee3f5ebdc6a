/** Storing one remote message: two lookups, a stale-order guard, the merge into the local row, the
    precision-ordered send time and the one-way revoke flag. */
module Upsert {
  import opened Tables
  import opened Canonical

  datatype Upserted = Upserted(messageId: nat, insertedNew: bool)

  /** Columns the UPDATE statement writes; the send time only gains precision. */
  function Merge(row: Message, inp: Input, now: int): Message {
    var takesTime := row.createdAt <= 0 || (inp.precision == Milliseconds && row.precision == Seconds);
    row.(server := Some(inp.server), local := inp.local, channel := inp.channel,
         channelType := inp.channelType, from := inp.from, body := inp.body,
         mime := if inp.mime.Some? then inp.mime else row.mime, status := inp.status, pts := inp.pts,
         orderSeq := inp.orderSeq, timestamp := inp.timestamp, updatedAt := now,
         createdAt := if takesTime then SentAtMs(inp.timestamp, now) else row.createdAt,
         precision := if takesTime then inp.precision else row.precision)
  }

  /** The row the INSERT statement makes; columns it does not name take the schema's defaults. */
  function NewRow(inp: Input, now: int): Message {
    Message(Some(inp.server), inp.local, inp.channel, inp.channelType, inp.from, inp.body, inp.mime,
            inp.status, inp.pts, inp.orderSeq, inp.timestamp, SentAtMs(inp.timestamp, now),
            inp.precision, now, false, 0)
  }

  /** The revoke flag is only ever set. */
  function FlagRevoked(extra: map<nat, Extra>, id: nat, inp: Input, now: int): map<nat, Extra> {
    if !inp.revoked then extra
    else if id in extra then
      extra[id := extra[id].(revoke := true, version := if extra[id].version < now then now else extra[id].version)]
    else extra[id := Extra(inp.channel, inp.channelType, false, 0, 0, true, now)]
  }

  /** An older copy must not regress a newer row. */
  predicate Stale(row: Message, inp: Input) {
    inp.orderSeq < row.orderSeq || (inp.orderSeq == row.orderSeq && inp.pts < row.pts)
  }

  /** An echo of a message of this account: its own row is looked up by the local id. */
  predicate SeeksOwn(uid: Option<nat>, inp: Input) { uid == Some(inp.from) && inp.local > 0 }

  /** The own row an echo of a sent message belongs to. */
  function OwnRow(db: Db, uid: Option<nat>, inp: Input): (r: Option<nat>)
    ensures
      r.Some? ==>
        r.value in db.message && db.message[r.value].from == inp.from && db.message[r.value].local == inp.local
  {
    if SeeksOwn(uid, inp) then FindLocal(db.message, inp.from, inp.local) else None
  }

  /** The row the message ends up in when the guard lets it through: the own row before the row
      already holding the server id; None when a row is inserted. */
  function Target(db: Db, uid: Option<nat>, inp: Input): (r: Option<nat>)
    ensures r.Some? ==> r.value in db.message
  {
    var own := OwnRow(db, uid, inp);
    if own.Some? then own else FindServer(db.message, inp.server)
  }

  /** The row the guard compares with: the row holding the server id before the own row. */
  function Guarded(db: Db, uid: Option<nat>, inp: Input): (r: Option<nat>)
    ensures r.Some? ==> r.value in db.message
  {
    var existed := FindServer(db.message, inp.server);
    if existed.Some? then existed else OwnRow(db, uid, inp)
  }

  /** Where an accepted message goes, and the row it becomes there. */
  function Placed(db: Db, uid: Option<nat>, inp: Input, now: int): (nat, Message) {
    var target := Target(db, uid, inp);
    if target.None? then (db.nextId, NewRow(inp, now))
    else (target.value, Merge(db.message[target.value], inp, now))
  }

  predicate Accepted(db: Db, uid: Option<nat>, inp: Input) {
    var guarded := Guarded(db, uid, inp);
    inp.server > 0 && (guarded.None? || !Stale(db.message[guarded.value], inp))
  }

  /** The message table once `row` holds `server` at `id` and no other row does. */
  function Stored(t: map<nat, Message>, id: nat, row: Message, server: nat): map<nat, Message> {
    (map i | i in t && t[i].server != Some(server) :: t[i])[id := row]
  }

  function Place(db: Db, id: nat, row: Message, inp: Input, now: int): Db {
    db.(message := Stored(db.message, id, row, inp.server),
        nextId := if id < db.nextId then db.nextId else id + 1,
        extra := FlagRevoked(db.extra, id, inp, now))
  }

  /** Outcome of one upsert: reject, keep the newer row, or place the message in one row and merge
      every other row holding its server id into it. */
  function Store(db: Db, uid: Option<nat>, inp: Input, now: int): (Db, Result<Upserted>) {
    var guarded := Guarded(db, uid, inp);
    if inp.server == 0 then (db, Err(InvalidState))
    else if !Accepted(db, uid, inp) then (db, Ok(Upserted(guarded.value, false)))
    else
      var (id, row) := Placed(db, uid, inp, now);
      (Place(db, id, row, inp, now), Ok(Upserted(id, guarded.None?)))
  }

  /** One message and the clock at its arrival. */
  datatype Delivery = Delivery(inp: Input, now: int)

  function Run(db: Db, uid: Option<nat>, ds: seq<Delivery>): Db {
    if ds == [] then db
    else Store(Run(db, uid, ds[..|ds| - 1]), uid, ds[|ds| - 1].inp, ds[|ds| - 1].now).0
  }

  // ----- identity -----

  lemma StoredKeepsUniqueServer(t: map<nat, Message>, id: nat, row: Message, server: nat)
    requires UniqueServer(t) && server > 0 && row.server == Some(server)
    ensures UniqueServer(Stored(t, id, row, server))
  {
  }

  /** An own row keeps its local id to itself: the only other row that could share it is the
      target of the step. */
  lemma StoreKeepsOwnUnique(db: Db, uid: nat, inp: Input, now: int)
    requires OwnUnique(db.message, uid) && Accepted(db, Some(uid), inp)
    ensures
      var (id, row) := Placed(db, Some(uid), inp, now);
      OwnUnique(Stored(db.message, id, row, inp.server), uid)
  {
    var (id, row) := Placed(db, Some(uid), inp, now);
    forall i | i in db.message && i != id && db.message[i].from == uid && db.message[i].local > 0
      ensures !(row.from == uid && row.local == db.message[i].local)
    {
    }
  }

  lemma PlaceKeepsSchema(db: Db, id: nat, row: Message, inp: Input, now: int)
    requires Schema(db) && inp.server > 0 && row.server == Some(inp.server) && id <= db.nextId
    ensures Schema(Place(db, id, row, inp, now))
  {
    StoredKeepsUniqueServer(db.message, id, row, inp.server);
  }

  /** Upserting never trips the unique index on server ids, keeps own local ids distinct, never
      touches the outbox, and changes no row but the target and the duplicates merged into it. */
  lemma StoreKeepsIdentity(db: Db, uid: nat, inp: Input, now: int)
    requires Schema(db)
    ensures
      var (db', r) := Store(db, Some(uid), inp, now);
      && Schema(db')
      && (OwnUnique(db.message, uid) ==> OwnUnique(db'.message, uid))
      && db'.outbox == db.outbox
      && (forall i :: i in db.message && (r.Err? || i != r.value.messageId) && db.message[i].server != Some(inp.server)
           ==> i in db'.message && db'.message[i] == db.message[i])
  {
    if Accepted(db, Some(uid), inp) {
      var (id, row) := Placed(db, Some(uid), inp, now);
      PlaceKeepsSchema(db, id, row, inp, now);
      if OwnUnique(db.message, uid) { StoreKeepsOwnUnique(db, uid, inp, now); }
    }
  }

  /** After a message is stored, exactly one row holds its server id, and for an echo of an own
      message still known by its local id that row is the own row. */
  lemma StoredOnce(db: Db, uid: Option<nat>, inp: Input, now: int)
    requires Schema(db) && inp.server > 0
    ensures
      var (db', r) := Store(db, uid, inp, now);
      && r.Ok?
      && (forall i :: i in db'.message && db'.message[i].server == Some(inp.server) ==> i == r.value.messageId)
      && (Accepted(db, uid, inp) ==>
            && FindServer(db'.message, inp.server) == Some(r.value.messageId)
            && (OwnRow(db, uid, inp).Some? ==> r.value.messageId == OwnRow(db, uid, inp).value)
            && ShowsInput(db'.message[r.value.messageId], inp))
  {
    var (db', r) := Store(db, uid, inp, now);
    if Accepted(db, uid, inp) { assert db'.message[r.value.messageId].server == Some(inp.server); }
  }

  // ----- what an upsert answers and writes, column by column -----

  /** No row holds the server id, and the message is not an echo of an own one. */
  ghost predicate Unknown(db: Db, uid: Option<nat>, inp: Input) {
    forall i :: i in db.message ==>
      db.message[i].server != Some(inp.server)
      && !(uid == Some(inp.from) && inp.local > 0 && db.message[i].from == inp.from && db.message[i].local == inp.local)
  }

  /** The store's version order. */
  predicate KeyLess(a: (int, int), b: (int, int)) { a.0 < b.0 || (a.0 == b.0 && a.1 < b.1) }

  function Key(inp: Input): (int, int) { (inp.orderSeq, inp.pts) }

  predicate IsNewer(row: Message, inp: Input) { KeyLess(Key(inp), (row.orderSeq, row.pts)) }

  /** An upsert answers with a row that exists afterwards, and says it is new exactly when it did not exist
      before, which is exactly when the message was not known in any way. It refuses only a missing server
      id, and leaves everything alone when the row holding the server id is newer. */
  lemma StoreAnswers(db: Db, uid: Option<nat>, inp: Input, now: int)
    requires Schema(db)
    ensures
      var (db', r) := Store(db, uid, inp, now);
      && (if inp.server == 0 then r == Err(InvalidState) && db' == db else r.Ok?)
      && (r.Ok? ==>
            && r.value.messageId in db'.message
            && (r.value.insertedNew <==> r.value.messageId !in db.message)
            && (r.value.insertedNew <==> Unknown(db, uid, inp))
            && (Accepted(db, uid, inp) || db' == db))
      && (forall i :: inp.server > 0 && i in db.message && db.message[i].server == Some(inp.server) ==>
            (Accepted(db, uid, inp) <==> !IsNewer(db.message[i], inp))
            && (IsNewer(db.message[i], inp) ==> r == Ok(Upserted(i, false))))
      && (inp.server > 0 && Unknown(db, uid, inp) ==> Accepted(db, uid, inp))
  {
    var existed := FindServer(db.message, inp.server);
    if existed.Some? { HeldOnce(db.message, inp.server, existed.value); }
  }

  /** When only the own row is there, its own version decides. */
  lemma OwnRowDecides(db: Db, uid: nat, inp: Input, now: int, i: nat)
    requires OwnUnique(db.message, uid) && inp.server > 0 && inp.from == uid && inp.local > 0
    requires forall j :: j in db.message ==> db.message[j].server != Some(inp.server)
    requires i in db.message && db.message[i].from == uid && db.message[i].local == inp.local
    ensures Accepted(db, Some(uid), inp) <==> !IsNewer(db.message[i], inp)
    ensures Store(db, Some(uid), inp, now).1 == Ok(Upserted(i, false))
  {
    LeastLocal(db.message, uid, inp.local, i);
  }

  /** The row and the extra row an accepted copy leaves, and nothing else anywhere. */
  lemma StoredColumns(db: Db, uid: Option<nat>, inp: Input, now: int)
    requires Schema(db) && Accepted(db, uid, inp)
    ensures
      var (db', r) := Store(db, uid, inp, now);
      var id := r.value.messageId;
      && id in db'.message && StoredRow(db.message, id, inp, now, db'.message[id])
      && StoredExtra(db.extra, id, inp, now, db'.extra)
      && db'.nextId == db.nextId + (if r.value.insertedNew then 1 else 0)
      && db' == db.(message := db'.message, nextId := db'.nextId, extra := db'.extra)
  {
    StoreAnswers(db, uid, inp, now);
  }

  /** What every copy writes, and what a row already there keeps: its media state, its mime type when the
      copy has none, and its send time unless the copy's is more precise or it had none. */
  predicate StoredRow(t: map<nat, Message>, id: nat, inp: Input, now: int, row: Message) {
    && row.server == Some(inp.server) && row.local == inp.local && row.channel == inp.channel
    && row.channelType == inp.channelType && row.from == inp.from && row.body == inp.body && row.status == inp.status
    && row.pts == inp.pts && row.orderSeq == inp.orderSeq && row.timestamp == inp.timestamp && row.updatedAt == now
    && (inp.mime.Some? ==> row.mime == inp.mime)
    && (if id in t then
          && row.mediaDownloaded == t[id].mediaDownloaded && row.thumbStatus == t[id].thumbStatus
          && (inp.mime.None? ==> row.mime == t[id].mime)
          && (t[id].createdAt > 0 && (t[id].precision == Milliseconds || inp.precision == Seconds) ==>
                row.createdAt == t[id].createdAt && row.precision == t[id].precision)
          && (t[id].createdAt <= 0 || (t[id].precision == Seconds && inp.precision == Milliseconds) ==>
                row.createdAt == SentAtMs(inp.timestamp, now) && row.precision == inp.precision)
        else
          && !row.mediaDownloaded && row.thumbStatus == 0 && row.mime == inp.mime
          && row.createdAt == SentAtMs(inp.timestamp, now) && row.precision == inp.precision)
  }

  /** A revoked copy flags the row's extra, making one if there is none; any other copy leaves all extras. */
  ghost predicate StoredExtra(before: map<nat, Extra>, id: nat, inp: Input, now: int, after: map<nat, Extra>) {
    && (!inp.revoked ==> after == before)
    && (inp.revoked ==>
          && id in after && after.Keys == before.Keys + {id} && after[id].revoke && after[id].version >= now
          && (forall i :: i in before && i != id ==> after[i] == before[i])
          && (if id in before
              then after[id].(revoke := false, version := 0) == before[id].(revoke := false, version := 0)
                && (after[id].version == now || after[id].version == before[id].version)
                && after[id].version >= before[id].version
              else after[id] == Extra(inp.channel, inp.channelType, false, 0, 0, true, now)))
  }

  predicate ShowsInput(row: Message, inp: Input) {
    && row.server == Some(inp.server) && row.local == inp.local && row.body == inp.body && row.pts == inp.pts
    && row.orderSeq == inp.orderSeq && row.status == inp.status && row.channel == inp.channel && row.from == inp.from
  }

  // ----- the same upsert with an engine that may fail -----

  /** Duplicates of the message outside its target row. */
  function Deduped(t: map<nat, Message>, id: nat, server: nat): map<nat, Message> {
    map i | i in t && (i == id || t[i].server != Some(server)) :: t[i]
  }

  /** The upsert when engine call k succeeds iff `io(k)`: 0 and 1 are the lookups, 2 the delete, 3
      the update or insert, 4 the revoke flag. There is no transaction around the calls, so a failed
      one leaves the effects of those before it. */
  function StoreIo(db: Db, uid: Option<nat>, inp: Input, now: int, io: nat -> bool): (Db, Result<Upserted>) {
    if inp.server == 0 then (db, Err(InvalidState))
    else if !io(0) || (SeeksOwn(uid, inp) && !io(1)) then (db, Err(Storage))
    else if !Accepted(db, uid, inp) then Store(db, uid, inp, now)
    else
      var (id, row) := Placed(db, uid, inp, now);
      var existed := FindServer(db.message, inp.server);
      if existed.Some? && existed.value != id && !io(2) then (db, Err(Storage))
      else if !io(3) then (db.(message := Deduped(db.message, id, inp.server)), Err(Storage))
      else if inp.revoked && !io(4) then (Place(db, id, row, inp, now).(extra := db.extra), Err(Storage))
      else Store(db, uid, inp, now)
  }

  lemma NoFaultsNoDifference(db: Db, uid: Option<nat>, inp: Input, now: int, io: nat -> bool)
    requires forall k :: io(k)
    ensures StoreIo(db, uid, inp, now, io) == Store(db, uid, inp, now)
  {
  }

  lemma FewerRowsKeepSchema(db: Db, t: map<nat, Message>)
    requires Schema(db) && t.Keys <= db.message.Keys && forall i :: i in t ==> t[i] == db.message[i]
    ensures Schema(db.(message := t))
  {
  }

  lemma OtherFlagsKeepSchema(db: Db, extra: map<nat, Extra>)
    requires Schema(db) && KeysBelow(extra.Keys, db.nextId)
    ensures Schema(db.(extra := extra))
  {
  }

  predicate LookupsWork(uid: Option<nat>, inp: Input, io: nat -> bool) {
    io(0) && (SeeksOwn(uid, inp) ==> io(1))
  }

  /** The message has two rows: its own, and another that holds its server id. */
  predicate Merges(db: Db, uid: Option<nat>, inp: Input) {
    OwnRow(db, uid, inp).Some? && FindServer(db.message, inp.server).Some?
    && OwnRow(db, uid, inp) != FindServer(db.message, inp.server)
  }

  /** The calls get as far as the update or insert. */
  predicate ReachesWrite(db: Db, uid: Option<nat>, inp: Input, io: nat -> bool) {
    Accepted(db, uid, inp) && LookupsWork(uid, inp, io) && (Merges(db, uid, inp) ==> io(2))
  }

  predicate Writes(db: Db, uid: Option<nat>, inp: Input, io: nat -> bool) { ReachesWrite(db, uid, inp, io) && io(3) }

  /** The duplicate is deleted and the own row is not updated. */
  predicate LosesDuplicate(db: Db, uid: Option<nat>, inp: Input, io: nat -> bool) {
    ReachesWrite(db, uid, inp, io) && Merges(db, uid, inp) && !io(3)
  }

  /** The row is written and the revocation is not. */
  predicate LosesFlag(db: Db, uid: Option<nat>, inp: Input, io: nat -> bool) {
    Writes(db, uid, inp, io) && inp.revoked && !io(4)
  }

  /** The calls all go through, as far as there are any to make. */
  predicate Completes(db: Db, uid: Option<nat>, inp: Input, io: nat -> bool) {
    && inp.server > 0 && LookupsWork(uid, inp, io)
    && (Accepted(db, uid, inp) ==> Writes(db, uid, inp, io) && !LosesFlag(db, uid, inp, io))
  }

  /** With unique server ids the duplicate is one row. */
  lemma DedupedIsWithout(t: map<nat, Message>, existed: nat, id: nat, server: nat)
    requires UniqueServer(t) && existed in t && t[existed].server == Some(server) && id != existed
    ensures Deduped(t, id, server) == t - {existed}
  {
  }

  lemma DedupedIsAll(t: map<nat, Message>, id: nat, server: nat)
    requires forall i :: i in t && i != id ==> t[i].server != Some(server)
    ensures Deduped(t, id, server) == t
  {
  }

  lemma SameRowsSameCounter(db: Db, uid: Option<nat>, inp: Input, now: int)
    requires Schema(db) && Accepted(db, uid, inp)
    ensures
      var all := Store(db, uid, inp, now).0;
      all.(extra := db.extra) == db <==> all.message == db.message
  {
    var all := Store(db, uid, inp, now).0;
    if all.message == db.message { assert Placed(db, uid, inp, now).0 in db.message; }
  }

  /** When an upsert fails, and exactly what it then leaves: no row under the server id when the
      duplicate was deleted, the whole effect but the flag when that was the last call (which differs
      from the old tables unless the row already held just this copy), and otherwise the old tables. */
  lemma StoreIoExactly(db: Db, uid: Option<nat>, inp: Input, now: int, io: nat -> bool)
    requires Schema(db)
    ensures
      var (db', r) := StoreIo(db, uid, inp, now, io);
      var (all, answer) := Store(db, uid, inp, now);
      var existed := FindServer(db.message, inp.server);
      && (r.Ok? <==> Completes(db, uid, inp, io))
      && (r.Ok? ==> (db', r) == (all, answer))
      && (r.Err? ==> r.error == if inp.server == 0 then InvalidState else Storage)
      && (LosesDuplicate(db, uid, inp, io) ==> db' == db.(message := db.message - {existed.value}) != db
                                                 && FindServer(db'.message, inp.server) == None)
      && (LosesFlag(db, uid, inp, io) ==>
            db' == all.(extra := db.extra) && (db' == db <==> all.message == db.message))
      && (r.Err? && !LosesDuplicate(db, uid, inp, io) && !LosesFlag(db, uid, inp, io) ==> db' == db)
  {
    var id := Placed(db, uid, inp, now).0;
    var existed := FindServer(db.message, inp.server);
    if Accepted(db, uid, inp) {
      if Merges(db, uid, inp) {
        DedupedIsWithout(db.message, existed.value, id, inp.server);
      } else {
        DedupedIsAll(db.message, id, inp.server);
      }
      if LosesFlag(db, uid, inp, io) { SameRowsSameCounter(db, uid, inp, now); }
    }
  }

  /** Either the specified rows are written, or there are at most fewer rows. */
  lemma StoreIoRows(db: Db, uid: Option<nat>, inp: Input, now: int, io: nat -> bool)
    ensures
      var db' := StoreIo(db, uid, inp, now, io).0;
      && db'.outbox == db.outbox
      && (Writes(db, uid, inp, io) ==> db'.message == Store(db, uid, inp, now).0.message)
      && (!Writes(db, uid, inp, io) ==>
            forall i :: i in db'.message ==> i in db.message && db'.message[i] == db.message[i])
  {
    var db' := StoreIo(db, uid, inp, now, io).0;
    if Accepted(db, uid, inp) && !Writes(db, uid, inp, io) {
      assert db'.message == db.message || db'.message == Deduped(db.message, Placed(db, uid, inp, now).0, inp.server);
    }
  }

  // ----- trying a failed upsert again -----

  lemma HeldOnce(t: map<nat, Message>, server: nat, id: nat)
    requires UniqueServer(t) && id in t && t[id].server == Some(server)
    ensures FindServer(t, server) == Some(id)
  {
  }

  lemma LeastLocal(t: map<nat, Message>, from: nat, local: nat, id: nat)
    requires id in t && t[id].from == from && t[id].local == local
    requires forall i :: i in t && t[i].from == from && t[i].local == local ==> id <= i
    ensures FindLocal(t, from, local) == Some(id)
  {
  }

  /** A row that already holds the message takes it again as it took it the first time. */
  lemma MergeAgain(row: Message, inp: Input, now: int, later: int)
    requires inp.timestamp > 0 || now == later
    ensures Merge(Merge(row, inp, now), inp, later) == Merge(row, inp, later)
    ensures Merge(NewRow(inp, now), inp, later) == NewRow(inp, later)
  {
  }

  /** Trying a failed upsert again, with an engine that works, gives what an undisturbed upsert would
      give at that time, unless the first attempt had deleted the duplicate and the own row has a newer
      version: then the retry is refused as stale and no row holds the server id any more. */
  lemma RetryExactly(db: Db, uid: Option<nat>, inp: Input, now: int, later: int, io: nat -> bool)
    requires Schema(db) && StoreIo(db, uid, inp, now, io).1.Err? && inp.server > 0
    requires inp.timestamp > 0 || now == later
    ensures
      var failed := StoreIo(db, uid, inp, now, io).0;
      var refused := LosesDuplicate(db, uid, inp, io) && Stale(db.message[OwnRow(db, uid, inp).value], inp);
      && (Store(failed, uid, inp, later).0 == Store(db, uid, inp, later).0 <==> !refused)
      && (refused ==> Store(failed, uid, inp, later).0 == failed && FindServer(failed.message, inp.server) == None)
  {
    StoreIoExactly(db, uid, inp, now, io);
    if LosesDuplicate(db, uid, inp, io) {
      RetryAfterDelete(db, uid, inp, now, later, io);
    } else if LosesFlag(db, uid, inp, io) {
      RetryAfterWrite(db, uid, inp, now, later);
    }
  }

  lemma RetryAfterDelete(db: Db, uid: Option<nat>, inp: Input, now: int, later: int, io: nat -> bool)
    requires Schema(db) && LosesDuplicate(db, uid, inp, io)
    ensures
      var failed := db.(message := db.message - {FindServer(db.message, inp.server).value});
      var stale := Stale(db.message[OwnRow(db, uid, inp).value], inp);
      && Store(failed, uid, inp, later).0 == (if stale then failed else Store(db, uid, inp, later).0)
      && Store(db, uid, inp, later).0 != failed
  {
    var existed, own := FindServer(db.message, inp.server).value, OwnRow(db, uid, inp).value;
    var failed := db.(message := db.message - {existed});
    assert FindServer(failed.message, inp.server) == None;
    LeastLocal(failed.message, inp.from, inp.local, own);
    var row := Merge(db.message[own], inp, later);
    assert Stored(failed.message, own, row, inp.server) == Stored(db.message, own, row, inp.server);
    assert Store(db, uid, inp, later).0.message[own].server == Some(inp.server);
  }

  /** After a write both lookups find the row written, and it is no newer than what it was given. */
  lemma WrittenIsFound(db: Db, uid: Option<nat>, inp: Input, now: int)
    requires Schema(db) && Accepted(db, uid, inp)
    ensures
      var (id, row) := Placed(db, uid, inp, now);
      var failed := db.(message := Stored(db.message, id, row, inp.server));
      && Target(failed, uid, inp) == Guarded(failed, uid, inp) == Some(id)
      && failed.message[id] == row && !Stale(row, inp)
  {
    var (id, row) := Placed(db, uid, inp, now);
    var t := Stored(db.message, id, row, inp.server);
    StoredKeepsUniqueServer(db.message, id, row, inp.server);
    HeldOnce(t, inp.server, id);
    if SeeksOwn(uid, inp) { LeastLocal(t, inp.from, inp.local, id); }
  }

  lemma StoredTwice(t: map<nat, Message>, id: nat, row: Message, again: Message, server: nat)
    requires row.server == Some(server)
    ensures Stored(Stored(t, id, row, server), id, again, server) == Stored(t, id, again, server)
  {
  }

  lemma LookupsReadMessages(a: Db, b: Db, uid: Option<nat>, inp: Input)
    requires a.message == b.message
    ensures Target(a, uid, inp) == Target(b, uid, inp) && Guarded(a, uid, inp) == Guarded(b, uid, inp)
  {
  }

  lemma RetryAfterWrite(db: Db, uid: Option<nat>, inp: Input, now: int, later: int)
    requires Schema(db) && Accepted(db, uid, inp)
    requires inp.timestamp > 0 || now == later
    ensures
      var failed := Store(db, uid, inp, now).0.(extra := db.extra);
      Store(failed, uid, inp, later).0 == Store(db, uid, inp, later).0
  {
    var (id, row) := Placed(db, uid, inp, now);
    var failed := Store(db, uid, inp, now).0.(extra := db.extra);
    WrittenIsFound(db, uid, inp, now);
    LookupsReadMessages(db.(message := failed.message), failed, uid, inp);
    var again := Placed(db, uid, inp, later).1;
    assert Placed(failed, uid, inp, later) == (id, Merge(row, inp, later));
    MergeAgain(if id in db.message then db.message[id] else row, inp, now, later);
    StoredTwice(db.message, id, row, again, inp.server);
  }

  lemma StoreKeepsSchema(db: Db, uid: Option<nat>, inp: Input, now: int)
    requires Schema(db)
    ensures Schema(Store(db, uid, inp, now).0)
  {
    if Accepted(db, uid, inp) {
      var (id, row) := Placed(db, uid, inp, now);
      PlaceKeepsSchema(db, id, row, inp, now);
    }
  }

  /** Even a failing upsert keeps the schema. */
  lemma StoreIoKeepsSchema(db: Db, uid: Option<nat>, inp: Input, now: int, io: nat -> bool)
    requires Schema(db)
    ensures Schema(StoreIo(db, uid, inp, now, io).0)
  {
    StoreIoExactly(db, uid, inp, now, io);
    StoreKeepsSchema(db, uid, inp, now);
    if LosesDuplicate(db, uid, inp, io) {
      FewerRowsKeepSchema(db, db.message - {FindServer(db.message, inp.server).value});
    } else if LosesFlag(db, uid, inp, io) {
      OtherFlagsKeepSchema(Store(db, uid, inp, now).0, db.extra);
    }
  }

  /** And own local ids stay distinct, and the outbox as it was. */
  lemma StoreIoKeepsIdentity(db: Db, uid: nat, inp: Input, now: int, io: nat -> bool)
    requires Schema(db)
    ensures
      var db' := StoreIo(db, Some(uid), inp, now, io).0;
      Schema(db') && db'.outbox == db.outbox && (OwnUnique(db.message, uid) ==> OwnUnique(db'.message, uid))
  {
    StoreIoKeepsSchema(db, Some(uid), inp, now, io);
    StoreIoExactly(db, Some(uid), inp, now, io);
    StoreKeepsIdentity(db, uid, inp, now);
  }

  /** One item of a batch: what arrived, how the engine behaved for it, and the clock. */
  datatype Item = Item(inp: Input, io: nat -> bool, now: int)

  /** Upserting the items one after the other: the tables and the results. */
  function StoreAll(db: Db, uid: Option<nat>, items: seq<Item>): (Db, seq<Result<Upserted>>) {
    if items == [] then (db, [])
    else
      var (before, rs) := StoreAll(db, uid, items[..|items| - 1]);
      var last := items[|items| - 1];
      var (after, r) := StoreIo(before, uid, last.inp, last.now, last.io);
      (after, rs + [r])
  }

  /** Every result of a batch that names a row says whether that item made it. */
  lemma {:induction false} BatchAnswers(db: Db, uid: Option<nat>, items: seq<Item>)
    requires Schema(db)
    ensures Schema(StoreAll(db, uid, items).0) && |StoreAll(db, uid, items).1| == |items|
    ensures
      forall n :: 0 <= n < |items| ==>
        var r, before := StoreAll(db, uid, items).1[n], StoreAll(db, uid, items[..n]).0;
        r.Ok? ==> (r.value.insertedNew <==> r.value.messageId !in before.message)
  {
    if items != [] {
      var init, last := items[..|items| - 1], items[|items| - 1];
      BatchAnswers(db, uid, init);
      var before := StoreAll(db, uid, init).0;
      StoreIoKeepsSchema(before, uid, last.inp, last.now, last.io);
      StoreIoExactly(before, uid, last.inp, last.now, last.io);
      StoreAnswers(before, uid, last.inp, last.now);
      forall n | 0 <= n < |items|
        ensures
          var r, held := StoreAll(db, uid, items).1[n], StoreAll(db, uid, items[..n]).0;
          r.Ok? ==> (r.value.insertedNew <==> r.value.messageId !in held.message)
      {
        if n < |init| { assert items[..n] == init[..n]; }
      }
    }
  }

  /** The inputs as items, under an engine and a clock for each. */
  function Items(inputs: seq<Input>, io: nat -> nat -> bool, now: nat -> int): (r: seq<Item>)
    ensures |r| == |inputs| && forall n :: 0 <= n < |r| ==> r[n] == Item(inputs[n], io(n), now(n))
  {
    seq(|inputs|, n requires 0 <= n < |inputs| => Item(inputs[n], io(n), now(n)))
  }

  function Deliveries(items: seq<Item>): seq<Delivery> {
    if items == [] then []
    else
      var last := items[|items| - 1];
      Deliveries(items[..|items| - 1]) + [Delivery(last.inp, last.now)]
  }

  lemma RunStep(db: Db, uid: Option<nat>, ds: seq<Delivery>, d: Delivery)
    ensures Run(db, uid, ds + [d]) == Store(Run(db, uid, ds), uid, d.inp, d.now).0
  {
    assert (ds + [d])[..|ds|] == ds;
  }

  /** A batch is a run of deliveries, and runs join: how deliveries are cut into batches does not
      matter. */
  lemma {:induction false} BatchIsRun(db: Db, uid: Option<nat>, before: seq<Delivery>, items: seq<Item>)
    requires forall n, k :: 0 <= n < |items| ==> items[n].io(k)
    ensures StoreAll(Run(db, uid, before), uid, items).0 == Run(db, uid, before + Deliveries(items))
  {
    if items == [] {
      assert before + Deliveries(items) == before;
    } else {
      var init, last := items[..|items| - 1], items[|items| - 1];
      BatchIsRun(db, uid, before, init);
      var ds := before + Deliveries(init);
      NoFaultsNoDifference(Run(db, uid, ds), uid, last.inp, last.now, last.io);
      RunStep(db, uid, ds, Delivery(last.inp, last.now));
      assert ds + [Delivery(last.inp, last.now)] == before + Deliveries(items);
    }
  }
}
