/** The store itself: methods that issue SQL statements one by one, inside a transaction or not,
    against an engine in which any call may fail. Each is proved to leave the tables its
    specification describes, and each transaction to leave them alone when it fails.

    The engine: `io(k)` says whether the k-th call of a method succeeds. The clock is `now`. */
module Store {
  import opened Tables
  import opened Canonical
  import opened Upsert
  import opened Outbox
  import opened Order
  import ReadCursor
  import Drain

  /** SELECT id FROM message WHERE server_message_id = ? LIMIT 1, scanning in key order. */
  method SelectByServer(t: map<nat, Message>, bound: nat, server: nat) returns (r: Option<nat>)
    requires KeysBelow(t.Keys, bound)
    ensures r == FindServer(t, server)
  {
    var i := 0;
    while i < bound
      invariant i <= bound
      invariant forall j :: j in t && j < i ==> t[j].server != Some(server)
    {
      if i in t && t[i].server == Some(server) {
        assert FindServer(t, server).Some?;
        return Some(i);
      }
      i := i + 1;
    }
    r := None;
  }

  /** SELECT id FROM message WHERE from_uid = ? AND local_message_id = ? LIMIT 1. */
  method SelectByLocal(t: map<nat, Message>, bound: nat, from: nat, local: nat) returns (r: Option<nat>)
    requires KeysBelow(t.Keys, bound)
    ensures r == FindLocal(t, from, local)
  {
    var i := 0;
    while i < bound
      invariant i <= bound
      invariant forall j :: j in t && j < i ==> !(t[j].from == from && t[j].local == local)
    {
      if i in t && t[i].from == from && t[i].local == local {
        assert FindLocal(t, from, local).Some?;
        return Some(i);
      }
      i := i + 1;
    }
    r := None;
  }

  /** Engine calls that all succeed. */
  ghost predicate Works(io: nat -> bool) { forall k :: io(k) }

  /** All or nothing: the specified tables and answer, or a storage error and the old tables, which
      takes a failing engine call. */
  ghost predicate Atomic<T>(before: Db, after: Db, r: Result<T>, spec: (Db, Result<T>), io: nat -> bool) {
    (after, r) == spec || (r == Err(Storage) && after == before && !Works(io))
  }

  /** Deleting the one row that holds the server id leaves what the specification calls deduped. */
  lemma OneDuplicate(t: map<nat, Message>, existed: nat, id: nat, row: Message, server: nat)
    requires UniqueServer(t) && existed in t && t[existed].server == Some(server) && id != existed
    ensures Deduped(t, id, server) == t - {existed} && Stored(t, id, row, server) == (t - {existed})[id := row]
  {
  }

  lemma NoDuplicate(t: map<nat, Message>, id: nat, row: Message, server: nat)
    requires forall i :: i in t && i != id ==> t[i].server != Some(server)
    ensures Deduped(t, id, server) == t && Stored(t, id, row, server) == t[id := row]
  {
  }

  /** UPDATE of one row, then its revoke flag. */
  function AfterUpdate(db: Db, id: nat, inp: Input, now: int, io: nat -> bool): (Db, Result<Upserted>)
    requires id in db.message
  {
    var updated := db.(message := db.message[id := Merge(db.message[id], inp, now)]);
    if !io(3) then (db, Err(Storage))
    else if inp.revoked && !io(4) then (updated, Err(Storage))
    else (updated.(extra := FlagRevoked(db.extra, id, inp, now)), Ok(Upserted(id, false)))
  }

  /** INSERT of a new row, then its revoke flag. */
  function AfterInsert(db: Db, inp: Input, now: int, io: nat -> bool): (Db, Result<Upserted>) {
    var inserted := db.(message := db.message[db.nextId := NewRow(inp, now)], nextId := db.nextId + 1);
    if !io(3) then (db, Err(Storage))
    else if inp.revoked && !io(4) then (inserted, Err(Storage))
    else (inserted.(extra := FlagRevoked(db.extra, db.nextId, inp, now)), Ok(Upserted(db.nextId, true)))
  }

  /** No other row holds the server id, so the unique index cannot object to an update of `id`. */
  predicate IndexFree(t: map<nat, Message>, id: nat, server: nat) {
    id in t && forall i :: i in t && i != id ==> t[i].server != Some(server)
  }

  /** Merging into the own row: delete the row that holds the server id, update the own row. */
  lemma MergeStatements(db: Db, uid: Option<nat>, inp: Input, now: int, io: nat -> bool, existed: nat, own: nat)
    requires Schema(db) && Accepted(db, uid, inp) && LookupsWork(uid, inp, io)
    requires FindServer(db.message, inp.server) == Some(existed) && OwnRow(db, uid, inp) == Some(own) && own != existed
    ensures
      var rest := db.(message := db.message - {existed});
      && IndexFree(rest.message, own, inp.server)
      && StoreIo(db, uid, inp, now, io) == if !io(2) then (db, Err(Storage)) else AfterUpdate(rest, own, inp, now, io)
  {
    var row := Merge(db.message[own], inp, now);
    OneDuplicate(db.message, existed, own, row, inp.server);
    var rest := db.(message := db.message - {existed});
    assert Place(db, own, row, inp, now) == rest.(message := rest.message[own := row],
      extra := FlagRevoked(db.extra, own, inp, now));
  }

  /** Updating the one row found. */
  lemma UpdateStatements(db: Db, uid: Option<nat>, inp: Input, now: int, io: nat -> bool, id: nat)
    requires Schema(db) && Accepted(db, uid, inp) && LookupsWork(uid, inp, io) && Target(db, uid, inp) == Some(id)
    requires FindServer(db.message, inp.server) == Some(id) || FindServer(db.message, inp.server) == None
    ensures IndexFree(db.message, id, inp.server) && StoreIo(db, uid, inp, now, io) == AfterUpdate(db, id, inp, now, io)
  {
    var row := Merge(db.message[id], inp, now);
    NoDuplicate(db.message, id, row, inp.server);
    assert Place(db, id, row, inp, now) == db.(message := db.message[id := row],
      extra := FlagRevoked(db.extra, id, inp, now));
  }

  lemma InsertStatements(db: Db, uid: Option<nat>, inp: Input, now: int, io: nat -> bool)
    requires Accepted(db, uid, inp) && LookupsWork(uid, inp, io) && Guarded(db, uid, inp) == None
    ensures StoreIo(db, uid, inp, now, io) == AfterInsert(db, inp, now, io)
  {
    var row := NewRow(inp, now);
    NoDuplicate(db.message, db.nextId, row, inp.server);
    assert Place(db, db.nextId, row, inp, now) ==
      db.(message := db.message[db.nextId := row], nextId := db.nextId + 1,
          extra := FlagRevoked(db.extra, db.nextId, inp, now));
  }

  /** The rows are due commands of the outbox, one at each place. */
  predicate AreAt(outbox: map<nat, Command>, kind: string, now: int, rows: seq<Command>, places: seq<Key>) {
    |rows| == |places| && forall n :: 0 <= n < |rows| ==>
      rows[n] in outbox.Values && Drain.IsDue(rows[n], kind, now) && Drain.PlaceOf(rows[n]) == places[n]
  }

  /** Commands of this kind whose time has come, oldest first; one left out is not older than any of them,
      which are then as many as asked for. */
  ghost predicate ListsOldestDue(outbox: map<nat, Command>, kind: string, limit: nat, now: int, rows: seq<Command>) {
    && |rows| <= limit
    && (forall n :: 0 <= n < |rows| ==> rows[n] in outbox.Values && rows[n].kind == kind && rows[n].nextAttempt <= now)
    && (forall m, n :: 0 <= m < n < |rows| ==> Drain.Older(rows[m], rows[n]))
    && (forall c :: c in outbox && outbox[c].kind == kind && outbox[c].nextAttempt <= now ==>
          outbox[c] in rows || (|rows| == limit && forall n :: 0 <= n < limit ==> !Drain.Older(outbox[c], rows[n])))
  }

  /** The rows at the places of a page are the oldest due commands. */
  lemma RowsAreOldestDue(outbox: map<nat, Command>, kind: string, limit: nat, now: int, rows: seq<Command>)
    requires AreAt(outbox, kind, now, rows, Drain.Peek(outbox, kind, limit, now)) && Schemed(outbox)
    ensures ListsOldestDue(outbox, kind, limit, now, rows)
  {
    var page := Drain.Peek(outbox, kind, limit, now);
    Drain.PageListsOldestDue(outbox, kind, limit, now);
    forall m, n | 0 <= m < n < |rows| ensures Drain.Older(rows[m], rows[n]) { Drain.PlacesAreAges(rows[m], rows[n]); }
    forall c | c in outbox && outbox[c].kind == kind && outbox[c].nextAttempt <= now
      ensures outbox[c] in rows || (|rows| == limit && forall n :: 0 <= n < limit ==> !Drain.Older(outbox[c], rows[n]))
    {
      if Drain.PlaceOf(outbox[c]) in page {
        var n :| 0 <= n < |page| && page[n] == Drain.PlaceOf(outbox[c]);
        SamePlaceSameRow(outbox, outbox[c], rows[n]);
      } else {
        forall n | 0 <= n < limit ensures !Drain.Older(outbox[c], rows[n]) {
          Drain.PlacesAreAges(outbox[c], rows[n]);
          Drain.PlacesAreAges(rows[n], outbox[c]);
        }
      }
    }
  }

  /** No two commands share a row id. */
  ghost predicate Schemed(outbox: map<nat, Command>) {
    forall c, d :: c in outbox && d in outbox && c != d ==> outbox[c].rowid != outbox[d].rowid
  }

  lemma SamePlaceSameRow(outbox: map<nat, Command>, a: Command, b: Command)
    requires Schemed(outbox) && a in outbox.Values && b in outbox.Values && Drain.PlaceOf(a) == Drain.PlaceOf(b)
    ensures a == b
  {
    assert Drain.PlaceOf(a).k2 == a.rowid && Drain.PlaceOf(b).k2 == b.rowid;
  }

  class LocalStore {
    const uid: Option<nat>
    var message: map<nat, Message>
    var nextId: nat
    var extra: map<nat, Extra>
    var outbox: map<nat, Command>
    var nextCommand: nat
    var channel: map<nat, Channel>
    var cursor: map<(nat, int), ChannelExtra>

    function Snapshot(): Db reads this {
      Db(message, nextId, extra, outbox, nextCommand, channel, cursor)
    }

    constructor (uid: Option<nat>)
      ensures Snapshot() == EMPTY && this.uid == uid
    {
      this.uid := uid;
      message, nextId, extra, outbox, nextCommand, channel, cursor := map[], 1, map[], map[], 1, map[], map[];
    }

    /** A committed transaction. */
    method Commit(tx: Db)
      modifies this
      ensures Snapshot() == tx
    {
      message, nextId, extra, outbox := tx.message, tx.nextId, tx.extra, tx.outbox;
      nextCommand, channel, cursor := tx.nextCommand, tx.channel, tx.cursor;
    }

    // ----- creating -----

    method CreateLocalMessage(m: NewMessage, local: nat, now: int, io: nat -> bool) returns (r: Result<nat>)
      modifies this
      ensures Atomic(old(Snapshot()), Snapshot(), r, Create(old(Snapshot()), m, local, now), io)
    {
      if !io(0) { return Err(Storage); }
      var id := nextId;
      message := message[id := LocalRow(m, local, 0, now)];
      nextId := id + 1;
      r := Ok(id);
    }

    method CreateLocalMessageQueued(m: NewMessage, local: nat, job: Job, now: int, io: nat -> bool)
      returns (r: Result<nat>)
      modifies this
      ensures Atomic(old(Snapshot()), Snapshot(), r, CreateQueued(old(Snapshot()), m, local, job, now), io)
    {
      if local == 0 { return Err(MissingLocalMessageId(0)); }
      if !io(0) { return Err(Storage); }
      var tx := Snapshot();
      if !io(1) { return Err(Storage); }
      var id := tx.nextId;
      tx := tx.(message := tx.message[id := LocalRow(m, local, SENDING, now)], nextId := id + 1);
      // the unique indexes on command_id and message_id
      if !io(2) || local in tx.outbox || HasCommand(tx.outbox, id) { return Err(Storage); }
      tx := tx.(outbox := tx.outbox[local := Command(tx.nextCommand, job.kind, id, m.channel, job.payload, job.route,
        0, 0, now, now)],
                nextCommand := tx.nextCommand + 1);
      if !io(3) { return Err(Storage); }
      Commit(tx);
      r := Ok(id);
    }

    // ----- storing remote messages -----

    /** Not a transaction: each statement stands when a later one fails. */
    method UpsertRemoteMessage(inp: Input, now: int, io: nat -> bool) returns (r: Result<Upserted>)
      requires Schema(Snapshot())
      modifies this
      ensures (Snapshot(), r) == StoreIo(old(Snapshot()), uid, inp, now, io)
    {
      if inp.server == 0 { return Err(InvalidState); }
      if !io(0) { return Err(Storage); }
      var existed := SelectByServer(message, nextId, inp.server);
      var own: Option<nat> := None;
      if uid == Some(inp.from) && inp.local > 0 {
        if !io(1) { return Err(Storage); }
        own := SelectByLocal(message, nextId, inp.from, inp.local);
      }
      assert own == OwnRow(Snapshot(), uid, inp);
      if existed.Some? {
        if Stale(message[existed.value], inp) { return Ok(Upserted(existed.value, false)); }
        if own.Some? && own.value != existed.value {
          MergeStatements(Snapshot(), uid, inp, now, io, existed.value, own.value);
          if !io(2) { return Err(Storage); }
          message := message - {existed.value};
          r := UpdateRow(own.value, inp, now, io);
        } else {
          UpdateStatements(Snapshot(), uid, inp, now, io, existed.value);
          r := UpdateRow(existed.value, inp, now, io);
        }
      } else if own.Some? {
        if Stale(message[own.value], inp) { return Ok(Upserted(own.value, false)); }
        UpdateStatements(Snapshot(), uid, inp, now, io, own.value);
        r := UpdateRow(own.value, inp, now, io);
      } else {
        InsertStatements(Snapshot(), uid, inp, now, io);
        if !io(3) { return Err(Storage); }
        var id := nextId;
        message, nextId := message[id := NewRow(inp, now)], id + 1;
        if inp.revoked && !io(4) { return Err(Storage); }
        extra := FlagRevoked(extra, id, inp, now);
        r := Ok(Upserted(id, true));
      }
    }

    /** UPDATE of one row and its revoke flag. The unique index on server ids cannot object. */
    method UpdateRow(id: nat, inp: Input, now: int, io: nat -> bool) returns (r: Result<Upserted>)
      requires IndexFree(message, id, inp.server)
      modifies this`message, this`extra
      ensures (Snapshot(), r) == AfterUpdate(old(Snapshot()), id, inp, now, io)
    {
      if !io(3) { return Err(Storage); }
      message := message[id := Merge(message[id], inp, now)];
      if inp.revoked && !io(4) { return Err(Storage); }
      extra := FlagRevoked(extra, id, inp, now);
      r := Ok(Upserted(id, false));
    }

    /** The same upsert inside a transaction, on the transaction's own tables. */
    static method UpsertOneInTx(begin: Db, uid: Option<nat>, inp: Input, now: int, io: nat -> bool)
      returns (tx: Db, r: Result<Upserted>)
      requires Schema(begin)
      ensures (tx, r) == StoreIo(begin, uid, inp, now, io)
    {
      tx := begin;
      if inp.server == 0 { return tx, Err(InvalidState); }
      if !io(0) { return tx, Err(Storage); }
      var existed := SelectByServer(tx.message, tx.nextId, inp.server);
      var own: Option<nat> := None;
      if uid == Some(inp.from) && inp.local > 0 {
        if !io(1) { return tx, Err(Storage); }
        own := SelectByLocal(tx.message, tx.nextId, inp.from, inp.local);
      }
      assert own == OwnRow(begin, uid, inp);
      if existed.Some? {
        if Stale(tx.message[existed.value], inp) { return tx, Ok(Upserted(existed.value, false)); }
        if own.Some? && own.value != existed.value {
          MergeStatements(begin, uid, inp, now, io, existed.value, own.value);
          if !io(2) { return tx, Err(Storage); }
          tx := tx.(message := tx.message - {existed.value});
          tx, r := UpdateRowInTx(tx, own.value, inp, now, io);
        } else {
          UpdateStatements(begin, uid, inp, now, io, existed.value);
          tx, r := UpdateRowInTx(tx, existed.value, inp, now, io);
        }
      } else if own.Some? {
        if Stale(tx.message[own.value], inp) { return tx, Ok(Upserted(own.value, false)); }
        UpdateStatements(begin, uid, inp, now, io, own.value);
        tx, r := UpdateRowInTx(tx, own.value, inp, now, io);
      } else {
        InsertStatements(begin, uid, inp, now, io);
        if !io(3) { return tx, Err(Storage); }
        var id := tx.nextId;
        tx := tx.(message := tx.message[id := NewRow(inp, now)], nextId := id + 1);
        if inp.revoked && !io(4) { return tx, Err(Storage); }
        tx := tx.(extra := FlagRevoked(tx.extra, id, inp, now));
        r := Ok(Upserted(id, true));
      }
    }

    static method UpdateRowInTx(begin: Db, id: nat, inp: Input, now: int, io: nat -> bool)
      returns (tx: Db, r: Result<Upserted>)
      requires IndexFree(begin.message, id, inp.server)
      ensures (tx, r) == AfterUpdate(begin, id, inp, now, io)
    {
      tx := begin;
      if !io(3) { return tx, Err(Storage); }
      tx := tx.(message := tx.message[id := Merge(tx.message[id], inp, now)]);
      if inp.revoked && !io(4) { return tx, Err(Storage); }
      tx := tx.(extra := FlagRevoked(tx.extra, id, inp, now));
      r := Ok(Upserted(id, false));
    }

    /** All items in one transaction: a failing item does not abort it, only `begin` (io 0) and
        `commit` (io 1) do. One clock for all items; `calls(n)` is the engine met by item n. */
    method BatchUpsertInner(inputs: seq<Input>, now: int, io: nat -> bool, calls: nat -> nat -> bool)
      returns (r: Option<seq<Result<Upserted>>>)
      requires Schema(Snapshot())
      modifies this
      ensures
        if io(0) && io(1)
        then r.Some? && (Snapshot(), r.value) == StoreAll(old(Snapshot()), uid, Items(inputs, calls, k => now))
        else r.None? && Snapshot() == old(Snapshot())
    {
      if !io(0) { return None; }
      ghost var items := Items(inputs, calls, k => now);
      var tx := Snapshot();
      var results: seq<Result<Upserted>> := [];
      for n := 0 to |inputs|
        invariant Snapshot() == old(Snapshot()) && Schema(tx)
        invariant (tx, results) == StoreAll(old(Snapshot()), uid, items[..n])
      {
        StoreIoKeepsSchema(tx, uid, inputs[n], now, calls(n));
        assert items[..n + 1][..n] == items[..n] && items[..n + 1][n] == items[n];
        var result: Result<Upserted>;
        tx, result := UpsertOneInTx(tx, uid, inputs[n], now, calls(n));
        results := results + [result];
      }
      assert items[..|items|] == items;
      if !io(1) { return None; }
      Commit(tx);
      r := Some(results);
    }

    /** Batch equals fold: a transaction that commits leaves what upserting the items one by one at its
        clock would leave, with the same results; one that does not leaves nothing, and the items are
        upserted one by one, each with its own clock `later(n)` and engine calls `alone(n)`. */
    method BatchUpsertRemoteMessages(
      inputs: seq<Input>, now: int, io: nat -> bool, calls: nat -> nat -> bool, later: nat -> int,
      alone: nat -> nat -> bool)
      returns (results: seq<Result<Upserted>>)
      requires Schema(Snapshot())
      modifies this
      ensures
        var items := if io(0) && io(1) then Items(inputs, calls, k => now) else Items(inputs, alone, later);
        (Snapshot(), results) == StoreAll(old(Snapshot()), uid, items)
    {
      if inputs == [] { return []; }
      var batch := BatchUpsertInner(inputs, now, io, calls);
      if batch.Some? { return batch.value; }
      ghost var items := Items(inputs, alone, later);
      results := [];
      for n := 0 to |inputs|
        invariant Schema(Snapshot())
        invariant (Snapshot(), results) == StoreAll(old(Snapshot()), uid, items[..n])
      {
        StoreIoKeepsSchema(Snapshot(), uid, inputs[n], later(n), alone(n));
        assert items[..n + 1][..n] == items[..n] && items[..n + 1][n] == items[n];
        var result := UpsertRemoteMessage(inputs[n], later(n), alone(n));
        results := results + [result];
      }
      assert items[..|items|] == items;
    }

    // ----- outbound commands -----

    method OutboxEnqueue(id: nat, job: Job, now: int, io: nat -> bool) returns (r: Result<()>)
      modifies this
      ensures Atomic(old(Snapshot()), Snapshot(), r, Enqueue(old(Snapshot()), id, job, now), io)
    {
      if !io(0) { return Err(Storage); }
      var tx := Snapshot();
      if !io(1) { return Err(Storage); }
      var snowflake := if id in tx.message then tx.message[id].local else 0;
      if snowflake == 0 { return Err(MissingLocalMessageId(id)); }
      if !io(2) { return Err(Storage); }
      tx := tx.(message := tx.message[id := tx.message[id].(status := SENDING, updatedAt := now)]);
      var queued := InsertOrRenew(tx.outbox, tx.nextCommand, snowflake, id, job, now);
      if !io(3) || queued.None? { return Err(Storage); }
      tx := tx.(outbox := queued.value, nextCommand := tx.nextCommand + 1);
      if !io(4) { return Err(Storage); }
      Commit(tx);
      r := Ok(());
    }

    /** INSERT ... ON CONFLICT(command_id) DO UPDATE; the other unique index, on message_id, fails it. */
    static method InsertOrRenew(outbox: map<nat, Command>, next: nat, local: nat, id: nat, job: Job, now: int)
      returns (r: Option<map<nat, Command>>)
      ensures r == PutCommand(outbox, next, local, id, job, now)
    {
      if local in outbox {
        var c := outbox[local];
        return Some(outbox[local := c.(payload := job.payload, route := job.route, nextAttempt := 0,
          updatedAt := now)]);
      }
      if HasCommand(outbox, id) { return None; }
      r := Some(outbox[local := Command(next, job.kind, id, job.channel, job.payload, job.route, 0, 0, now, now)]);
    }

    method FinalizeAttachmentAndEnqueue(id: nat, content: string, thumbStatus: int, payload: seq<Byte>,
      route: string, now: int, io: nat -> bool)
      returns (r: Result<(nat, int)>)
      modifies this
      ensures Atomic(old(Snapshot()), Snapshot(), r,
        Finalize(old(Snapshot()), id, content, thumbStatus, payload, route, now), io)
    {
      if !io(0) { return Err(Storage); }
      var tx := Snapshot();
      if !io(1) || id !in tx.message { return Err(Storage); }
      var row := tx.message[id];
      if row.local == 0 { return Err(MissingLocalMessageId(id)); }
      if !io(2) { return Err(Storage); }
      tx := tx.(message := tx.message[id := row.(body := row.body.(content := content), thumbStatus := thumbStatus,
                                                 mediaDownloaded := true, status := SENDING, updatedAt := now)]);
      var queued := InsertOrRenew(tx.outbox, tx.nextCommand, row.local, id,
        Job("attachment", row.channel, payload, Some(route)), now);
      if !io(3) || queued.None? { return Err(Storage); }
      tx := tx.(outbox := queued.value, nextCommand := tx.nextCommand + 1);
      if !io(4) { return Err(Storage); }
      Commit(tx);
      r := Ok((row.channel, row.channelType));
    }

    /** The due commands with all their columns, in (created_at, id) order. */
    method OutboxPeek(kind: string, limit: nat, now: int, io: nat -> bool) returns (r: Result<seq<Command>>)
      ensures r.Err? <==> !io(0)
      ensures r.Ok? ==> AreAt(outbox, kind, now, r.value, Drain.Peek(outbox, kind, limit, now))
      ensures r.Ok? && Schemed(outbox) ==> ListsOldestDue(outbox, kind, limit, now, r.value)
    {
      if !io(0) { return Err(Storage); }
      var due := set c | c in outbox && outbox[c].kind == kind
        && outbox[c].nextAttempt <= now :: Drain.PlaceOf(outbox[c]);
      assert due == Drain.Due(outbox, kind, now);
      var page := Take(Sorted(due), limit);
      Drain.PageOfDue(outbox, kind, limit, now);
      var rows := ReadRows(outbox, kind, now, page);
      if Schemed(outbox) { RowsAreOldestDue(outbox, kind, limit, now, rows); }
      r := Ok(rows);
    }

    /** The rows of a page of due commands. */
    static method ReadRows(outbox: map<nat, Command>, kind: string, now: int, page: seq<Key>)
      returns (rows: seq<Command>)
      requires Elements(page) <= Drain.Due(outbox, kind, now)
      ensures AreAt(outbox, kind, now, rows, page)
    {
      rows := [];
      for n := 0 to |page|
        invariant AreAt(outbox, kind, now, rows, page[..n])
      {
        assert page[n] in Elements(page);
        var row := ReadRow(outbox, kind, now, page[n]);
        rows := rows + [row];
      }
      assert page[..|page|] == page;
    }

    static method ReadRow(outbox: map<nat, Command>, kind: string, now: int, place: Key) returns (row: Command)
      requires place in Drain.Due(outbox, kind, now)
      ensures row in outbox.Values && Drain.IsDue(row, kind, now) && Drain.PlaceOf(row) == place
    {
      var c :| c in outbox && Drain.IsDue(outbox[c], kind, now) && Drain.PlaceOf(outbox[c]) == place;
      row := outbox[c];
    }

    method OutboxAckSent(id: nat, server: nat, seqNo: nat, now: int, io: nat -> bool) returns (r: Result<()>)
      modifies this
      ensures Atomic(old(Snapshot()), Snapshot(), r, Ack(old(Snapshot()), id, server, seqNo, now), io)
    {
      if !io(0) { return Err(Storage); }
      var tx := Snapshot();
      if !io(1) { return Err(Storage); }
      tx := tx.(message := map i | i in tx.message
        && !(tx.message[i].server == Some(server) && i != id) :: tx.message[i]);
      if !io(2) || id !in tx.message { return Err(Storage); }
      tx := tx.(message := tx.message[id := tx.message[id].(server := Some(server), status := SENT, updatedAt := now,
        pts := seqNo, orderSeq := seqNo)]);
      if !io(3) { return Err(Storage); }
      tx := tx.(outbox := map c | c in tx.outbox && tx.outbox[c].messageId != id :: tx.outbox[c]);
      if !io(4) { return Err(Storage); }
      DedupeThenWrite(message, id, tx.message[id], server);
      assert tx.message == Stored(message, id, SentRow(message[id], server, seqNo, now), server);
      Commit(tx);
      r := Ok(());
    }

    method MarkMessageSent(id: nat, server: nat, seqNo: nat, now: int, io: nat -> bool) returns (r: Result<()>)
      modifies this
      ensures Atomic(old(Snapshot()), Snapshot(), r, MarkSent(old(Snapshot()), id, server, seqNo, now), io)
    {
      if !io(0) { return Err(Storage); }
      var tx := Snapshot();
      if !io(1) || id !in tx.message { return Err(Storage); }
      if !io(2) { return Err(Storage); }
      tx := tx.(message := map i | i in tx.message
        && !(tx.message[i].server == Some(server) && i != id) :: tx.message[i]);
      if !io(3) || id !in tx.message { return Err(Storage); }
      tx := tx.(message := tx.message[id := tx.message[id].(server := Some(server), status := SENT, updatedAt := now,
        pts := seqNo, orderSeq := seqNo)]);
      if !io(4) { return Err(Storage); }
      DedupeThenWrite(message, id, tx.message[id], server);
      assert tx.message == Stored(message, id, SentRow(message[id], server, seqNo, now), server);
      Commit(tx);
      r := Ok(());
    }

    method OutboxBumpRetry(id: nat, next: int, now: int, io: nat -> bool) returns (r: Result<()>)
      modifies this`outbox
      ensures Atomic(old(Snapshot()), Snapshot(), r, (Bump(old(Snapshot()), id, next, now), Ok(())), io)
    {
      if !io(0) { return Err(Storage); }
      outbox := map c | c in outbox ::
        if outbox[c].messageId != id then outbox[c]
        else outbox[c].(retries := outbox[c].retries + 1, nextAttempt := next, updatedAt := now);
      assert outbox == Bump(old(Snapshot()), id, next, now).outbox;
      r := Ok(());
    }

    method OutboxReject(id: nat, status: int, now: int, io: nat -> bool) returns (r: Result<()>)
      modifies this
      ensures Atomic(old(Snapshot()), Snapshot(), r, (Reject(old(Snapshot()), id, status, now), Ok(())), io)
    {
      if !io(0) { return Err(Storage); }
      var tx := Snapshot();
      if !io(1) { return Err(Storage); }
      if id in tx.message {
        tx := tx.(message := tx.message[id := tx.message[id].(status := status, updatedAt := now)]);
      }
      if !io(2) { return Err(Storage); }
      tx := tx.(outbox := map c | c in tx.outbox && tx.outbox[c].messageId != id :: tx.outbox[c]);
      if !io(3) { return Err(Storage); }
      Commit(tx);
      r := Ok(());
    }

    method OutboxReconcileSent(id: nat, server: nat, now: int, io: nat -> bool) returns (r: Result<()>)
      modifies this
      ensures Atomic(old(Snapshot()), Snapshot(), r, Reconcile(old(Snapshot()), id, server, now), io)
    {
      if !io(0) { return Err(Storage); }
      var tx := Snapshot();
      if !io(1) { return Err(Storage); }
      if id in tx.message {
        // the partial unique index on positive server ids
        var holders := set i | i in tx.message && tx.message[i].server == Some(server);
        assert forall i :: i in tx.message && tx.message[i].server == Some(server) ==> i in holders;
        if server > 0 && holders - {id} != {} {
          assert exists i :: i in message && i != id && message[i].server == Some(server);
          return Err(Storage);
        }
        assert forall i :: i in message && i != id && message[i].server == Some(server) && server > 0 ==>
          i in holders - {id};
        tx := tx.(message := tx.message[id := tx.message[id].(server := Some(server), status := SENT,
          updatedAt := now)]);
      }
      if !io(2) { return Err(Storage); }
      tx := tx.(outbox := map c | c in tx.outbox && tx.outbox[c].messageId != id :: tx.outbox[c]);
      if !io(3) { return Err(Storage); }
      Commit(tx);
      r := Ok(());
    }

    method OutboxDrop(id: nat, io: nat -> bool) returns (r: Result<()>)
      modifies this`outbox
      ensures Atomic(old(Snapshot()), Snapshot(), r, (Outbox.Drop(old(Snapshot()), id), Ok(())), io)
    {
      if !io(0) { return Err(Storage); }
      outbox := map c | c in outbox && outbox[c].messageId != id :: outbox[c];
      r := Ok(());
    }

    method UpdateMessageStatus(id: nat, status: int, now: int, io: nat -> bool) returns (r: Result<()>)
      modifies this`message
      ensures Atomic(old(Snapshot()), Snapshot(), r, SetStatus(old(Snapshot()), id, status, now), io)
    {
      if !io(0) || id !in message { return Err(Storage); }
      message := message[id := message[id].(status := status, updatedAt := now)];
      r := Ok(());
    }

    method UpdateLocalMessageId(id: nat, local: nat, now: int, io: nat -> bool) returns (r: Result<()>)
      modifies this`message
      ensures Atomic(old(Snapshot()), Snapshot(), r, SetLocal(old(Snapshot()), id, local, now), io)
    {
      if !io(0) || id !in message { return Err(Storage); }
      message := message[id := message[id].(local := local, updatedAt := now)];
      r := Ok(());
    }

    method DeleteMessageLocal(id: nat, io: nat -> bool) returns (r: Result<bool>)
      modifies this
      ensures Atomic(old(Snapshot()), Snapshot(), r, (DeleteLocal(old(Snapshot()), id), Ok(id in old(message))), io)
    {
      if !io(0) { return Err(Storage); }
      if id !in message { return Ok(false); }
      if !io(1) { return Err(Storage); }
      var tx := Snapshot();
      if !io(2) { return Err(Storage); }
      tx := tx.(message := tx.message - {id});
      if !io(3) { return Err(Storage); }
      tx := tx.(extra := tx.extra - {id});
      if !io(4) { return Err(Storage); }
      Commit(tx);
      r := Ok(true);
    }

    // ----- read state -----

    /** The uid as the read-state queries take it: 0 when it does not parse. */
    function Me(): nat { if uid.Some? then uid.value else 0 }

    method ProjectChannelReadCursor(ch: nat, ty: int, read: nat, now: int, io: nat -> bool) returns (r: Result<()>)
      modifies this
      ensures Atomic(old(Snapshot()), Snapshot(), r,
        (ReadCursor.Project(old(Snapshot()), Me(), ch, ty, read, now), Ok(())), io)
    {
      if !io(0) { return Err(Storage); }
      var tx := Snapshot();
      if !io(1) { return Err(Storage); }
      var keep := if (ch, ty) in tx.cursor then tx.cursor[(ch, ty)].keepPts else 0;
      var effective := if keep >= read then keep else read;
      if effective == keep {
        if !io(2) { return Err(Storage); }
        return Ok(());
      }
      if !io(2) { return Err(Storage); }
      var row := if (ch, ty) !in tx.cursor then ChannelExtra(effective, effective, now)
                 else ChannelExtra(ReadCursor.Max(tx.cursor[(ch, ty)].browseTo, effective),
                   ReadCursor.Max(keep, effective), now);
      tx := tx.(cursor := tx.cursor[(ch, ty) := row]);
      if !io(3) { return Err(Storage); }
      var passed := set i | i in tx.message && InChannel(tx.message[i], ch, ty)
        && keep < tx.message[i].pts <= effective;
      tx := tx.(extra := map i | i in tx.extra.Keys + passed :: if i in passed
        then ReadCursor.MarkRead(tx.extra, i, ch, ty, now) else tx.extra[i]);
      if !io(4) { return Err(Storage); }
      var newlyRead := set i | i in tx.message && InChannel(tx.message[i], ch, ty) && tx.message[i].from != Me()
        && keep < tx.message[i].pts <= effective;
      if !io(5) { return Err(Storage); }
      if ch in tx.channel {
        if !io(6) { return Err(Storage); }
        var current := tx.channel[ch].unread;
        var total: Int32 := if current - |newlyRead| > 0 then current - |newlyRead| else 0;
        tx := tx.(channel := tx.channel[ch := tx.channel[ch].(unread := total, updatedAt := now)]);
      }
      if !io(7) { return Err(Storage); }
      assert passed == ReadCursor.Span(old(Snapshot()), ch, ty, keep, read);
      assert newlyRead == ReadCursor.ForeignSpan(old(Snapshot()), Me(), ch, ty, keep, read);
      Commit(tx);
      r := Ok(());
    }

    /** One channel row being read: its count, healed if the cursor has passed every message. */
    method ResolveChannelUnreadOnRead(ch: nat, now: int, io: nat -> bool) returns (r: Result<int>)
      requires ch in channel
      modifies this`channel
      ensures
        var (healed, shown) := ReadCursor.Resolve(old(Snapshot()), Me(), ch, now);
        Atomic(old(Snapshot()), Snapshot(), r, (healed, Ok(shown)), io)
    {
      var ty, stored := channel[ch].channelType, ReadCursor.Max(channel[ch].unread, 0);
      if !io(0) { return Err(Storage); }
      if (ch, ty) !in cursor { return Ok(stored); }
      var keep := cursor[(ch, ty)].keepPts;
      if !io(1) { return Err(Storage); }
      var maxPts := ReadCursor.MaxPts(message, ch, ty);
      if maxPts == 0 || keep < maxPts { return Ok(stored); }
      if !io(2) { return Err(Storage); }
      var exact := |ReadCursor.Unread(Snapshot(), Me(), ch, ty, keep)|;
      ReadCursor.NothingAboveMax(Snapshot(), Me(), ch, ty, keep);
      if exact != stored {
        if !io(3) { return Err(Storage); }
        channel := channel[ch := channel[ch].(unread := exact, updatedAt := now)];
      }
      r := Ok(exact);
    }

    method CountMaterializedUnread(ch: nat, ty: int, io: nat -> bool) returns (r: Result<nat>)
      ensures r.Ok? ==> r.value == ReadCursor.UnreadNow(Snapshot(), Me(), ch, ty)
      ensures
        r.Ok? ==>
          r.value ==
          |set i | i in message && message[i].channel == ch && message[i].channelType == ty && message[i].from != Me()
                     && message[i].pts > (if (ch, ty) in cursor then cursor[(ch, ty)].keepPts else 0)|
      ensures Works(io) ==> r.Ok?
    {
      if !io(0) { return Err(Storage); }
      var keep := if (ch, ty) in cursor then cursor[(ch, ty)].keepPts else 0;
      if !io(1) { return Err(Storage); }
      ReadCursor.UnreadNowCounts(Snapshot(), Me(), ch, ty);
      var unread := set i | i in message && InChannel(message[i], ch, ty) && message[i].from != Me()
        && message[i].pts > keep;
      assert unread == ReadCursor.Unread(Snapshot(), Me(), ch, ty, keep);
      r := Ok(|unread|);
    }
  }

  /** Removing the other holders of a server id and then writing the row. */
  lemma DedupeThenWrite(t: map<nat, Message>, id: nat, row: Message, server: nat)
    requires id in t
    ensures
      (map i | i in t && !(t[i].server == Some(server) && i != id) :: t[i])[id := row] == Stored(t, id, row, server)
  {
  }
}
