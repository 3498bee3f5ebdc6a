/** The SQLite tables of one account, as values. A table is a map from its integer key to a row;
    a transaction is a change from one `Db` value to another. */
module Tables {

  datatype Option<+T> = None | Some(value: T)

  datatype Error = MissingLocalMessageId(messageId: nat) | InvalidState | Storage

  datatype Result<+T> = Ok(value: T) | Err(error: Error)

  type Byte = x: nat | x < 256

  /** Resolution the sender's clock value had on the wire; stored as 0 or 1. */
  datatype Precision = Seconds | Milliseconds

  /** Columns that every writer copies as one block and no branch looks into. */
  datatype Body = Body(kind: int, content: string, searchable: string, setting: int, extra: string)

  /** A row of `message`, without its primary key. `server` is None for a NULL server_message_id. */
  datatype Message = Message(
    server: Option<nat>, local: nat, channel: nat, channelType: int, from: nat, body: Body,
    mime: Option<string>, status: int, pts: int, orderSeq: int, timestamp: int, createdAt: int,
    precision: Precision, updatedAt: int, mediaDownloaded: bool, thumbStatus: int)

  /** A row of `message_extra`, keyed by the message it belongs to. */
  datatype Extra = Extra(
    channel: nat, channelType: int, readed: bool, readedCount: int, unreadCount: int,
    revoke: bool, version: int)

  /** A row of `outbox`. The table is keyed by command_id, which is "msg:" followed by the
      positive local_message_id of the message; the model keys it by that number. */
  datatype Command = Command(
    rowid: nat, kind: string, messageId: nat, channel: nat, payload: seq<Byte>,
    route: Option<string>, retries: nat, nextAttempt: int, createdAt: int, updatedAt: int)

  type Int32 = x: int | -0x8000_0000 <= x < 0x8000_0000

  datatype Channel = Channel(channelType: int, unread: Int32, hidden: bool, updatedAt: int)

  datatype ChannelExtra = ChannelExtra(browseTo: nat, keepPts: nat, version: int)

  datatype Db = Db(
    message: map<nat, Message>, nextId: nat, extra: map<nat, Extra>,
    outbox: map<nat, Command>, nextCommand: nat,
    channel: map<nat, Channel>, cursor: map<(nat, int), ChannelExtra>)

  predicate InChannel(m: Message, ch: nat, ty: int) { m.channel == ch && m.channelType == ty }

  // Row states.
  const SENDING := 1
  const SENT := 2
  const FAILED := 3

  /** What the schema enforces: AUTOINCREMENT keys are below their counter, the partial unique
      index on server_message_id, and the unique indexes of the outbox. */
  ghost predicate Schema(db: Db) {
    && KeysBelow(db.message.Keys, db.nextId)
    && KeysBelow(db.extra.Keys, db.nextId)
    && UniqueServer(db.message)
    && OutboxSchema(db.outbox, db.nextCommand, db.nextId)
  }

  ghost predicate KeysBelow(keys: set<nat>, bound: nat) {
    forall i :: i in keys ==> i < bound
  }

  ghost predicate UniqueServer(t: map<nat, Message>) {
    && (forall i :: i in t ==> t[i].server != Some(0))
    && (forall i, j :: i in t && j in t && t[i].server.Some? && t[i].server == t[j].server ==> i == j)
  }

  ghost predicate OutboxSchema(outbox: map<nat, Command>, nextCommand: nat, nextId: nat) {
    && (forall c :: c in outbox ==> c > 0 && outbox[c].rowid < nextCommand && outbox[c].messageId < nextId)
    && (forall c, d :: c in outbox && d in outbox && c != d ==>
          outbox[c].rowid != outbox[d].rowid && outbox[c].messageId != outbox[d].messageId)
  }

  /** No two rows written by `uid` share a positive local_message_id. */
  ghost predicate OwnUnique(t: map<nat, Message>, uid: nat) {
    forall i, j ::
      (i in t && j in t && t[i].from == uid == t[j].from && t[i].local > 0 && t[i].local == t[j].local)
      ==> i == j
  }

  /** Some command in the outbox belongs to message `id`. */
  predicate HasCommand(outbox: map<nat, Command>, id: nat) {
    exists c :: c in outbox && outbox[c].messageId == id
  }

  // ----- `SELECT id ... LIMIT 1`: the matching row with the lowest key. -----

  predicate IsLeast(x: nat, s: set<nat>) { x in s && forall y :: y in s ==> x <= y }

  lemma {:induction false} LeastExists(s: set<nat>)
    requires s != {}
    ensures exists x :: IsLeast(x, s)
  {
    var x :| x in s;
    if s == {x} {
      assert IsLeast(x, s);
    } else {
      LeastExists(s - {x});
      var y :| IsLeast(y, s - {x});
      assert s == {x} + (s - {x});
      assert IsLeast(if x <= y then x else y, s);
    }
  }

  function Least(s: set<nat>): (r: Option<nat>)
    ensures r.None? <==> s == {}
    ensures r.Some? ==> IsLeast(r.value, s)
  {
    if s == {} then None
    else
      LeastExists(s);
      var x :| IsLeast(x, s);
      Some(x)
  }

  function FindServer(t: map<nat, Message>, s: nat): (r: Option<nat>)
    ensures r.Some? ==> r.value in t && t[r.value].server == Some(s)
    ensures r.Some? ==> forall i :: i in t && t[i].server == Some(s) ==> r.value <= i
    ensures r.None? ==> forall i :: i in t ==> t[i].server != Some(s)
  {
    var matching := set i | i in t && t[i].server == Some(s);
    assert forall i :: i in t && t[i].server == Some(s) ==> i in matching;
    Least(matching)
  }

  function FindLocal(t: map<nat, Message>, from: nat, local: nat): (r: Option<nat>)
    ensures r.Some? ==> r.value in t && t[r.value].from == from && t[r.value].local == local
    ensures r.Some? ==> forall i :: i in t && t[i].from == from && t[i].local == local ==> r.value <= i
    ensures r.None? ==> forall i :: i in t ==> !(t[i].from == from && t[i].local == local)
  {
    var matching := set i | i in t && t[i].from == from && t[i].local == local;
    assert forall i :: i in t && t[i].from == from && t[i].local == local ==> i in matching;
    Least(matching)
  }
}
