/** Draining the outbox: due commands in order of creation, each handled once, over calls that may end
    early at any command. */
module Drain {
  import opened Tables
  import opened Order
  import opened Outbox

  /** ORDER BY created_at, id. */
  function PlaceOf(c: Command): Key { Key(c.createdAt, c.rowid, 0, 0) }

  predicate IsDue(c: Command, kind: string, now: int) { c.kind == kind && c.nextAttempt <= now }

  /** Places of the commands due at `now`. */
  function Due(outbox: map<nat, Command>, kind: string, now: int): set<Key> {
    set c | c in outbox && IsDue(outbox[c], kind, now) :: PlaceOf(outbox[c])
  }

  function Peek(outbox: map<nat, Command>, kind: string, limit: nat, now: int): seq<Key> {
    Take(Sorted(Due(outbox, kind, now)), limit)
  }

  /** What came of sending one message: the server took it; its server id was found to have arrived
      meanwhile; it is to be retried; the server rejected it; a read or the local id write failed; or the
      request could not be built, after the local id was written. */
  datatype Outcome =
    | Sent(server: nat, seqNo: nat, retryAt: int, bumps: bool)
    | Found(server: nat)
    | Deferred(retryAt: int)
    | Rejected
    | Broken
    | Unbuilt

  /** One attempt: its outcome, the local id minted for a row without one, and whether the write that
      records the outcome commits. `Sent.bumps` says whether a retry is recorded when it does not. */
  datatype Attempt = Attempt(outcome: Outcome, minted: nat, commits: bool)

  /** The store once the message has a local id to be sent under. */
  function Prepared(db: Db, id: nat, a: Attempt, now: int): Db
    requires id in db.message
  {
    if db.message[id].local > 0 then db else SetLocal(db, id, a.minted, now).0
  }

  /** The store after one attempt, and whether the call goes on to the next message of its page. A
      message whose row is gone is dropped. */
  function Handle(db: Db, id: nat, a: Attempt, now: int): (Db, bool) {
    if id !in db.message then (if a.commits then Outbox.Drop(db, id) else db, true)
    else
      var sent := Prepared(db, id, a, now);
      match a.outcome
      case Broken => (db, false)
      case Unbuilt => (sent, false)
      case Sent(server, seqNo, retryAt, bumps) =>
        if a.commits then (Ack(sent, id, server, seqNo, now).0, true)
        else (if bumps then Bump(sent, id, retryAt, now) else sent, false)
      case Found(server) =>
        var (found, r) := Reconcile(sent, id, server, now);
        if a.commits && r.Ok? then (found, true) else (sent, false)
      case Deferred(retryAt) => (if a.commits then Bump(sent, id, retryAt, now) else sent, false)
      case Rejected => if a.commits then (Reject(sent, id, FAILED, now), true) else (sent, false)
  }

  /** The attempt takes the command out of what is due: it is gone or postponed. */
  predicate Settles(db: Db, id: nat, a: Attempt, now: int) {
    if id !in db.message then a.commits
    else
      match a.outcome
      case Broken => false
      case Unbuilt => false
      case Sent(_, _, retryAt, bumps) => a.commits || (bumps && retryAt > now)
      case Found(server) => a.commits && Reconcile(Prepared(db, id, a, now), id, server, now).1.Ok?
      case Deferred(retryAt) => a.commits && retryAt > now
      case Rejected => a.commits
  }

  ghost predicate OutboxOk(db: Db) { OutboxSchema(db.outbox, db.nextCommand, db.nextId) }

  /** The message whose command is at this place. */
  function MessageAt(outbox: map<nat, Command>, place: Key): (id: nat)
    ensures (exists c :: c in outbox && PlaceOf(outbox[c]) == place) ==>
      exists c :: c in outbox && PlaceOf(outbox[c]) == place && outbox[c].messageId == id
  {
    var at := set c | c in outbox && PlaceOf(outbox[c]) == place;
    assert forall c :: c in outbox && PlaceOf(outbox[c]) == place ==> c in at;
    var c := Least(at);
    if c.None? then 0 else outbox[c.value].messageId
  }

  /** One call: the messages of a page one after the other until one ends it. The store, how many were
      tried, and the places settled. */
  function HandlePage(db: Db, page: seq<Key>, attempts: nat -> Attempt, now: int): (Db, nat, set<Key>)
    decreases |page|
  {
    if page == [] then (db, 0, {})
    else
      var id := MessageAt(db.outbox, page[0]);
      var (next, goesOn) := Handle(db, id, attempts(id), now);
      var settled := if Settles(db, id, attempts(id), now) then {page[0]} else {};
      if !goesOn then (next, 1, settled)
      else
        var (last, tried, more) := HandlePage(next, page[1..], attempts, now);
        (last, tried + 1, settled + more)
  }

  lemma WithoutRemovesDue(outbox: map<nat, Command>, kind: string, now: int, c: nat)
    requires c in outbox && IsDue(outbox[c], kind, now) && Distinct(outbox)
    ensures
      Due(WithoutCommands(outbox, outbox[c].messageId), kind, now) ==
      Due(outbox, kind, now) - {PlaceOf(outbox[c])}
  {
    var left := WithoutCommands(outbox, outbox[c].messageId);
    forall p | p in Due(outbox, kind, now) && p != PlaceOf(outbox[c]) ensures p in Due(left, kind, now) {
      var d :| d in outbox && IsDue(outbox[d], kind, now) && PlaceOf(outbox[d]) == p;
      assert d in left;
    }
    forall p | p in Due(left, kind, now) ensures p != PlaceOf(outbox[c]) {
      var d :| d in left && PlaceOf(left[d]) == p;
      assert d != c;
    }
  }

  /** Commands differ in row and in message. */
  ghost predicate Distinct(outbox: map<nat, Command>) {
    forall c, d :: c in outbox && d in outbox && c != d ==>
      outbox[c].rowid != outbox[d].rowid && outbox[c].messageId != outbox[d].messageId
  }

  lemma BumpMovesDue(db: Db, kind: string, now: int, c: nat, retryAt: int)
    requires c in db.outbox && IsDue(db.outbox[c], kind, now) && Distinct(db.outbox)
    ensures
      Due(Bump(db, db.outbox[c].messageId, retryAt, now).outbox, kind, now) ==
      Due(db.outbox, kind, now) - if retryAt > now then {PlaceOf(db.outbox[c])} else {}
  {
    var left := Bump(db, db.outbox[c].messageId, retryAt, now).outbox;
    assert forall d :: d in db.outbox && d != c ==> left[d] == db.outbox[d];
    assert IsDue(left[c], kind, now) <==> retryAt <= now;
    assert PlaceOf(left[c]) == PlaceOf(db.outbox[c]);
    forall p | p in Due(db.outbox, kind, now) && (retryAt > now ==> p != PlaceOf(db.outbox[c]))
      ensures p in Due(left, kind, now)
    {
      var d :| d in db.outbox && IsDue(db.outbox[d], kind, now) && PlaceOf(db.outbox[d]) == p;
      assert PlaceOf(left[d]) == p && IsDue(left[d], kind, now);
    }
    forall p | p in Due(left, kind, now)
      ensures p in Due(db.outbox, kind, now) && (retryAt > now ==> p != PlaceOf(db.outbox[c]))
    {
      var d :| d in left && IsDue(left[d], kind, now) && PlaceOf(left[d]) == p;
      assert PlaceOf(db.outbox[d]) == p;
    }
  }

  /** What one attempt does to the queue. */
  datatype Change = Removed | Bumped(retryAt: int) | Unchanged

  function ChangeOf(db: Db, id: nat, a: Attempt, now: int): Change {
    if id !in db.message then (if a.commits then Removed else Unchanged)
    else
      match a.outcome
      case Sent(_, _, retryAt, bumps) => if a.commits then Removed else if bumps then Bumped(retryAt) else Unchanged
      case Deferred(retryAt) => if a.commits then Bumped(retryAt) else Unchanged
      case _ => if Settles(db, id, a, now) then Removed else Unchanged
  }

  lemma BumpReadsOutbox(a: Db, b: Db, id: nat, next: int, now: int)
    requires a.outbox == b.outbox
    ensures Bump(a, id, next, now).outbox == Bump(b, id, next, now).outbox
  {
  }

  lemma PreparedQueue(db: Db, id: nat, a: Attempt, now: int)
    requires id in db.message
    ensures
      var sent := Prepared(db, id, a, now);
      && sent.outbox == db.outbox && sent.nextCommand == db.nextCommand && sent.nextId == db.nextId
      && id in sent.message && sent == db.(message := db.message[id := sent.message[id]])
      && IsPrepared(db.message[id], a, now, sent.message[id])
  {
  }

  lemma HandledOutbox(db: Db, id: nat, a: Attempt, now: int)
    ensures
      var db' := Handle(db, id, a, now).0;
      && db'.nextCommand == db.nextCommand && db'.nextId == db.nextId
      && match ChangeOf(db, id, a, now)
         case Removed => db'.outbox == WithoutCommands(db.outbox, id)
         case Bumped(retryAt) => db'.outbox == Bump(db, id, retryAt, now).outbox
         case Unchanged => db'.outbox == db.outbox
  {
    if id in db.message {
      PreparedQueue(db, id, a, now);
      match a.outcome
      case Sent(_, _, retryAt, _) => BumpReadsOutbox(Prepared(db, id, a, now), db, id, retryAt, now);
      case Deferred(retryAt) => BumpReadsOutbox(Prepared(db, id, a, now), db, id, retryAt, now);
      case _ =>
    }
  }

  lemma CommandAt(outbox: map<nat, Command>, kind: string, now: int, place: Key) returns (c: nat)
    requires place in Due(outbox, kind, now) && Distinct(outbox)
    ensures c in outbox && IsDue(outbox[c], kind, now) && PlaceOf(outbox[c]) == place
    ensures outbox[c].messageId == MessageAt(outbox, place)
  {
    c :| c in outbox && IsDue(outbox[c], kind, now) && PlaceOf(outbox[c]) == place;
    var d :| d in outbox && PlaceOf(outbox[d]) == place && outbox[d].messageId == MessageAt(outbox, place);
    assert PlaceOf(outbox[d]) == place;
    assert PlaceOf(outbox[d]).k2 == place.k2;
    assert outbox[d].rowid == place.k2;
    assert c == d;
  }

  /** Whatever the outcome, and whether or not it is recorded, handling the message at a due place takes
      that place and no other out of what is due when it settles, and none when it does not. */
  lemma HandleRemovesDue(db: Db, kind: string, now: int, place: Key, a: Attempt)
    requires OutboxOk(db) && place in Due(db.outbox, kind, now)
    ensures
      var id := MessageAt(db.outbox, place);
      var db' := Handle(db, id, a, now).0;
      && OutboxOk(db')
      && Due(db'.outbox, kind, now) == Due(db.outbox, kind, now) - if Settles(db, id, a, now) then {place} else {}
  {
    var c := CommandAt(db.outbox, kind, now, place);
    var id := db.outbox[c].messageId;
    HandledOutbox(db, id, a, now);
    match ChangeOf(db, id, a, now)
    case Removed =>
      WithoutRemovesDue(db.outbox, kind, now, c);
      WithoutCommandsKeepsSchema(db.outbox, db.nextCommand, db.nextId, id);
    case Bumped(retryAt) =>
      BumpMovesDue(db, kind, now, c, retryAt);
      BumpKeepsOutbox(db, id, retryAt, now);
    case Unchanged =>
  }

  lemma BumpKeepsOutbox(db: Db, id: nat, next: int, now: int)
    requires OutboxOk(db)
    ensures OutboxOk(Bump(db, id, next, now))
  {
  }

  lemma PrefixGrows(page: seq<Key>, tried: nat)
    requires tried < |page|
    ensures Elements(page[..tried + 1]) == {page[0]} + Elements(page[1..][..tried])
  {
    assert page[..tried + 1] == [page[0]] + page[1..][..tried];
  }

  lemma RestIsDue(page: seq<Key>, due: set<Key>, settled: set<Key>)
    requires page != [] && Ascending(page) && Elements(page) <= due && settled <= {page[0]}
    ensures page[0] in due && Ascending(page[1..]) && Elements(page[1..]) <= due - settled
  {
    assert page[0] in Elements(page);
    forall k | k in page[1..] ensures k != page[0] && k in Elements(page) {}
  }

  /** What is due once the rest of the page is handled as well. */
  lemma SettledJoin(page: seq<Key>, due: set<Key>, settled: set<Key>, more: set<Key>, tried: nat)
    requires tried < |page| && settled <= {page[0]} && more <= Elements(page[1..][..tried])
    ensures settled + more <= Elements(page[..tried + 1])
    ensures due - settled - more == due - (settled + more)
  {
    PrefixGrows(page, tried);
  }

  /** One call, whatever happens in it: it tries a prefix of its page, and what is due afterwards is what
      was due before without the places it settled. */
  lemma {:induction false} CallRemovesSettled(db: Db, kind: string, now: int, page: seq<Key>, attempts: nat -> Attempt)
    requires OutboxOk(db) && Ascending(page) && Elements(page) <= Due(db.outbox, kind, now)
    ensures
      var (db', tried, settled) := HandlePage(db, page, attempts, now);
      && OutboxOk(db') && tried <= |page| && (page != [] ==> tried > 0) && settled <= Elements(page[..tried])
      && Due(db'.outbox, kind, now) == Due(db.outbox, kind, now) - settled
    decreases |page|
  {
    if page != [] {
      var due, id := Due(db.outbox, kind, now), MessageAt(db.outbox, page[0]);
      var settled := if Settles(db, id, attempts(id), now) then {page[0]} else {};
      RestIsDue(page, due, settled);
      HandleRemovesDue(db, kind, now, page[0], attempts(id));
      var (next, goesOn) := Handle(db, id, attempts(id), now);
      if goesOn {
        CallRemovesSettled(next, kind, now, page[1..], attempts);
        var (_, tried, more) := HandlePage(next, page[1..], attempts, now);
        SettledJoin(page, due, settled, more, tried);
      } else {
        PrefixGrows(page, 0);
      }
    }
  }

  /** Every attempt of the call settles its message. */
  predicate EachSettles(db: Db, page: seq<Key>, attempts: nat -> Attempt, now: int)
    decreases |page|
  {
    page == [] || (
      var id := MessageAt(db.outbox, page[0]);
      var (next, goesOn) := Handle(db, id, attempts(id), now);
      Settles(db, id, attempts(id), now) && (goesOn ==> EachSettles(next, page[1..], attempts, now)))
  }

  lemma {:induction false} AllTriedAreSettled(db: Db, page: seq<Key>, attempts: nat -> Attempt, now: int)
    requires EachSettles(db, page, attempts, now)
    ensures
      var (_, tried, settled) := HandlePage(db, page, attempts, now);
      tried <= |page| && settled == Elements(page[..tried])
    decreases |page|
  {
    if page != [] {
      var id := MessageAt(db.outbox, page[0]);
      var (next, goesOn) := Handle(db, id, attempts(id), now);
      if goesOn {
        AllTriedAreSettled(next, page[1..], attempts, now);
        var tried := HandlePage(next, page[1..], attempts, now).1;
        assert page[..tried + 1] == [page[0]] + page[1..][..tried];
      } else {
        assert page[..1] == [page[0]];
      }
    }
  }

  lemma PageOfDue(outbox: map<nat, Command>, kind: string, limit: nat, now: int)
    ensures
      var page := Peek(outbox, kind, limit, now);
      && Ascending(page) && Elements(page) <= Due(outbox, kind, now)
      && (limit > 0 && Due(outbox, kind, now) != {} ==> page != [])
  {
    var all := Sorted(Due(outbox, kind, now));
    forall k | k in Peek(outbox, kind, limit, now) ensures k in Due(outbox, kind, now) { assert k in all; }
    if Due(outbox, kind, now) != {} { assert |all| > 0; }
  }

  /** Calls at a fixed time, each with its own attempts: peek a page, handle it. The store and the places
      tried, in order. */
  function DrainCalls(db: Db, kind: string, limit: nat, now: int, calls: seq<nat -> Attempt>): (Db, seq<Key>)
    decreases |calls|
  {
    if calls == [] then (db, [])
    else
      var page := Peek(db.outbox, kind, limit, now);
      var (next, tried, _) := HandlePage(db, page, calls[0], now);
      var (last, rest) := DrainCalls(next, kind, limit, now, calls[1..]);
      (last, Take(page, tried) + rest)
  }

  predicate CallsSettle(db: Db, kind: string, limit: nat, now: int, calls: seq<nat -> Attempt>)
    decreases |calls|
  {
    calls == [] || (
      var page := Peek(db.outbox, kind, limit, now);
      && EachSettles(db, page, calls[0], now)
      && CallsSettle(HandlePage(db, page, calls[0], now).0, kind, limit, now, calls[1..]))
  }

  lemma SortedPage(s: set<Key>, n: nat)
    ensures Sorted(s) == Take(Sorted(s), n) + Sorted(s - Elements(Take(Sorted(s), n)))
  {
    var all, page := Sorted(s), Take(Sorted(s), n);
    var rest := all[|page|..];
    assert all == page + rest;
    forall i, j | 0 <= i < |page| && 0 <= j < |rest| ensures page[i] != rest[j] {
      assert Lt(all[i], all[|page| + j]);
    }
    forall k ensures k in rest <==> k in s - Elements(page) {
      assert k in all <==> k in page || k in rest;
    }
    AscendingIsUnique(Sorted(s - Elements(page)), rest);
  }

  lemma TakeOfTake<T>(s: seq<T>, limit: nat, n: nat)
    requires n <= |Take(s, limit)|
    ensures Take(Take(s, limit), n) == Take(s, n) == Take(s, limit)[..n]
  {
  }

  lemma TakeJoins<T>(s: seq<T>, first: seq<T>, rest: seq<T>, n: nat)
    requires s == first + rest && n <= |rest|
    ensures Take(s, |first| + n) == first + Take(rest, n) && Take(s, |first|) == first
  {
  }

  lemma ElementsJoin(a: seq<Key>, b: seq<Key>)
    ensures Elements(a + b) == Elements(a) + Elements(b)
  {
    forall k ensures k in a + b <==> k in a || k in b {}
  }

  /** A call whose attempts all settle handles a beginning of what is due. */
  lemma CallHandlesPrefix(db: Db, kind: string, limit: nat, now: int, attempts: nat -> Attempt)
    requires OutboxOk(db) && EachSettles(db, Peek(db.outbox, kind, limit, now), attempts, now)
    ensures
      var due, page := Due(db.outbox, kind, now), Peek(db.outbox, kind, limit, now);
      var (next, tried, _) := HandlePage(db, page, attempts, now);
      && OutboxOk(next) && tried <= |page| <= |due| && (limit > 0 && due != {} ==> tried > 0)
      && Take(page, tried) == Take(Sorted(due), tried)
      && Due(next.outbox, kind, now) == due - Elements(Take(page, tried))
  {
    var page := Peek(db.outbox, kind, limit, now);
    PageOfDue(db.outbox, kind, limit, now);
    CallRemovesSettled(db, kind, now, page, attempts);
    AllTriedAreSettled(db, page, attempts, now);
    TakeOfTake(Sorted(Due(db.outbox, kind, now)), limit, HandlePage(db, page, attempts, now).1);
  }

  /** `handled` is a beginning of what was due, and the rest is still due. */
  ghost predicate HandledPrefix(due: set<Key>, handled: seq<Key>, left: set<Key>) {
    |handled| <= |due| && handled == Take(Sorted(due), |handled|) && left == due - Elements(handled)
  }

  lemma PrefixesJoin(due: set<Key>, first: seq<Key>, between: set<Key>, rest: seq<Key>, left: set<Key>)
    requires HandledPrefix(due, first, between) && HandledPrefix(between, rest, left)
    ensures HandledPrefix(due, first + rest, left) && |due| == |first| + |between|
  {
    SortedPage(due, |first|);
    SequencesJoin(Sorted(due), first, Sorted(between), rest);
    ElementsJoin(first, rest);
    MinusTwice(due, Elements(first), Elements(rest));
  }

  lemma SequencesJoin(all: seq<Key>, first: seq<Key>, between: seq<Key>, rest: seq<Key>)
    requires all == first + between && |rest| <= |between| && rest == Take(between, |rest|)
    ensures first + rest == Take(all, |first + rest|) && |all| == |first| + |between|
  {
    TakeJoins(all, first, between, |rest|);
  }

  lemma MinusTwice(a: set<Key>, b: set<Key>, c: set<Key>)
    ensures a - b - c == a - (b + c)
  {
  }

  lemma AllHandled(due: set<Key>, handled: seq<Key>, left: set<Key>)
    requires HandledPrefix(due, handled, left) && |handled| == |due|
    ensures handled == Sorted(due) && left == {}
  {
    assert Take(Sorted(due), |due|) == Sorted(due);
  }

  /** When every attempt settles, calls that end early or not handle the commands due at the start each
      once, oldest first, and every call with something due handles at least one; so after as many calls
      as there were commands due, all were handled and nothing is due. */
  lemma {:induction false} DrainHandlesEachOnce(db: Db, kind: string, limit: nat, now: int, calls: seq<nat -> Attempt>)
    requires OutboxOk(db) && limit > 0 && CallsSettle(db, kind, limit, now, calls)
    ensures
      var (db', handled) := DrainCalls(db, kind, limit, now, calls);
      var due := Due(db.outbox, kind, now);
      && OutboxOk(db') && HandledPrefix(due, handled, Due(db'.outbox, kind, now))
      && (|calls| <= |handled| || |handled| == |due|)
      && (|due| <= |calls| ==> handled == Sorted(due) && Due(db'.outbox, kind, now) == {})
    decreases |calls|
  {
    var due := Due(db.outbox, kind, now);
    var (db', handled) := DrainCalls(db, kind, limit, now, calls);
    if calls != [] {
      var page := Peek(db.outbox, kind, limit, now);
      var (next, tried, _) := HandlePage(db, page, calls[0], now);
      CallHandlesPrefix(db, kind, limit, now, calls[0]);
      DrainHandlesEachOnce(next, kind, limit, now, calls[1..]);
      var rest := DrainCalls(next, kind, limit, now, calls[1..]).1;
      PrefixesJoin(due, Take(page, tried), Due(next.outbox, kind, now), rest, Due(db'.outbox, kind, now));
    }
    if |handled| == |due| { AllHandled(due, handled, Due(db'.outbox, kind, now)); }
  }

  /** Enqueueing a message that already has its command renews the command: same place in the order, same
      owner and kind, same retry count, due at once; all other commands are untouched. */
  lemma ReenqueueRenews(db: Db, id: nat, job: Job, now: int)
    requires id in db.message && db.message[id].local in db.outbox && db.message[id].local > 0
    ensures
      var c := db.message[id].local;
      var (db', r) := Enqueue(db, id, job, now);
      && r.Ok? && db'.outbox == db.outbox[c := Renewed(db.outbox[c], job, now)]
      && PlaceOf(db'.outbox[c]) == PlaceOf(db.outbox[c])
  {
  }

  /** A renewed command is due at its old place: before and after it stand the commands that stood there,
      and if it was due already every page reads as before. The other kind is not affected. */
  lemma ReenqueueKeepsPlace(db: Db, id: nat, job: Job, now: int, kind: string, limit: nat)
    requires id in db.message && db.message[id].local in db.outbox && db.message[id].local > 0 && now >= 0
    ensures
      var c := db.outbox[db.message[id].local];
      var outbox' := Enqueue(db, id, job, now).0.outbox;
      var due, due', p := Due(db.outbox, kind, now), Due(outbox', kind, now), PlaceOf(c);
      && due' == due + (if c.kind == kind then {p} else {})
      && (c.kind == kind ==> Sorted(due') == Sorted(Below(due, p)) + [p] + Sorted(Above(due, p)))
      && (c.kind != kind || IsDue(c, kind, now) ==>
            Peek(outbox', kind, limit, now) == Peek(db.outbox, kind, limit, now))
  {
    var local := db.message[id].local;
    var c := db.outbox[local];
    ReenqueueRenews(db, id, job, now);
    RenewedIsDue(db.outbox, local, Renewed(c, job, now), kind, now);
    var due, p := Due(db.outbox, kind, now), PlaceOf(c);
    if c.kind == kind { InsertedInPlace(due, p); }
    if c.kind != kind || IsDue(c, kind, now) { assert due + (if c.kind == kind then {p} else {}) == due; }
  }

  lemma InsertedInPlace(due: set<Key>, p: Key)
    ensures Sorted(due + {p}) == Sorted(Below(due, p)) + [p] + Sorted(Above(due, p))
  {
    SortedSplits(due + {p}, p);
    assert Below(due + {p}, p) == Below(due, p) && Above(due + {p}, p) == Above(due, p);
  }

  lemma RenewedIsDue(outbox: map<nat, Command>, c: nat, renewed: Command, kind: string, now: int)
    requires c in outbox && renewed.kind == outbox[c].kind && PlaceOf(renewed) == PlaceOf(outbox[c])
    requires renewed.nextAttempt <= now
    ensures
      Due(outbox[c := renewed], kind, now) ==
      Due(outbox, kind, now) + if renewed.kind == kind then {PlaceOf(outbox[c])} else {}
  {
    var all, p := outbox[c := renewed], PlaceOf(outbox[c]);
    if renewed.kind == kind { assert IsDue(all[c], kind, now) && PlaceOf(all[c]) == p; }
    forall q | q in Due(outbox, kind, now) ensures q in Due(all, kind, now) {
      var d :| d in outbox && IsDue(outbox[d], kind, now) && PlaceOf(outbox[d]) == q;
      assert IsDue(all[d], kind, now) && PlaceOf(all[d]) == q;
    }
  }

  // ----- what a page lists -----

  /** Created earlier, or at the same time and queued earlier. */
  predicate Older(a: Command, b: Command) {
    a.createdAt < b.createdAt || (a.createdAt == b.createdAt && a.rowid < b.rowid)
  }

  /** Every place on a page is that of a command of this kind whose time has come; places come oldest first;
      and a command of this kind whose time has come is on the page unless the page is full of older ones. */
  lemma PageListsOldestDue(outbox: map<nat, Command>, kind: string, limit: nat, now: int)
    ensures
      var page := Peek(outbox, kind, limit, now);
      && |page| <= limit
      && (forall p :: p in page ==> exists c :: c in outbox && outbox[c].kind == kind && outbox[c].nextAttempt <= now
                                                 && PlaceOf(outbox[c]) == p)
      && (forall m, n :: 0 <= m < n < |page| ==> Lt(page[m], page[n]))
      && (forall c ::
            c in outbox && outbox[c].kind == kind && outbox[c].nextAttempt <= now && PlaceOf(outbox[c]) !in page ==>
            |page| == limit && forall n :: 0 <= n < |page| ==> Lt(page[n], PlaceOf(outbox[c])))
  {
    var all, page := Sorted(Due(outbox, kind, now)), Peek(outbox, kind, limit, now);
    forall p | p in page ensures p in Due(outbox, kind, now) { assert p in all; }
    forall c | c in outbox && IsDue(outbox[c], kind, now) && PlaceOf(outbox[c]) !in page
      ensures |page| == limit && forall n :: 0 <= n < |page| ==> Lt(page[n], PlaceOf(outbox[c]))
    {
      assert PlaceOf(outbox[c]) in all;
      var k :| 0 <= k < |all| && all[k] == PlaceOf(outbox[c]);
      assert k >= |page|;
    }
  }

  lemma PlacesAreAges(a: Command, b: Command)
    ensures Lt(PlaceOf(a), PlaceOf(b)) <==> Older(a, b)
  {
  }

  // ----- a new command takes its place at the end -----

  /** The command joins those due at `t`, in its kind and no other, and comes last when none is younger. */
  ghost predicate Joins(before: map<nat, Command>, after: map<nat, Command>, c: Command, t: int) {
    && Due(after, c.kind, t) == Due(before, c.kind, t) + {PlaceOf(c)}
    && (forall kind :: kind != c.kind ==> Due(after, kind, t) == Due(before, kind, t))
    && ((forall d :: d in before ==> Older(before[d], c)) ==>
          Sorted(Due(after, c.kind, t)) == Sorted(Due(before, c.kind, t)) + [PlaceOf(c)])
  }

  lemma InsertedJoins(outbox: map<nat, Command>, local: nat, c: Command, t: int)
    requires local !in outbox && c.nextAttempt <= t
    ensures Joins(outbox, outbox[local := c], c, t)
  {
    forall kind
      ensures Due(outbox[local := c], kind, t) == Due(outbox, kind, t) + if kind == c.kind then {PlaceOf(c)} else {}
    {
      InsertedIsDue(outbox, local, c, kind, t);
    }
    if forall d :: d in outbox ==> Older(outbox[d], c) {
      var due := Due(outbox, c.kind, t);
      forall k | k in due ensures Lt(k, PlaceOf(c)) {
        var d :| d in outbox && IsDue(outbox[d], c.kind, t) && PlaceOf(outbox[d]) == k;
        PlacesAreAges(outbox[d], c);
      }
      LastInOrder(due, PlaceOf(c));
    }
  }

  lemma InsertedIsDue(outbox: map<nat, Command>, local: nat, c: Command, kind: string, t: int)
    requires local !in outbox && c.nextAttempt <= t
    ensures Due(outbox[local := c], kind, t) == Due(outbox, kind, t) + if kind == c.kind then {PlaceOf(c)} else {}
  {
    var all := outbox[local := c];
    if kind == c.kind { assert IsDue(all[local], kind, t) && PlaceOf(all[local]) == PlaceOf(c); }
    forall q | q in Due(outbox, kind, t) ensures q in Due(all, kind, t) {
      var d :| d in outbox && IsDue(outbox[d], kind, t) && PlaceOf(outbox[d]) == q;
      assert all[d] == outbox[d];
    }
  }

  lemma LastInOrder(s: set<Key>, p: Key)
    requires forall k :: k in s ==> Lt(k, p)
    ensures Sorted(s + {p}) == Sorted(s) + [p]
  {
    var r := Sorted(s);
    forall i | 0 <= i < |r| ensures Lt(r[i], p) { assert r[i] in r; }
    forall k ensures k in r + [p] <==> k in s + {p} { assert k in r + [p] <==> k in r || k == p; }
    SortedIs(s + {p}, r + [p]);
  }

  /** A message created with its command, enqueued, or finalised without a command before: the command of
      the kind asked for is due at any time from 1970 on, at the end of its queue unless the clock went
      back. */
  lemma QueuedIsDue(db: Db, id: nat, m: NewMessage, local: nat, job: Job, content: string, thumb: int,
    payload: seq<Byte>, route: string, now: int, t: int)
    requires Schema(db) && t >= 0
    ensures
      var (db', r) := CreateQueued(db, m, local, job, now);
      r.Ok? ==> db'.outbox[local].kind == job.kind && Joins(db.outbox, db'.outbox, db'.outbox[local], t)
    ensures
      var (db', r) := Enqueue(db, id, job, now);
      r.Ok? && db.message[id].local !in db.outbox ==>
        var c := db'.outbox[db.message[id].local];
        c.messageId == id && c.kind == job.kind && Joins(db.outbox, db'.outbox, c, t)
    ensures
      var (db', r) := Finalize(db, id, content, thumb, payload, route, now);
      r.Ok? && db.message[id].local !in db.outbox ==>
        var c := db'.outbox[db.message[id].local];
        c.messageId == id && c.kind == "attachment" && Joins(db.outbox, db'.outbox, c, t)
  {
    CreatedJoins(db, m, local, job, now, t);
    EnqueuedJoins(db, id, job, now, t);
    FinalizedJoins(db, id, content, thumb, payload, route, now, t);
  }

  lemma CreatedJoins(db: Db, m: NewMessage, local: nat, job: Job, now: int, t: int)
    requires Schema(db) && t >= 0
    ensures
      var (db', r) := CreateQueued(db, m, local, job, now);
      r.Ok? ==> db'.outbox[local].kind == job.kind && Joins(db.outbox, db'.outbox, db'.outbox[local], t)
  {
    var (db', r) := CreateQueued(db, m, local, job, now);
    CreatedTogether(db, m, local, job, now);
    if r.Ok? {
      assert db'.outbox == db.outbox[local := db'.outbox[local]];
      InsertedJoins(db.outbox, local, db'.outbox[local], t);
    }
  }

  lemma EnqueuedJoins(db: Db, id: nat, job: Job, now: int, t: int)
    requires t >= 0
    ensures
      var (db', r) := Enqueue(db, id, job, now);
      r.Ok? && db.message[id].local !in db.outbox ==>
        var c := db'.outbox[db.message[id].local];
        c.messageId == id && c.kind == job.kind && Joins(db.outbox, db'.outbox, c, t)
  {
    var (db', r) := Enqueue(db, id, job, now);
    EnqueueQueues(db, id, job, now);
    if r.Ok? && db.message[id].local !in db.outbox {
      var local := db.message[id].local;
      NewEntry(db.outbox, db'.outbox, local);
      InsertedJoins(db.outbox, local, db'.outbox[local], t);
    }
  }

  lemma FinalizedJoins(db: Db, id: nat, content: string, thumb: int, payload: seq<Byte>, route: string, now: int,
    t: int)
    requires t >= 0
    ensures
      var (db', r) := Finalize(db, id, content, thumb, payload, route, now);
      r.Ok? && db.message[id].local !in db.outbox ==>
        var c := db'.outbox[db.message[id].local];
        c.messageId == id && c.kind == "attachment" && Joins(db.outbox, db'.outbox, c, t)
  {
    var (db', r) := Finalize(db, id, content, thumb, payload, route, now);
    FinalizeQueues(db, id, content, thumb, payload, route, now);
    if r.Ok? && db.message[id].local !in db.outbox {
      var local := db.message[id].local;
      NewEntry(db.outbox, db'.outbox, local);
      InsertedJoins(db.outbox, local, db'.outbox[local], t);
    }
  }

  lemma NewEntry(before: map<nat, Command>, after: map<nat, Command>, local: nat)
    requires local !in before && local in after && after - {local} == before - {local}
    ensures after == before[local := after[local]]
  {
    assert forall c :: c in after && c != local ==> c in after - {local} && after[c] == (after - {local})[c];
    assert forall c :: c in before && c != local ==> c in before - {local} && before[c] == (before - {local})[c];
  }

  // ----- what an attempt makes of the message -----

  /** The local id a message is sent under is written first. */
  function SentUnder(row: Message, a: Attempt): nat { if row.local > 0 then row.local else a.minted }

  /** The row while it is being sent: as it was, or with its new local id. */
  predicate IsPrepared(row: Message, a: Attempt, now: int, row': Message) {
    row' == (if row.local > 0 then row else row.(local := a.minted, updatedAt := now))
  }

  /** Only the message's own row may change, apart from rows deleted for holding the same server id. */
  ghost predicate OthersKept(db: Db, id: nat, db': Db) {
    && id in db'.message && db'.extra == db.extra && db'.channel == db.channel && db'.cursor == db.cursor
    && (forall i :: i in db'.message && i != id ==> i in db.message && db'.message[i] == db.message[i])
  }

  /** A recorded success settles the message as sent under the acknowledged server id and goes on. */
  lemma SentIsRecorded(db: Db, id: nat, a: Attempt, now: int)
    requires id in db.message && a.outcome.Sent? && a.commits
    ensures
      var (db', goesOn) := Handle(db, id, a, now);
      && goesOn && OthersKept(db, id, db') && !HasCommand(db'.outbox, id)
      && IsSettled(db.message[id], a, now, db'.message[id], 2)
      && db'.message[id].server == Some(a.outcome.server)
      && db'.message[id].pts == db'.message[id].orderSeq == a.outcome.seqNo
      && (forall i :: i in db'.message && db'.message[i].server == Some(a.outcome.server) ==> i == id)
  {
    PreparedQueue(db, id, a, now);
    AckSettles(Prepared(db, id, a, now), id, a.outcome.server, a.outcome.seqNo, now);
  }

  /** A recorded rejection settles it as failed and goes on. */
  lemma RejectionIsRecorded(db: Db, id: nat, a: Attempt, now: int)
    requires id in db.message && a.outcome.Rejected? && a.commits
    ensures
      var (db', goesOn) := Handle(db, id, a, now);
      && goesOn && OthersKept(db, id, db') && !HasCommand(db'.outbox, id) && db'.message.Keys == db.message.Keys
      && IsSettled(db.message[id], a, now, db'.message[id], 3) && db'.message[id].server == db.message[id].server
  {
    RejectWrites(Prepared(db, id, a, now), id, 3, now);
  }

  /** A message found to have arrived is settled as sent exactly when its transaction commits and no other
      row holds the server id. */
  lemma FoundIsRecorded(db: Db, id: nat, a: Attempt, now: int)
    requires id in db.message && a.outcome.Found? && a.outcome.server > 0
    ensures
      var (db', goesOn) := Handle(db, id, a, now);
      && OthersKept(db, id, db') && db'.message.Keys == db.message.Keys
      && (goesOn <==>
            a.commits && forall i :: i in db.message && i != id ==> db.message[i].server != Some(a.outcome.server))
      && (goesOn ==>
            IsSettled(db.message[id], a, now, db'.message[id], 2) && db'.message[id].server == Some(a.outcome.server)
            && !HasCommand(db'.outbox, id))
      && (!goesOn ==> IsPrepared(db.message[id], a, now, db'.message[id]) && db'.outbox == db.outbox)
  {
    PreparedQueue(db, id, a, now);
    ReconcileWrites(Prepared(db, id, a, now), id, a.outcome.server, now);
  }

  /** Any other attempt ends the call and leaves at most the local id and a postponed command behind. */
  lemma OthersEndTheCall(db: Db, id: nat, a: Attempt, now: int)
    requires id in db.message && !a.outcome.Found? && !(a.commits && (a.outcome.Sent? || a.outcome.Rejected?))
    ensures
      var (db', goesOn) := Handle(db, id, a, now);
      && !goesOn && OthersKept(db, id, db') && db'.message.Keys == db.message.Keys
      && (if a.outcome.Broken? then db' == db else IsPrepared(db.message[id], a, now, db'.message[id]))
      && (Postpones(a).None? ==> db'.outbox == db.outbox)
      && (Postpones(a).Some? ==> IsPostponed(db.outbox, id, Postpones(a).value, now, db'.outbox))
  {
    PreparedQueue(db, id, a, now);
    var sent := Prepared(db, id, a, now);
    if Postpones(a).Some? { BumpAndDropWrite(sent, id, Postpones(a).value, now); }
  }

  /** The message's command is counted and postponed, all others stay. */
  ghost predicate IsPostponed(before: map<nat, Command>, id: nat, next: int, now: int, after: map<nat, Command>) {
    && after.Keys == before.Keys
    && (forall c :: c in before && before[c].messageId != id ==> after[c] == before[c])
    && (forall c :: c in before && before[c].messageId == id ==>
          after[c] == before[c].(retries := before[c].retries + 1, nextAttempt := next, updatedAt := now))
  }

  /** A message whose row is gone is dropped, and the call goes on whether or not the drop is recorded. */
  lemma MissingIsDropped(db: Db, id: nat, a: Attempt, now: int)
    requires id !in db.message
    ensures
      var (db', goesOn) := Handle(db, id, a, now);
      goesOn && db' == db.(outbox := db'.outbox) && (if a.commits then !HasCommand(db'.outbox, id) else db' == db)
  {
  }

  /** The time to which the attempt postpones the command. */
  function Postpones(a: Attempt): Option<int> {
    match a.outcome
    case Sent(_, _, retryAt, bumps) => if !a.commits && bumps then Some(retryAt) else None
    case Deferred(retryAt) => if a.commits then Some(retryAt) else None
    case _ => None
  }

  /** The row shows the outcome, under the local id it was sent with; its content is untouched. */
  predicate IsSettled(row: Message, a: Attempt, now: int, row': Message, status: int) {
    && row'.status == status && row'.updatedAt == now && row'.local == SentUnder(row, a) && row'.body == row.body
    && row'.createdAt == row.createdAt && row'.channel == row.channel && row'.from == row.from
  }
}
