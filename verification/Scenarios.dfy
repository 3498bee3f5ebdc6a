/** Concrete runs in which the conditions proved exact elsewhere fail. */
module Scenarios {
  import opened Tables
  import opened Canonical
  import opened Upsert
  import opened Outbox
  import Protocol
  import Replay
  import Migration
  import Pipeline

  const ME: nat := 7

  const TEXT := Body(1, "hello", "", 0, "")

  const DRAFT := NewMessage(100, 1, ME, TEXT, None, false, 0)

  const JOB := Job("message", 100, [], None)

  /** A copy of the own message that the server stored under `server`. */
  function OwnCopy(server: nat, local: nat, version: int, revoked: bool): Input {
    Input(server, local, 100, 1, 1_700_000_000_000, ME, TEXT, SENT, version, version, Milliseconds, None, revoked)
  }

  // ----- one message sent twice -----

  lemma RunGrows(uid: nat, es: seq<Protocol.Timed>, e: Protocol.Event, now: int)
    ensures
      var s, more := Protocol.Reached(uid, es), es + [Protocol.Timed(e, now)];
      && Protocol.Reached(uid, more) == Protocol.Next(s, uid, e, now)
      && (Protocol.Possible(uid, es) && Protocol.Enabled(s, uid, e) ==> Protocol.Possible(uid, more))
      && (Protocol.SafeRun(uid, es) && Protocol.Safe(s, uid, e, now) ==> Protocol.SafeRun(uid, more))
  {
    assert (es + [Protocol.Timed(e, now)])[..|es|] == es;
  }

  /** One message is created, under local id 1, and the server has stored it under 10. */
  function Unanswered(db: Db): Protocol.Sys {
    Protocol.Sys(db, {1}, {}, map[1 := 1], map[1 := 1], map[1 := Protocol.Receipt(10, 5)], {}, {}, {}, {}, {}, {})
  }

  const QUEUED: Db := CreateQueued(EMPTY, DRAFT, 1, JOB, 1).0

  lemma QueuedTables()
    ensures QUEUED.message == map[1 := LocalRow(DRAFT, 1, SENDING, 1)] && QUEUED.nextId == 2
    ensures QUEUED.outbox.Keys == {1} && QUEUED.outbox[1].messageId == 1
  {
    assert !HasCommand(EMPTY.outbox, 1);
  }

  /** A message is created and sent, the server stores it, and the reply is lost. */
  lemma LostReply() returns (es: seq<Protocol.Timed>)
    ensures Protocol.Possible(ME, es) && Protocol.SafeRun(ME, es) && Protocol.Reached(ME, es) == Unanswered(QUEUED)
  {
    QueuedTables();
    var create, send := Protocol.Create(DRAFT, 1, JOB), Protocol.Send(1, 2);
    RunGrows(ME, [], create, 1);
    es := [] + [Protocol.Timed(create, 1)];
    var s1 := Protocol.Reached(ME, es);
    assert s1 == Protocol.INITIAL.(db := QUEUED, issued := {1}, origin := map[1 := 1], birth := map[1 := 1]);
    RunGrows(ME, es, send, 2);
    es := es + [Protocol.Timed(send, 2)];
    var request, receipt := Protocol.Request(1, 1), Protocol.Receipt(10, 5);
    assert Protocol.Reached(ME, es) == s1.(requests := {request});
    RunGrows(ME, es, Protocol.Receive(request, receipt), 3);
    es := es + [Protocol.Timed(Protocol.Receive(request, receipt), 3)];
    RunGrows(ME, es, Protocol.Lose({}, {}), 4);
    es := es + [Protocol.Timed(Protocol.Lose({}, {}), 4)];
  }

  lemma EchoIsStored()
    ensures
      var echo := OwnCopy(10, 1, 5, false);
      StoreIo(QUEUED, Some(ME), echo, 5, k => true).0 ==
      QUEUED.(message := map[1 := Merge(QUEUED.message[1], echo, 5)])
  {
    QueuedTables();
    LeastLocal(QUEUED.message, ME, 1, 1);
  }

  /** Then its echo arrives. */
  lemma LostReplyThenEcho() returns (es: seq<Protocol.Timed>)
    ensures Protocol.Possible(ME, es) && Protocol.SafeRun(ME, es)
    ensures Protocol.Reached(ME, es) ==
      Unanswered(QUEUED.(message := map[1 := Merge(QUEUED.message[1], OwnCopy(10, 1, 5, false), 5)]))
  {
    es := LostReply();
    QueuedTables();
    EchoIsStored();
    var echo := Protocol.Copy(1, OwnCopy(10, 1, 5, false), k => true);
    RunGrows(ME, es, echo, 5);
    es := es + [Protocol.Timed(echo, 5)];
  }

  const REQUEST := Protocol.Request(1, 1)

  const REPLY := Protocol.Reply(1, Protocol.Receipt(10, 5))

  /** The message is sent again and answered. */
  lemma SecondReply() returns (es: seq<Protocol.Timed>)
    ensures Protocol.Possible(ME, es) && Protocol.SafeRun(ME, es)
    ensures Protocol.Reached(ME, es) == Unanswered(QUEUED).(requests := {REQUEST}, replies := {REPLY})
  {
    es := LostReply();
    var s := Protocol.Reached(ME, es);
    QueuedTables();
    RunGrows(ME, es, Protocol.Send(1, 2), 5);
    es := es + [Protocol.Timed(Protocol.Send(1, 2), 5)];
    assert Protocol.Reached(ME, es) == s.(requests := {REQUEST});
    RunGrows(ME, es, Protocol.Receive(REQUEST, Protocol.Receipt(10, 5)), 6);
    es := es + [Protocol.Timed(Protocol.Receive(REQUEST, Protocol.Receipt(10, 5)), 6)];
  }

  /** The ordinary run: created, sent, stored by the server, sent again, acknowledged. */
  lemma MessageIsDelivered() returns (es: seq<Protocol.Timed>)
    ensures Protocol.Possible(ME, es) && Protocol.SafeRun(ME, es)
    ensures
      var s := Protocol.Reached(ME, es);
      && s.acked == {1} && s.db.outbox == map[] && Protocol.Shows(s, 1, 2)
      && s.db.message[1].server == Some(10) && s.db.message[1].pts == 5 && s.db.message[1].body == TEXT
  {
    es := SecondReply();
    QueuedTables();
    AckSettles(QUEUED, 1, 10, 5, 7);
    RunGrows(ME, es, Protocol.AckArrives(REPLY), 7);
    es := es + [Protocol.Timed(Protocol.AckArrives(REPLY), 7)];
  }

  lemma HistoryIsUnsafe(s: Protocol.Sys, works: nat -> bool)
    requires s == Unanswered(QUEUED.(message := map[1 := Merge(QUEUED.message[1], OwnCopy(10, 1, 5, false), 5)]))
    requires works(0) && works(3)
    ensures
      var history := OwnCopy(10, 0, 5, false);
      Protocol.Enabled(s, ME, Protocol.Copy(1, history, works)) && !Protocol.CopySafe(s, ME, history, works, 6)
  {
    QueuedTables();
    HeldOnce(s.db.message, 10, 1);
    assert HasCommand(s.db.outbox, 1);
  }

  /** From there a history page and one retry leave the server with two messages for the one created. */
  lemma OneMessageSentTwice() returns (es: seq<Protocol.Timed>)
    ensures Protocol.Possible(ME, es)
    ensures
      var s := Protocol.Reached(ME, es);
      && s.origin == map[1 := 1] && s.server.Keys == {1, 2} && s.server[1].sid != s.server[2].sid
      && Protocol.Request(1, 2) in s.requests
  {
    es := LostReplyThenEcho();
    var s := Protocol.Reached(ME, es);
    var history, works, receipt := OwnCopy(10, 0, 5, false), (k: nat) => true, Protocol.Receipt(11, 6);
    Protocol.ReachedInv(ME, es);
    HistoryIsUnsafe(s, works);
    Protocol.UnsafeCopySendsTwice(s, ME, 1, history, works, 6, 2, receipt);
    RunGrows(ME, es, Protocol.Copy(1, history, works), 6);
    es := es + [Protocol.Timed(Protocol.Copy(1, history, works), 6)];
    RunGrows(ME, es, Protocol.Send(1, 2), 6);
    es := es + [Protocol.Timed(Protocol.Send(1, 2), 6)];
    RunGrows(ME, es, Protocol.Receive(Protocol.Request(1, 2), receipt), 6);
    es := es + [Protocol.Timed(Protocol.Receive(Protocol.Request(1, 2), receipt), 6)];
  }

  // ----- a message shown as sending without a command -----

  lemma StepsGrow(uid: nat, steps: seq<Step>, op: Op, now: int)
    ensures
      var db, more := After(uid, steps), steps + [Step(op, now)];
      && After(uid, more) == Apply(db, uid, op, now)
      && (FreshRun(uid, steps) && FreshIds(db, uid, op) ==> FreshRun(uid, more))
  {
    assert (steps + [Step(op, now)])[..|steps|] == steps;
  }

  /** Deleting a queued message leaves its command; a later message under the same local id is
      displaced, and enqueueing it makes a ghost. */
  lemma DisplacedMessage() returns (steps: seq<Step>)
    ensures FreshRun(ME, steps)
    ensures
      var db := After(ME, steps);
      NoGhost(db) && Displaced(db, 2) && !NoGhost(Apply(db, ME, OpEnqueue(2, JOB), 4))
  {
    steps := [];
    StepsGrow(ME, steps, OpCreateQueued(DRAFT, 1, JOB), 1);
    steps := steps + [Step(OpCreateQueued(DRAFT, 1, JOB), 1)];
    StepsGrow(ME, steps, OpDeleteLocal(1), 2);
    steps := steps + [Step(OpDeleteLocal(1), 2)];
    StepsGrow(ME, steps, OpCreate(DRAFT, 1), 3);
    steps := steps + [Step(OpCreate(DRAFT, 1), 3)];
    NoGhostExactly(After(ME, steps), ME, OpEnqueue(2, JOB), 4);
  }

  // ----- a former queue item that stays -----

  /** The own row after its echo, and after a history copy took its local id. */
  const ECHOED: Db := QUEUED.(message := map[1 := Merge(QUEUED.message[1], OwnCopy(10, 1, 5, false), 5)])

  const ZEROED: Db := ECHOED.(message := map[1 := Merge(ECHOED.message[1], OwnCopy(10, 0, 5, false), 6)])

  lemma HistoryIsStored()
    ensures StoreIo(ECHOED, Some(ME), OwnCopy(10, 0, 5, false), 6, k => true).0 == ZEROED
  {
    QueuedTables();
    HeldOnce(ECHOED.message, 10, 1);
  }

  /** A message is created, echoed while queued, its local id is taken by a history copy and minted anew:
      its command now stands under another id, and an item of a former queue for it stays. */
  lemma RenamedMessage() returns (steps: seq<Step>)
    ensures FreshRun(ME, steps)
    ensures Migration.Renamed(After(ME, steps), 1) && Migration.Matched(After(ME, steps))
  {
    StepsGrow(ME, [], OpCreateQueued(DRAFT, 1, JOB), 1);
    steps := [] + [Step(OpCreateQueued(DRAFT, 1, JOB), 1)];
    QueuedTables();
    EchoIsStored();
    StepsGrow(ME, steps, OpStore(OwnCopy(10, 1, 5, false), k => true), 5);
    steps := steps + [Step(OpStore(OwnCopy(10, 1, 5, false), k => true), 5)];
    HistoryIsStored();
    StepsGrow(ME, steps, OpStore(OwnCopy(10, 0, 5, false), k => true), 6);
    steps := steps + [Step(OpStore(OwnCopy(10, 0, 5, false), k => true), 6)];
    assert After(ME, steps) == ZEROED;
    StepsGrow(ME, steps, OpSetLocal(1, 2), 7);
    steps := steps + [Step(OpSetLocal(1, 2), 7)];
    assert ZEROED.outbox[1].messageId == 1;
  }

  // ----- a push and a history copy in two orders -----

  /** A push names the second only: which of two copies comes first decides the send time shown. */
  lemma PushTimesDiffer()
    ensures
      var w := Replay.Wire(10, 0, 100, 1, 8, 1, "hello", "", 5, None);
      var push, history := Replay.Pushed(w, 1_700_000_000, false), Replay.Historic(w, 1_700_000_000_317, false);
      Replay.View(Run(EMPTY, Some(ME), [Delivery(push, 1), Delivery(history, 2)]), 10) !=
      Replay.View(Run(EMPTY, Some(ME), [Delivery(history, 1), Delivery(push, 2)]), 10)
  {
    var w := Replay.Wire(10, 0, 100, 1, 8, 1, "hello", "", 5, None);
    Replay.PushAndHistoryConvergeExactly(EMPTY, Some(ME), w, 1_700_000_000, false, 1_700_000_000_317, false,
                                         1, 2, 1, 2);
  }

  // ----- a batch lost behind a failed one -----

  const FIRST: Pipeline.Item := Pipeline.Item("1", 1, false, "")
  const SECOND: Pipeline.Item := Pipeline.Item("2", 1, false, "")

  /** Two batches are queued and drained, and applying the first fails: the second is in no place, and
      fetching its item again drops it as a duplicate. */
  lemma BatchIsLost(limit: nat) returns (es: seq<Pipeline.Event>)
    requires limit >= 512
    ensures
      var r := Pipeline.After(limit, es);
      var again := Pipeline.Next(r, limit, Pipeline.Arrive("message", None, [SECOND]));
      var second := Pipeline.Batch("message", None, [SECOND]);
      && r.lost == [second] && r.taken == [] && r.pipe.queue == [Pipeline.Batch("message", None, [FIRST])]
      && again.pipe == r.pipe && again.dropped == r.dropped + 1 && !Pipeline.Conserved(again)
  {
    var a, b := Pipeline.Arrive("message", None, [FIRST]), Pipeline.Arrive("message", None, [SECOND]);
    es := [a, b, Pipeline.Apply(0)];
    TwoArrive(limit, a, b);
    assert es[..2] == [a, b];
    var r := Pipeline.After(limit, es);
    assert r.accepted[1] == Pipeline.Tagged("message", None, SECOND);
    Pipeline.RefusedInWindow(limit, es, 1);
    Pipeline.Conservation(limit, es + [b]);
    assert (es + [b])[..3] == es;
  }

  lemma TwoArrive(limit: nat, a: Pipeline.Event, b: Pipeline.Event)
    requires limit >= 512
    requires a == Pipeline.Arrive("message", None, [FIRST]) && b == Pipeline.Arrive("message", None, [SECOND])
    ensures
      var r := Pipeline.After(limit, [a, b]);
      && r.pipe.queue == [Pipeline.Batch("message", None, [FIRST]), Pipeline.Batch("message", None, [SECOND])]
      && r.taken == [] == r.lost && |r.accepted| == 2 && r.accepted[1] == Pipeline.Tagged("message", None, SECOND)
  {
    KeysDiffer();
    RunOfOne(limit, a);
    var one := Pipeline.Next(Pipeline.Start(), limit, a);
    OneArrives(Pipeline.Start(), limit, FIRST);
    assert [a, b][..1] == [a];
    OneArrives(one, limit, SECOND);
  }

  lemma RunOfOne(limit: nat, e: Pipeline.Event)
    ensures Pipeline.After(limit, [e]) == Pipeline.Next(Pipeline.Start(), limit, e)
  {
    var es := [e];
    assert es[..0] == [];
  }

  lemma KeysDiffer()
    ensures Pipeline.DedupeKey("message", None, FIRST) != Pipeline.DedupeKey("message", None, SECOND)
  {
    var k, l := Pipeline.DedupeKey("message", None, FIRST), Pipeline.DedupeKey("message", None, SECOND);
    assert k[9] == '1' && l[9] == '2';
  }

  /** A new item arriving alone is queued in a batch of its own. */
  lemma OneArrives(r: Pipeline.Run, limit: nat, item: Pipeline.Item)
    requires Pipeline.DedupeKey("message", None, item) !in Pipeline.Window(r.pipe.history, limit)
    ensures
      var next := Pipeline.Next(r, limit, Pipeline.Arrive("message", None, [item]));
      && next.pipe.queue == r.pipe.queue + [Pipeline.Batch("message", None, [item])]
      && next.pipe.history == r.pipe.history + [Pipeline.DedupeKey("message", None, item)]
      && next.accepted == r.accepted + [Pipeline.Tagged("message", None, item)]
      && next.taken == r.taken && next.lost == r.lost
  {
    assert [item][..0] == [];
    assert Pipeline.Sift(r.pipe.history, limit, "message", None, []) == ([], r.pipe.history);
    assert [] + [item] == [item];
  }

  // ----- a revocation lost in a merge -----

  /** A created message, its revoked history copy, then its echo: the two rows are merged and the
      message is shown as not revoked. */
  lemma RevocationIsLost() returns (before: Db, echo: Input)
    ensures
      && Identity(before, ME) && Accepted(before, Some(ME), echo)
      && Replay.View(before, echo.server).Some? && Replay.View(before, echo.server).value.revoked
    ensures
      var after := Replay.View(Store(before, Some(ME), echo, 3).0, echo.server);
      after.Some? && !after.value.revoked
  {
    var created, history := Create(EMPTY, DRAFT, 1, 1).0, OwnCopy(10, 0, 5, true);
    CreateKeepsIdentity(EMPTY, ME, DRAFT, 1, 1);
    StoreKeepsIdentity(created, ME, history, 2);
    before, echo := Store(created, Some(ME), history, 2).0, OwnCopy(10, 1, 5, false);
    assert Placed(created, Some(ME), history, 2).0 == 2;
    HeldOnce(before.message, 10, 2);
    LeastLocal(before.message, ME, 1, 1);
    Replay.RevocationSurvivesExactly(before, Some(ME), echo, 3);
  }

  // ----- a failed upsert that cannot be made good -----

  /** The own row was acknowledged under one server id at version 9; another row holds server id 10 at
      version 5. An echo that ties them together deletes the other row, fails to update, and is then
      refused: the message is no longer shown under its server id. */
  lemma RetryIsRefused() returns (before: Db, echo: Input, io: nat -> bool)
    ensures
      var failed := StoreIo(before, Some(ME), echo, 3, io).0;
      && Identity(before, ME) && FindServer(before.message, echo.server).Some?
      && Store(failed, Some(ME), echo, 4).0 == failed && FindServer(failed.message, echo.server) == None
  {
    before := TwoRows();
    echo, io := OwnCopy(10, 1, 5, false), k => k != 3;
    UpdateFails(before, echo, io);
    RetryExactly(before, Some(ME), echo, 3, 4, io);
  }

  lemma UpdateFails(db: Db, echo: Input, io: nat -> bool)
    requires Identity(db, ME) && db.message.Keys == {1, 2} && echo == OwnCopy(10, 1, 5, false)
    requires db.message[1].from == ME && db.message[1].local == 1 && db.message[1].orderSeq == 9
    requires db.message[2].server == Some(10) && db.message[2].local == 0
    requires db.message[2].orderSeq == db.message[2].pts == 5
    requires io(0) && io(1) && io(2) && !io(3)
    ensures LosesDuplicate(db, Some(ME), echo, io) && OwnRow(db, Some(ME), echo) == Some(1)
    ensures FindServer(db.message, 10) == Some(2) && StoreIo(db, Some(ME), echo, 3, io).1.Err?
  {
    HeldOnce(db.message, 10, 2);
    LeastLocal(db.message, ME, 1, 1);
  }

  /** With an engine that works the same echo takes the own row back from version 9 to 5, and nothing is
      shown under server id 20 any more. */
  lemma OwnVersionDrops() returns (before: Db, echo: Input)
    ensures Identity(before, ME) && Accepted(before, Some(ME), echo) && Replay.View(before, 20).Some?
    ensures
      var after := Store(before, Some(ME), echo, 3).0;
      && 1 in before.message && before.message[1].orderSeq == 9 && 1 in after.message && after.message[1].orderSeq == 5
      && Replay.View(after, 20) == None
  {
    before := TwoRows();
    echo := OwnCopy(10, 1, 5, false);
    UpdateFails(before, echo, k => k != 3);
    HeldOnce(before.message, 20, 1);
    Replay.OwnVersionDropsExactly(before, Some(ME), echo, 3);
  }

  /** Row 1 is the own one. */
  lemma TwoRows() returns (db: Db)
    ensures Identity(db, ME) && db.message.Keys == {1, 2}
    ensures db.message[1].from == ME && db.message[1].local == 1 && db.message[1].orderSeq == 9
    ensures db.message[1].server == Some(20) && db.message[2].server == Some(10) && db.message[2].local == 0
    ensures db.message[2].orderSeq == db.message[2].pts == 5
  {
    var created, history := Create(EMPTY, DRAFT, 1, 1).0, OwnCopy(10, 0, 5, false);
    CreateKeepsIdentity(EMPTY, ME, DRAFT, 1, 1);
    AckKeepsIdentity(created, ME, 1, 20, 9, 1);
    var sent := MarkSent(created, 1, 20, 9, 1).0;
    assert sent.message.Keys == {1};
    StoreKeepsIdentity(sent, ME, history, 2);
    assert Placed(sent, Some(ME), history, 2) == (2, NewRow(history, 2));
    db := Store(sent, Some(ME), history, 2).0;
  }
}
