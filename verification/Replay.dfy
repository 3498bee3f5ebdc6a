/** Replaying messages: what the store shows under a server id depends on which copies of it arrived,
    not on their order, number or batching, nor on what else arrived. */
module Replay {
  import opened Tables
  import opened Canonical
  import opened Upsert

  /** What a reader sees under a server id, without the local key, the status and the row stamps. */
  datatype Shown = Shown(
    channel: nat, channelType: int, from: nat, body: Body, mime: Option<string>, orderSeq: int,
    pts: int, sentAt: int, precision: Precision, revoked: bool)

  predicate Revoked(db: Db, id: nat) { id in db.extra && db.extra[id].revoke }

  function View(db: Db, s: nat): Option<Shown> {
    var id := FindServer(db.message, s);
    if id.None? then None
    else
      var m := db.message[id.value];
      Some(Shown(m.channel, m.channelType, m.from, m.body, m.mime, m.orderSeq, m.pts, m.createdAt,
                 m.precision, Revoked(db, id.value)))
  }

  /** No copy of `s` is looked up by local id: each comes from another sender, or carries none. */
  predicate NoneSeeksOwn(uid: Option<nat>, ds: seq<Delivery>, s: nat) {
    forall k :: 0 <= k < |ds| && ds[k].inp.server == s ==> !SeeksOwn(uid, ds[k].inp)
  }

  /** The row holding `s` is not one that an echo of another message can be merged into. */
  predicate Apart(db: Db, uid: Option<nat>, s: nat) {
    var id := FindServer(db.message, s);
    id.Some? ==> uid != Some(db.message[id.value].from) || db.message[id.value].local == 0
  }

  /** Effect of one copy on what is shown under its own server id. */
  function Absorb(v: Option<Shown>, d: Delivery): Option<Shown> {
    var inp := d.inp;
    if v.None? then
      Some(Shown(inp.channel, inp.channelType, inp.from, inp.body, inp.mime, inp.orderSeq, inp.pts,
                 SentAtMs(inp.timestamp, d.now), inp.precision, inp.revoked))
    else if KeyLess(Key(inp), (v.value.orderSeq, v.value.pts)) then v
    else
      var held := v.value;
      var takesTime := held.sentAt <= 0 || (inp.precision == Milliseconds && held.precision == Seconds);
      Some(Shown(inp.channel, inp.channelType, inp.from, inp.body,
                 if inp.mime.Some? then inp.mime else held.mime, inp.orderSeq, inp.pts,
                 if takesTime then SentAtMs(inp.timestamp, d.now) else held.sentAt,
                 if takesTime then inp.precision else held.precision, held.revoked || inp.revoked))
  }

  /** A copy acts on what is shown under its own server id only, and there as `Absorb`; echoes of own
      messages may arrive in between. */
  lemma StoreActsPointwise(db: Db, uid: Option<nat>, d: Delivery, s: nat)
    requires Schema(db) && s > 0 && Apart(db, uid, s) && (d.inp.server == s ==> !SeeksOwn(uid, d.inp))
    ensures
      var db' := Store(db, uid, d.inp, d.now).0;
      && Schema(db') && Apart(db', uid, s)
      && View(db', s) == if s == d.inp.server then Absorb(View(db, s), d) else View(db, s)
  {
    StoreKeepsSchema(db, uid, d.inp, d.now);
    if Accepted(db, uid, d.inp) {
      var (id, row) := Placed(db, uid, d.inp, d.now);
      if s == d.inp.server {
        OwnIdIsAbsorbed(db, uid, d);
      } else {
        if id in db.message && db.message[id].server == Some(s) { HeldOnce(db.message, s, id); }
        OtherIdsKeepTheirView(db, uid, id, row, d, s);
      }
    }
  }

  lemma OwnIdIsAbsorbed(db: Db, uid: Option<nat>, d: Delivery)
    requires Schema(db) && Accepted(db, uid, d.inp) && !SeeksOwn(uid, d.inp)
    ensures
      var db' := Store(db, uid, d.inp, d.now).0;
      Apart(db', uid, d.inp.server) && View(db', d.inp.server) == Absorb(View(db, d.inp.server), d)
  {
    var (id, row) := Placed(db, uid, d.inp, d.now);
    PlaceKeepsSchema(db, id, row, d.inp, d.now);
    HeldOnce(Place(db, id, row, d.inp, d.now).message, d.inp.server, id);
  }

  lemma OtherIdsKeepTheirView(db: Db, uid: Option<nat>, id: nat, row: Message, d: Delivery, s: nat)
    requires Schema(db) && d.inp.server > 0 && row.server == Some(d.inp.server) && s != d.inp.server
    requires id == db.nextId || (id in db.message && db.message[id].server != Some(s))
    ensures
      var db' := Place(db, id, row, d.inp, d.now);
      View(db', s) == View(db, s) && (Apart(db, uid, s) ==> Apart(db', uid, s))
  {
    var db' := Place(db, id, row, d.inp, d.now);
    PlaceKeepsSchema(db, id, row, d.inp, d.now);
    var before := FindServer(db.message, s);
    if before.Some? {
      assert before.value in db'.message && db'.message[before.value] == db.message[before.value];
      HeldOnce(db'.message, s, before.value);
    }
  }

  /** What a run shows under `s`, computed from the copies of `s` alone. */
  function Absorbed(v: Option<Shown>, ds: seq<Delivery>, s: nat): Option<Shown> {
    if ds == [] then v
    else
      var last := ds[|ds| - 1];
      var before := Absorbed(v, ds[..|ds| - 1], s);
      if last.inp.server == s then Absorb(before, last) else before
  }

  lemma {:induction false} RunActsPointwise(db: Db, uid: Option<nat>, ds: seq<Delivery>, s: nat)
    requires Schema(db) && s > 0 && Apart(db, uid, s) && NoneSeeksOwn(uid, ds, s)
    ensures
      var db' := Run(db, uid, ds);
      Schema(db') && Apart(db', uid, s) && View(db', s) == Absorbed(View(db, s), ds, s)
  {
    if ds != [] {
      RunActsPointwise(db, uid, ds[..|ds| - 1], s);
      StoreActsPointwise(Run(db, uid, ds[..|ds| - 1]), uid, ds[|ds| - 1], s);
    }
  }

  // ----- convergence -----

  /** Two copies of one message: alike but for time resolution and revoke flag, and with one time
      per resolution. */
  predicate SameMessage(a: Input, b: Input) {
    && a.channel == b.channel && a.channelType == b.channelType && a.from == b.from && a.body == b.body
    && a.mime == b.mime && Key(a) == Key(b)
    && (a.precision == b.precision ==> a.timestamp == b.timestamp)
  }

  /** The copies of `s` are copies of one message. */
  ghost predicate Consistent(ds: seq<Delivery>, s: nat) {
    && (forall k :: 0 <= k < |ds| && ds[k].inp.server == s ==> ds[k].inp.timestamp > 0)
    && (forall j, k :: 0 <= j < |ds| && 0 <= k < |ds| && ds[j].inp.server == s == ds[k].inp.server
          ==> SameMessage(ds[j].inp, ds[k].inp))
  }

  /** Some delivered copy of `s` has this resolution, or is revoked. */
  ghost predicate AnyWith(ds: seq<Delivery>, s: nat, p: Precision) {
    exists k :: 0 <= k < |ds| && ds[k].inp.server == s && ds[k].inp.precision == p
  }

  ghost predicate AnyRevoked(ds: seq<Delivery>, s: nat) {
    exists k :: 0 <= k < |ds| && ds[k].inp.server == s && ds[k].inp.revoked
  }

  /** `v` is what a set of copies means: nothing if there is none; otherwise their common content,
      the millisecond time if any copy had one, and revoked if any copy was. */
  ghost predicate Means(v: Option<Shown>, ds: seq<Delivery>, s: nat) {
    && (v.None? <==> forall k :: 0 <= k < |ds| ==> ds[k].inp.server != s)
    && (v.Some? ==>
          && (v.value.precision == Milliseconds <==> AnyWith(ds, s, Milliseconds))
          && (v.value.revoked <==> AnyRevoked(ds, s))
          && (forall k :: 0 <= k < |ds| && ds[k].inp.server == s ==> ShowsContent(v.value, ds[k].inp)))
  }

  predicate ShowsContent(v: Shown, inp: Input) {
    && v.channel == inp.channel && v.channelType == inp.channelType && v.from == inp.from
    && v.body == inp.body && v.mime == inp.mime && (v.orderSeq, v.pts) == Key(inp)
    && (v.precision == inp.precision ==> v.sentAt == SentAtMs(inp.timestamp, 0))
    && v.sentAt > 0
  }

  lemma {:induction false} AbsorbedMeans(ds: seq<Delivery>, s: nat)
    requires Consistent(ds, s)
    ensures Means(Absorbed(None, ds, s), ds, s)
  {
    if ds != [] {
      var init, last := ds[..|ds| - 1], ds[|ds| - 1];
      AbsorbedMeans(init, s);
      assert forall k :: 0 <= k < |init| ==> ds[k] == init[k];
      AbsorbStepMeans(Absorbed(None, init, s), init, last, s);
      assert init + [last] == ds;
    }
  }

  /** One more delivery adds what it has, if it is a copy of `s`. */
  lemma FindingsGrow(ds: seq<Delivery>, d: Delivery, s: nat)
    ensures forall p :: AnyWith(ds + [d], s, p) <==> AnyWith(ds, s, p) || (d.inp.server == s && d.inp.precision == p)
    ensures AnyRevoked(ds + [d], s) <==> AnyRevoked(ds, s) || (d.inp.server == s && d.inp.revoked)
  {
    var all := ds + [d];
    assert all[|ds|] == d;
    assert forall k :: 0 <= k < |ds| ==> all[k] == ds[k];
  }

  lemma AbsorbStepMeans(v: Option<Shown>, ds: seq<Delivery>, d: Delivery, s: nat)
    requires Consistent(ds + [d], s) && Means(v, ds, s)
    ensures Means(if d.inp.server == s then Absorb(v, d) else v, ds + [d], s)
  {
    var all := ds + [d];
    assert all[|ds|] == d;
    assert forall k :: 0 <= k < |ds| ==> all[k] == ds[k];
    FindingsGrow(ds, d, s);
    forall k | 0 <= k < |ds| && ds[k].inp.server == s == d.inp.server
      ensures SameMessage(ds[k].inp, d.inp) && SameMessage(d.inp, ds[k].inp)
    {
      assert all[k].inp.server == all[|ds|].inp.server;
    }
  }

  ghost predicate Copied(ds: seq<Delivery>, inp: Input) {
    exists k :: 0 <= k < |ds| && ds[k].inp == inp
  }

  /** Both lists deliver the same set of copies of `s`, in any order and any number of times. */
  ghost predicate SameCopies(a: seq<Delivery>, b: seq<Delivery>, s: nat) {
    forall inp: Input :: inp.server == s ==> (Copied(a, inp) <==> Copied(b, inp))
  }

  lemma SameCopiesFind(a: seq<Delivery>, b: seq<Delivery>, s: nat, j: nat) returns (k: nat)
    requires SameCopies(a, b, s) && j < |a| && a[j].inp.server == s
    ensures k < |b| && b[k].inp == a[j].inp
  {
    assert Copied(a, a[j].inp);
    k :| 0 <= k < |b| && b[k].inp == a[j].inp;
  }

  /** One list's findings are found in the other. */
  lemma SameCopiesSameFindings(a: seq<Delivery>, b: seq<Delivery>, s: nat)
    requires SameCopies(a, b, s)
    ensures AnyWith(a, s, Milliseconds) ==> AnyWith(b, s, Milliseconds)
    ensures AnyRevoked(a, s) ==> AnyRevoked(b, s)
  {
    if AnyWith(a, s, Milliseconds) {
      var j :| 0 <= j < |a| && a[j].inp.server == s && a[j].inp.precision == Milliseconds;
      var k := SameCopiesFind(a, b, s, j);
    }
    if AnyRevoked(a, s) {
      var j :| 0 <= j < |a| && a[j].inp.server == s && a[j].inp.revoked;
      var k := SameCopiesFind(a, b, s, j);
    }
  }

  /** What a set of copies means does not depend on how they are listed. */
  lemma MeaningIsUnique(v: Option<Shown>, w: Option<Shown>, a: seq<Delivery>, b: seq<Delivery>, s: nat)
    requires Means(v, a, s) && Means(w, b, s) && SameCopies(a, b, s)
    ensures v == w
  {
    SameCopiesSameFindings(a, b, s);
    SameCopiesSameFindings(b, a, s);
    if v.Some? {
      var j :| 0 <= j < |a| && a[j].inp.server == s
        && (v.value.precision == Milliseconds ==> a[j].inp.precision == Milliseconds);
      var k := SameCopiesFind(a, b, s, j);
      assert ShowsContent(v.value, a[j].inp) && ShowsContent(w.value, b[k].inp);
    }
  }

  /** Replay convergence: two stores that have not yet seen a message and receive the same set of
      consistent copies of it, reordered, repeated, at other clock times and among whatever other
      deliveries, show the same message; and what they show is the meaning of the set of copies. */
  lemma ReplayConverges(db1: Db, db2: Db, uid: Option<nat>, a: seq<Delivery>, b: seq<Delivery>, s: nat)
    requires Schema(db1) && Schema(db2) && s > 0 && NoneSeeksOwn(uid, a, s) && NoneSeeksOwn(uid, b, s)
    requires Consistent(a, s) && Consistent(b, s) && SameCopies(a, b, s)
    requires View(db1, s) == View(db2, s) == None
    ensures View(Run(db1, uid, a), s) == View(Run(db2, uid, b), s)
    ensures Means(View(Run(db1, uid, a), s), a, s)
  {
    RunActsPointwise(db1, uid, a, s);
    RunActsPointwise(db2, uid, b, s);
    AbsorbedMeans(a, s);
    AbsorbedMeans(b, s);
    MeaningIsUnique(Absorbed(None, a, s), Absorbed(None, b, s), a, b, s);
  }

  // ----- what the routes deliver -----

  /** One message as its sender's server describes it, whatever route its copies take. */
  datatype Wire = Wire(
    server: nat, local: nat, channel: nat, channelType: int, from: nat, kind: int, content: string, extra: string,
    pts: int, mime: Option<string>)

  function Pushed(w: Wire, seconds: Int64, needReceipt: bool): Input {
    PushRoute(w.server, w.local, w.channel, w.channelType, w.from, w.kind, w.content, w.extra, w.pts, seconds,
              needReceipt, w.mime)
  }

  function Differenced(w: Wire, millis: Int64): Input {
    DifferenceRoute(w.server, w.local, w.channel, w.channelType, w.from, w.kind, w.content, w.extra, w.pts, millis,
                    w.mime)
  }

  function Historic(w: Wire, millis: nat, revoked: bool): Input {
    HistoryRoute(w.server, w.channel, w.channelType, w.from, w.kind, w.content, w.extra, Some(w.pts), millis, revoked,
                 w.mime)
  }

  /** The input says what the wire says, field by field. */
  predicate Tells(inp: Input, w: Wire) {
    && inp.server == w.server && inp.channel == w.channel && inp.from == w.from
    && inp.channelType == (if w.channelType == 0 then 1 else w.channelType)
    && inp.body.kind == w.kind && inp.body.content == w.content && inp.body.extra == w.extra
    && inp.body.searchable == "" && inp.pts == inp.orderSeq == w.pts && inp.mime == w.mime && inp.status == 2
  }

  /** The projection to a store input takes over a canonical message field by field; the channel type 0 is the
      direct one, 1, and a message is ordered by its place in the timeline. */
  lemma ProjectionTells(c: Inbound, status: int, mime: Option<string>)
    ensures
      var inp := ToUpsertInput(c, status, mime);
      && inp.server == c.server && inp.local == c.local && inp.channel == c.channel && inp.from == c.from
      && inp.channelType == (if c.channelType == 0 then 1 else c.channelType) && inp.timestamp == c.sentAtMs
      && inp.body.kind == c.kind && inp.body.content == c.content && inp.body.extra == c.extra
      && inp.body.searchable == "" && inp.body.setting == 0 && inp.pts == inp.orderSeq == c.pts
      && inp.precision == c.precision && inp.revoked == c.revoked && inp.status == status && inp.mime == mime
  {
  }

  /** Every route tells the store what the wire says: a push and a sync copy carry the local id, a history
      copy does not; only a history copy can be revoked; only a push asks for a receipt; a history copy
      without a sequence number has none; times are normalised once more than the route has adapters. */
  lemma RoutesTellTheWire(w: Wire, seconds: Int64, needReceipt: bool, millis: nat, revoked: bool, time: Int64)
    ensures
      var push, sync, history := Pushed(w, seconds, needReceipt), Differenced(w, time), Historic(w, millis, revoked);
      && Tells(push, w) && Tells(sync, w) && Tells(history, w)
      && push.local == sync.local == w.local && history.local == 0
      && !push.revoked && !sync.revoked && history.revoked == revoked
      && push.body.setting == (if needReceipt then 1 else 0) && sync.body.setting == history.body.setting == 0
      && (100_000_000 <= seconds < 100_000_000_000 ==> push.timestamp == seconds * 1000)
      && (time >= 100_000_000_000 ==> sync.timestamp == time)
      && (100_000_000_000 <= millis <= I64_MAX ==> history.timestamp == millis)
      && (millis > I64_MAX ==> history.timestamp == I64_MAX)
    ensures
      HistoryRoute(w.server, w.channel, w.channelType, w.from, w.kind, w.content, w.extra, None, millis, revoked,
                   w.mime) ==
      Historic(w.(pts := 0), millis, revoked)
  {
    NormalisationComposes(seconds, 0);
  }

  /** From the wire to the reader: a store that does not have the message shows, after one copy by any
      route, exactly what the wire says. */
  lemma DeliveredIsShown(db: Db, uid: Option<nat>, w: Wire, inp: Input, now: int)
    requires Schema(db) && w.server > 0 && View(db, w.server) == None && Tells(inp, w) && !SeeksOwn(uid, inp)
    ensures
      var v := View(Run(db, uid, [Delivery(inp, now)]), w.server);
      && v.Some? && v.value.channel == w.channel && v.value.from == w.from
      && v.value.channelType == (if w.channelType == 0 then 1 else w.channelType)
      && v.value.body.kind == w.kind && v.value.body.content == w.content && v.value.body.extra == w.extra
      && v.value.mime == w.mime && v.value.orderSeq == v.value.pts == w.pts && v.value.revoked == inp.revoked
      && v.value.sentAt == SentAtMs(inp.timestamp, now) && v.value.precision == inp.precision
  {
    var ds := [Delivery(inp, now)];
    assert ds[..0] == [];
    RunActsPointwise(db, uid, ds, w.server);
    assert Absorbed(None, [], w.server) == None;
  }

  /** What is shown is what the row and its extra hold. */
  lemma ShownIsStored(db: Db, i: nat)
    requires Schema(db) && i in db.message && db.message[i].server.Some?
    ensures
      var row, v := db.message[i], View(db, db.message[i].server.value);
      && v.Some? && v.value.channel == row.channel && v.value.channelType == row.channelType && v.value.from == row.from
      && v.value.body == row.body && v.value.mime == row.mime && v.value.orderSeq == row.orderSeq
      && v.value.pts == row.pts && v.value.sentAt == row.createdAt && v.value.precision == row.precision
      && (v.value.revoked <==> i in db.extra && db.extra[i].revoke)
  {
    HeldOnce(db.message, db.message[i].server.value, i);
  }

  /** A sync copy and a history copy are copies of one message exactly when their times normalise alike; a
      push copy and either of them exactly when in addition no receipt is asked for. All three reach the
      store as milliseconds. */
  lemma RoutesMakeSameMessage(w: Wire, seconds: Int64, needReceipt: bool, millis: Int64, revoked: bool)
    requires millis >= 0
    ensures
      var push, sync, history := Pushed(w, seconds, needReceipt), Differenced(w, millis), Historic(w, millis, revoked);
      var sameTime := NormalizeSentAtMs(NormalizeSentAtMs(seconds)) == NormalizeSentAtMs(millis);
      && SameMessage(sync, history) && SameMessage(history, sync)
      && (SameMessage(push, history) <==> sameTime && !needReceipt)
      && (SameMessage(push, sync) <==> sameTime && !needReceipt)
      && push.precision == sync.precision == history.precision == Milliseconds
      && (100_000_000 <= seconds < MIN_PLAUSIBLE_MS <= millis ==> (sameTime <==> millis == seconds * 1000))
  {
    NormalisationComposes(seconds, 0);
  }

  /** A push copy and a history copy of a message not yet stored show the same message in either order
      exactly when their times are the same to the millisecond and no receipt is asked for: the first copy
      keeps the time, the last one the receipt setting. */
  lemma PushAndHistoryConvergeExactly(
    db: Db, uid: Option<nat>, w: Wire, seconds: Int64, needReceipt: bool, millis: Int64, revoked: bool, t1: int,
    t2: int, t3: int, t4: int)
    requires Schema(db) && w.server > 0 && View(db, w.server) == None && (uid != Some(w.from) || w.local == 0)
    requires seconds > 0 && millis > 0
    ensures
      var push, history := Pushed(w, seconds, needReceipt), Historic(w, millis, revoked);
      var a := View(Run(db, uid, [Delivery(push, t1), Delivery(history, t2)]), w.server);
      var b := View(Run(db, uid, [Delivery(history, t3), Delivery(push, t4)]), w.server);
      && (a == b <==> SentAtMs(push.timestamp, 0) == SentAtMs(history.timestamp, 0) && !needReceipt)
      && (100_000_000 <= seconds < MIN_PLAUSIBLE_MS <= millis ==>
            (a == b <==> millis == seconds * 1000 && !needReceipt))
  {
    var push, history := Pushed(w, seconds, needReceipt), Historic(w, millis, revoked);
    TwoCopies(db, uid, Delivery(push, t1), Delivery(history, t2));
    TwoCopies(db, uid, Delivery(history, t3), Delivery(push, t4));
    NormalisationComposes(seconds, 0);
    TwoCopiesShow(Delivery(push, t1), Delivery(history, t2));
    TwoCopiesShow(Delivery(history, t3), Delivery(push, t4));
  }

  lemma TwoCopies(db: Db, uid: Option<nat>, d: Delivery, e: Delivery)
    requires Schema(db) && d.inp.server == e.inp.server > 0 && View(db, d.inp.server) == None
    requires !SeeksOwn(uid, d.inp) && !SeeksOwn(uid, e.inp)
    ensures View(Run(db, uid, [d, e]), d.inp.server) == Absorb(Absorb(None, d), e)
  {
    var ds, s := [d, e], d.inp.server;
    RunActsPointwise(db, uid, ds, s);
    assert ds[..1] == [d] && ds[..1][..0] == [];
    assert Absorbed(None, ds[..1], s) == Absorb(Absorbed(None, [], s), d);
  }

  /** Of two millisecond copies of one version the first fixes the time and the last the rest. */
  lemma TwoCopiesShow(d: Delivery, e: Delivery)
    requires d.inp.precision == e.inp.precision == Milliseconds && d.inp.timestamp > 0 && Key(d.inp) == Key(e.inp)
    ensures
      var v := Absorb(Absorb(None, d), e);
      && v.Some? && v.value.sentAt == SentAtMs(d.inp.timestamp, 0) && v.value.precision == Milliseconds
      && v.value.body == e.inp.body && v.value.channel == e.inp.channel && v.value.channelType == e.inp.channelType
      && v.value.from == e.inp.from && (v.value.orderSeq, v.value.pts) == Key(e.inp)
      && v.value.mime == (if e.inp.mime.Some? then e.inp.mime else d.inp.mime)
      && (v.value.revoked <==> d.inp.revoked || e.inp.revoked)
  {
  }

  /** `ds[j]` is the first copy of `s`, and all of them come as milliseconds. */
  ghost predicate FirstCopy(ds: seq<Delivery>, s: nat, j: nat) {
    && j < |ds| && ds[j].inp.server == s && (forall k :: 0 <= k < j ==> ds[k].inp.server != s)
    && forall k :: 0 <= k < |ds| && ds[k].inp.server == s ==>
         ds[k].inp.timestamp > 0 && ds[k].inp.precision == Milliseconds
  }

  /** Over any run of such copies, whatever their versions, the message keeps the send time of the first. */
  lemma FirstTimeStays(db: Db, uid: Option<nat>, ds: seq<Delivery>, s: nat, j: nat)
    requires Schema(db) && s > 0 && NoneSeeksOwn(uid, ds, s) && View(db, s) == None && FirstCopy(ds, s, j)
    ensures
      var v := View(Run(db, uid, ds), s);
      v.Some? && v.value.sentAt == SentAtMs(ds[j].inp.timestamp, 0)
  {
    RunActsPointwise(db, uid, ds, s);
    AbsorbedFirstTime(ds, s, j);
  }

  lemma {:induction false} AbsorbedFirstTime(ds: seq<Delivery>, s: nat, j: nat)
    requires FirstCopy(ds, s, j)
    ensures
      var v := Absorbed(None, ds, s);
      && v.Some? && v.value.sentAt == SentAtMs(ds[j].inp.timestamp, 0) > 0 && v.value.precision == Milliseconds
  {
    var init := ds[..|ds| - 1];
    if j < |init| {
      AbsorbedFirstTime(init, s, j);
    } else {
      NothingAbsorbed(init, s);
    }
  }

  lemma {:induction false} NothingAbsorbed(ds: seq<Delivery>, s: nat)
    requires forall k :: 0 <= k < |ds| ==> ds[k].inp.server != s
    ensures Absorbed(None, ds, s) == None
  {
    if ds != [] { NothingAbsorbed(ds[..|ds| - 1], s); }
  }

  // ----- no regression -----

  /** `ds[j]` is the copy of `s` that carries the greatest version, and the last one that does. */
  ghost predicate Newest(ds: seq<Delivery>, s: nat, j: nat) {
    && j < |ds| && ds[j].inp.server == s
    && (forall k :: 0 <= k < |ds| && ds[k].inp.server == s ==> !KeyLess(Key(ds[j].inp), Key(ds[k].inp)))
    && (forall k :: j < k < |ds| && ds[k].inp.server == s ==> KeyLess(Key(ds[k].inp), Key(ds[j].inp)))
  }

  predicate ShowsFrom(v: Shown, inp: Input) {
    && (v.orderSeq, v.pts) == Key(inp) && v.body == inp.body && v.channel == inp.channel
    && v.channelType == inp.channelType && v.from == inp.from
  }

  ghost predicate ShowsNewest(v: Option<Shown>, ds: seq<Delivery>, s: nat) {
    && (v.None? <==> forall k :: 0 <= k < |ds| ==> ds[k].inp.server != s)
    && (v.Some? ==> exists j: nat :: Newest(ds, s, j) && ShowsFrom(v.value, ds[j].inp))
  }

  lemma AbsorbStepShowsNewest(v: Option<Shown>, ds: seq<Delivery>, d: Delivery, s: nat)
    requires ShowsNewest(v, ds, s)
    ensures ShowsNewest(if d.inp.server == s then Absorb(v, d) else v, ds + [d], s)
  {
    var all := ds + [d];
    assert all[|ds|] == d;
    assert forall k :: 0 <= k < |ds| ==> all[k] == ds[k];
    if v.Some? {
      var j: nat :| Newest(ds, s, j) && ShowsFrom(v.value, ds[j].inp);
      assert Newest(all, s, if d.inp.server == s && !KeyLess(Key(d.inp), Key(ds[j].inp)) then |ds| else j);
    } else if d.inp.server == s {
      assert Newest(all, s, |ds|);
    }
  }

  lemma {:induction false} AbsorbedShowsNewest(ds: seq<Delivery>, s: nat)
    ensures ShowsNewest(Absorbed(None, ds, s), ds, s)
  {
    if ds != [] {
      AbsorbedShowsNewest(ds[..|ds| - 1], s);
      AbsorbStepShowsNewest(Absorbed(None, ds[..|ds| - 1], s), ds[..|ds| - 1], ds[|ds| - 1], s);
      assert ds[..|ds| - 1] + [ds[|ds| - 1]] == ds;
    }
  }

  /** No regression: after any run, its copies consistent or not, the stored version of a message
      first seen in that run is the greatest delivered and its content comes from the last copy
      carrying that version. */
  lemma NoRegression(db: Db, uid: Option<nat>, ds: seq<Delivery>, s: nat)
    requires Schema(db) && s > 0 && NoneSeeksOwn(uid, ds, s) && View(db, s) == None
    ensures ShowsNewest(View(Run(db, uid, ds), s), ds, s)
  {
    RunActsPointwise(db, uid, ds, s);
    AbsorbedShowsNewest(ds, s);
  }

  /** From any store, over any run: the version never goes down, the revoke flag never clears and
      a stored millisecond send time never changes. */
  lemma {:induction false} RunOnlyAdvances(v: Shown, ds: seq<Delivery>, s: nat)
    ensures
      var w := Absorbed(Some(v), ds, s);
      && w.Some? && !KeyLess((w.value.orderSeq, w.value.pts), (v.orderSeq, v.pts))
      && (v.revoked ==> w.value.revoked)
      && (v.precision == Milliseconds && v.sentAt > 0 ==>
            w.value.sentAt == v.sentAt && w.value.precision == Milliseconds)
  {
    if ds != [] { RunOnlyAdvances(v, ds[..|ds| - 1], s); }
  }

  lemma StoredMessagesOnlyAdvance(db: Db, uid: Option<nat>, ds: seq<Delivery>, s: nat)
    requires Schema(db) && s > 0 && Apart(db, uid, s) && NoneSeeksOwn(uid, ds, s) && View(db, s).Some?
    ensures
      var v, w := View(db, s).value, View(Run(db, uid, ds), s);
      && w.Some? && !KeyLess((w.value.orderSeq, w.value.pts), (v.orderSeq, v.pts))
      && (v.revoked ==> w.value.revoked)
      && (v.precision == Milliseconds && v.sentAt > 0 ==>
            w.value.sentAt == v.sentAt && w.value.precision == Milliseconds)
  {
    RunActsPointwise(db, uid, ds, s);
    RunOnlyAdvances(View(db, s).value, ds, s);
  }

  // ----- where the own row goes back a version, exactly -----

  /** The guard looks at the row holding the server id and does not look at the own row it is merged into:
      an accepted echo takes the own row back to an older version exactly when there are two rows and the
      own one is newer than the copy. A server id the own row held before is then shown no more. */
  lemma OwnVersionDropsExactly(db: Db, uid: Option<nat>, inp: Input, now: int)
    requires Schema(db) && Accepted(db, uid, inp) && OwnRow(db, uid, inp).Some?
    ensures
      var own := OwnRow(db, uid, inp).value;
      var held, after := db.message[own], Store(db, uid, inp, now).0;
      && own in after.message
      && (KeyLess((after.message[own].orderSeq, after.message[own].pts), (held.orderSeq, held.pts)) <==>
            Merges(db, uid, inp) && KeyLess(Key(inp), (held.orderSeq, held.pts)))
      && (held.server.Some? && held.server != Some(inp.server) ==> View(after, held.server.value) == None)
  {
    var own := OwnRow(db, uid, inp).value;
    var t := Store(db, uid, inp, now).0.message;
    if db.message[own].server.Some? && db.message[own].server != Some(inp.server) {
      forall i | i in t ensures t[i].server != db.message[own].server {}
    }
  }

  // ----- where the revoke flag is lost, exactly -----

  /** The flag is one-way on a row, but it does not move when the row holding the server id is merged
      into the own row: an accepted copy keeps a shown revocation exactly when it stays on its row, or
      the own row is flagged too, or the copy itself is revoked. */
  lemma RevocationSurvivesExactly(db: Db, uid: Option<nat>, inp: Input, now: int)
    requires Schema(db) && Accepted(db, uid, inp)
    requires View(db, inp.server).Some? && View(db, inp.server).value.revoked
    ensures
      var after := View(Store(db, uid, inp, now).0, inp.server);
      var own := OwnRow(db, uid, inp);
      && after.Some?
      && (after.value.revoked <==>
            own.None? || own == FindServer(db.message, inp.server) || Revoked(db, own.value) || inp.revoked)
  {
    var (id, row) := Placed(db, uid, inp, now);
    PlaceKeepsSchema(db, id, row, inp, now);
    HeldOnce(Place(db, id, row, inp, now).message, inp.server, id);
  }
}
